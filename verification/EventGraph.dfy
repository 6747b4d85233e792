/** The event graph of a run. Event `e` is a position in the sequence and `g[e]`
    holds its direct predecessors: the previous event of the same task, and for
    synchronisation events the last events of the tasks they wait for. */
module EventGraph {
  type Graph = seq<set<nat>>

  ghost predicate WellFormed(g: Graph) {
    forall e: nat, p: nat {:trigger p in g[e]} | e < |g| && p in g[e] :: p < e
  }

  /** There is a directed path (possibly empty) from event `h` to event `c`. */
  ghost predicate Reaches(g: Graph, h: nat, c: nat)
    requires WellFormed(g) && h < |g| && c < |g|
    decreases c
  {
    h == c || exists p: nat | p in g[c] :: Reaches(g, h, p)
  }

  /** Adding an event changes nothing between the events already there. */
  lemma {:induction false} ReachesOld(g: Graph, preds: set<nat>, h: nat, c: nat)
    requires WellFormed(g) && WellFormed(g + [preds]) && h < |g| && c < |g|
    ensures Reaches(g + [preds], h, c) <==> Reaches(g, h, c)
    decreases c
  {
    var g' := g + [preds];
    assert g'[c] == g[c];
    forall p: nat | p in g[c] ensures Reaches(g', h, p) <==> Reaches(g, h, p) {
      ReachesOld(g, preds, h, p);
    }
  }

  /** The new event is reached from exactly what reaches one of its predecessors. */
  lemma ReachesNew(g: Graph, preds: set<nat>, h: nat)
    requires WellFormed(g) && WellFormed(g + [preds]) && h < |g|
    ensures forall p | p in preds :: p < |g|
    ensures Reaches(g + [preds], h, |g|) <==> exists p: nat | p in preds :: Reaches(g, h, p)
  {
    var g' := g + [preds];
    assert g'[|g|] == preds;
    forall p: nat | p in preds ensures p < |g| && (Reaches(g', h, p) <==> Reaches(g, h, p)) {
      assert p in g'[|g|];
      ReachesOld(g, preds, h, p);
    }
  }

  /** Paths follow the order in which events were added. */
  lemma {:induction false} ReachesForward(g: Graph, h: nat, c: nat)
    requires WellFormed(g) && h < |g| && c < |g|
    ensures Reaches(g, h, c) ==> h <= c
    decreases c
  {
    if h != c && Reaches(g, h, c) {
      var p: nat :| p in g[c] && Reaches(g, h, p);
      ReachesForward(g, h, p);
    }
  }

  lemma {:induction false} ReachesTransitive(g: Graph, a: nat, b: nat, c: nat)
    requires WellFormed(g) && a < |g| && b < |g| && c < |g|
    requires Reaches(g, a, b) && Reaches(g, b, c)
    ensures Reaches(g, a, c)
    decreases c
  {
    if b != c {
      var p: nat :| p in g[c] && Reaches(g, b, p);
      ReachesTransitive(g, a, b, p);
    }
  }
}
