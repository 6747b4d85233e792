/** The verdict the label comparison ought to give on two events of a run. */
module EventVerdict {
  import opened Core
  import opened EventGraph

  /** What the label verdict should be. */
  ghost function Truth(g: Graph, h: nat, c: nat): Verdict {
    if WellFormed(g) && h < |g| && c < |g| && Reaches(g, h, c) then Ordered else Concurrent
  }

  /** What a new event with predecessors `preds` does to the graph. */
  lemma Grow(g: Graph, preds: set<nat>)
    requires WellFormed(g) && forall p | p in preds :: p < |g|
    ensures WellFormed(g + [preds])
    ensures forall h: nat, c: nat | h < |g| && c < |g| :: Truth(g + [preds], h, c) == Truth(g, h, c)
    ensures forall h: nat | h < |g| ::
      Truth(g + [preds], h, |g|) == (if exists p | p in preds :: Truth(g, h, p) == Ordered then Ordered else Concurrent)
    ensures forall c: nat | c < |g| :: Truth(g + [preds], |g|, c) == Concurrent
    ensures Truth(g + [preds], |g|, |g|) == Ordered
  {
    var g' := g + [preds];
    forall h: nat, c: nat | h < |g| && c < |g| ensures Truth(g', h, c) == Truth(g, h, c) {
      ReachesOld(g, preds, h, c);
    }
    forall h: nat | h < |g|
      ensures Truth(g', h, |g|) == (if exists p | p in preds :: Truth(g, h, p) == Ordered then Ordered else Concurrent)
    {
      ReachesNew(g, preds, h);
    }
    forall c: nat | c < |g| ensures Truth(g', |g|, c) == Concurrent {
      ReachesForward(g', |g|, c);
    }
  }
}
