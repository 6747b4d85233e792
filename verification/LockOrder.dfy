/** The nesting of lock guards: a location's history lock is taken first, then the
    lock of a parallel region's dependence graph or that of the race list. Each lock
    is seen through its queue, the `queue` of module McsLock. */
module LockOrder {
  type Thread = nat

  datatype LockId = Location(address: nat) | Region(id: nat) | RaceList

  /** The guards a thread holds, innermost last, and the lock it has queued for. */
  datatype Guards = Guards(held: seq<LockId>, wanted: Wanted)

  datatype Wanted = Nothing | Wants(id: LockId)

  datatype State = State(queues: map<LockId, seq<Thread>>, guards: map<Thread, Guards>)

  datatype Action =
    | Request(t: Thread, l: LockId)
    | Enter(t: Thread)
    | Release(t: Thread)

  function Init(): State {
    State(map[], map[])
  }

  function Queue(s: State, l: LockId): seq<Thread> {
    if l in s.queues then s.queues[l] else []
  }

  function GuardsOf(s: State, t: Thread): Guards {
    if t in s.guards then s.guards[t] else Guards([], Nothing)
  }

  /** Where the code places its guards: `checkDataRace` starts with nothing held, the
      dependence callback too, and the inner guards sit inside `checkDataRace`. */
  predicate MayRequest(held: seq<LockId>, l: LockId) {
    match l
    case Location(_) => held == []
    case Region(_) => held == [] || (|held| == 1 && held[0].Location?)
    case RaceList => |held| == 1 && held[0].Location?
  }

  predicate Enabled(s: State, a: Action) {
    match a
    case Request(t, l) => GuardsOf(s, t).wanted.Nothing? && MayRequest(GuardsOf(s, t).held, l)
    case Enter(t) =>
      var w := GuardsOf(s, t).wanted;
      w.Wants? && Queue(s, w.id) != [] && Queue(s, w.id)[0] == t
    case Release(t) => GuardsOf(s, t).wanted.Nothing? && GuardsOf(s, t).held != []
  }

  function Apply(s: State, a: Action): State {
    var g := GuardsOf(s, a.t);
    match a
    case Request(t, l) =>
      State(s.queues[l := Queue(s, l) + [t]], s.guards[t := g.(wanted := Wants(l))])
    case Enter(t) =>
      if g.wanted.Wants? then s.(guards := s.guards[t := Guards(g.held + [g.wanted.id], Nothing)]) else s
    case Release(t) =>
      if g.held == [] then s
      else
        var l := g.held[|g.held| - 1];
        var q := Queue(s, l);
        State(s.queues[l := if q == [] then [] else q[1..]], s.guards[t := g.(held := g.held[..|g.held| - 1])])
  }

  ghost predicate Run(acts: seq<Action>, s: State) {
    if acts == [] then s == Init()
    else
      var n := |acts| - 1;
      exists s0 | Run(acts[..n], s0) :: Enabled(s0, acts[n]) && s == Apply(s0, acts[n])
  }

  lemma RunExtends(acts: seq<Action>, s: State, a: Action)
    requires Run(acts, s) && Enabled(s, a)
    ensures Run(acts + [a], Apply(s, a))
  {
    assert (acts + [a])[..|acts|] == acts;
  }

  function Rank(l: LockId): nat {
    if l.Location? then 0 else 1
  }

  /** `t` has queued for a lock behind `u`. */
  ghost predicate WaitsFor(s: State, t: Thread, u: Thread) {
    exists l, i, j | 0 <= j < i < |Queue(s, l)| ::
      GuardsOf(s, t).wanted == Wants(l) && Queue(s, l)[i] == t && Queue(s, l)[j] == u
  }

  predicate Distinct(q: seq<Thread>) {
    forall i, j | 0 <= i < j < |q| :: q[i] != q[j]
  }

  /** Held locks are at the head of their queues, ranks grow inwards, and a wanted lock ranks above all held. */
  ghost predicate GuardInv(s: State, t: Thread) {
    var g := GuardsOf(s, t);
    && (forall i | 0 <= i < |g.held| :: Queue(s, g.held[i]) != [] && Queue(s, g.held[i])[0] == t)
    && (forall i, j | 0 <= i < j < |g.held| :: Rank(g.held[i]) < Rank(g.held[j]))
    && (g.wanted.Wants? ==> t in Queue(s, g.wanted.id) && forall i | 0 <= i < |g.held| :: Rank(g.held[i]) < Rank(g.wanted.id))
  }

  ghost predicate QueueInv(s: State, l: LockId) {
    && Distinct(Queue(s, l))
    && forall t | t in Queue(s, l) :: GuardsOf(s, t).wanted == Wants(l) || l in GuardsOf(s, t).held
  }

  ghost predicate Inv(s: State) {
    (forall t :: GuardInv(s, t)) && (forall l :: QueueInv(s, l))
  }

  lemma RequestInv(s: State, t: Thread, l: LockId)
    requires Inv(s) && Enabled(s, Request(t, l))
    ensures Inv(Apply(s, Request(t, l)))
  {
    var s' := Apply(s, Request(t, l));
    assert GuardInv(s, t) && QueueInv(s, l);
    forall i | 0 <= i < |GuardsOf(s, t).held| ensures GuardsOf(s, t).held[i] != l {}
    forall u ensures GuardInv(s', u) {
      assert GuardInv(s, u);
    }
    forall k ensures QueueInv(s', k) {
      assert QueueInv(s, k);
    }
  }

  lemma EnterInv(s: State, t: Thread)
    requires Inv(s) && Enabled(s, Enter(t))
    ensures Inv(Apply(s, Enter(t)))
  {
    var s' := Apply(s, Enter(t));
    assert GuardInv(s, t);
    forall u ensures GuardInv(s', u) {
      assert GuardInv(s, u);
    }
    forall k ensures QueueInv(s', k) {
      assert QueueInv(s, k);
    }
  }

  lemma ReleaseGuards(s: State, t: Thread, s': State, u: Thread, l: LockId)
    requires Enabled(s, Release(t)) && s' == Apply(s, Release(t)) && GuardInv(s, t) && GuardInv(s, u)
    requires var h := GuardsOf(s, t).held; l == h[|h| - 1]
    ensures GuardInv(s', u)
  {
    var g := GuardsOf(s, t);
    if u == t {
      assert forall i | 0 <= i < |g.held| - 1 :: g.held[i] != l;
    } else {
      ReleaseOther(s, t, l, u);
    }
  }

  lemma ReleaseQueues(s: State, t: Thread, s': State, k: LockId, l: LockId)
    requires Enabled(s, Release(t)) && s' == Apply(s, Release(t)) && QueueInv(s, k)
    requires var h := GuardsOf(s, t).held; l == h[|h| - 1] && Queue(s, l) != [] && Queue(s, l)[0] == t
    ensures QueueInv(s', k)
  {
    var g := GuardsOf(s, t);
    forall u | u in Queue(s', k) ensures GuardsOf(s', u).wanted == Wants(k) || k in GuardsOf(s', u).held {
      assert u in Queue(s, k);
      if u == t && k != l && GuardsOf(s, t).wanted != Wants(k) {
        var i :| 0 <= i < |g.held| && g.held[i] == k;
        assert GuardsOf(s', t).held[i] == k;
      }
    }
  }

  lemma ReleaseInv(s: State, t: Thread)
    requires Inv(s) && Enabled(s, Release(t))
    ensures Inv(Apply(s, Release(t)))
  {
    var s', g := Apply(s, Release(t)), GuardsOf(s, t);
    var l := g.held[|g.held| - 1];
    assert GuardInv(s, t);
    forall u ensures GuardInv(s', u) {
      assert GuardInv(s, u);
      ReleaseGuards(s, t, s', u, l);
    }
    forall k ensures QueueInv(s', k) {
      assert QueueInv(s, k);
      ReleaseQueues(s, t, s', k, l);
    }
  }

  /** Another thread's held locks are not the one released, and its wanted lock keeps it queued. */
  lemma ReleaseOther(s: State, t: Thread, l: LockId, u: Thread)
    requires GuardInv(s, u) && u != t && Queue(s, l) != [] && Queue(s, l)[0] == t
    ensures l !in GuardsOf(s, u).held
    ensures GuardsOf(s, u).wanted == Wants(l) ==> u in Queue(s, l)[1..]
  {
    assert Queue(s, l) == [t] + Queue(s, l)[1..];
  }

  lemma {:induction false} RunInv(acts: seq<Action>, s: State)
    requires Run(acts, s)
    ensures Inv(s)
  {
    if acts != [] {
      var n := |acts| - 1;
      var s0 :| Run(acts[..n], s0) && Enabled(s0, acts[n]) && s == Apply(s0, acts[n]);
      RunInv(acts[..n], s0);
      match acts[n]
      case Request(t, l) => RequestInv(s0, t, l);
      case Enter(t) => EnterInv(s0, t);
      case Release(t) => ReleaseInv(s0, t);
    }
  }

  /** The position of a waiting thread in the queue of the lock it wants. */
  function Position(q: seq<Thread>, t: Thread): (i: nat)
    ensures i <= |q| && (i < |q| ==> q[i] == t) && (t in q ==> i < |q|)
  {
    if q == [] || q[0] == t then 0 else 1 + Position(q[1..], t)
  }

  function Place(s: State, t: Thread): nat {
    var w := GuardsOf(s, t).wanted;
    if w.Wants? then Position(Queue(s, w.id), t) else 0
  }

  predicate Waits(s: State, t: Thread) {
    GuardsOf(s, t).wanted.Wants?
  }

  function WantedRank(s: State, t: Thread): nat {
    var w := GuardsOf(s, t).wanted;
    if w.Wants? then Rank(w.id) else 0
  }

  /** One edge of the wait-for relation goes up in rank or forward in one queue. */
  lemma EdgeAdvances(s: State, t: Thread, u: Thread)
    requires Inv(s) && WaitsFor(s, t, u) && Waits(s, u)
    ensures WantedRank(s, t) < WantedRank(s, u) ||
            (GuardsOf(s, t).wanted == GuardsOf(s, u).wanted && Place(s, u) < Place(s, t))
  {
    var l, i, j :| 0 <= j < i < |Queue(s, l)| &&
      GuardsOf(s, t).wanted == Wants(l) && Queue(s, l)[i] == t && Queue(s, l)[j] == u;
    assert QueueInv(s, l) && GuardInv(s, u);
    assert u in Queue(s, l) && t in Queue(s, l);
  }

  /** A chain of waiting threads, each waiting for the next. */
  ghost predicate Chain(s: State, c: seq<Thread>) {
    && (forall i | 0 <= i < |c| :: Waits(s, c[i]))
    && (forall i | 0 <= i < |c| - 1 :: WaitsFor(s, c[i], c[i + 1]))
  }

  lemma {:induction false} ChainAdvances(s: State, c: seq<Thread>)
    requires Inv(s) && Chain(s, c) && |c| >= 2
    ensures WantedRank(s, c[0]) < WantedRank(s, c[|c| - 1]) ||
            (GuardsOf(s, c[0]).wanted == GuardsOf(s, c[|c| - 1]).wanted && Place(s, c[|c| - 1]) < Place(s, c[0]))
  {
    var n := |c| - 1;
    EdgeAdvances(s, c[n - 1], c[n]);
    if n >= 2 {
      var d := c[..n];
      assert forall i | 0 <= i < |d| :: Waits(s, d[i]) by { assert forall i | 0 <= i < |d| :: d[i] == c[i]; }
      forall i | 0 <= i < |d| - 1 ensures WaitsFor(s, d[i], d[i + 1]) {
        assert WaitsFor(s, c[i], c[i + 1]);
      }
      ChainAdvances(s, d);
    }
  }

  /** In no reachable state do threads wait for each other in a circle. */
  lemma NoCircularWait(acts: seq<Action>, s: State, c: seq<Thread>)
    requires Run(acts, s) && |c| >= 2 && Chain(s, c)
    ensures c[0] != c[|c| - 1]
  {
    RunInv(acts, s);
    ChainAdvances(s, c);
  }
}
