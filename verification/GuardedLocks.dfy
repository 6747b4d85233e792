/** Many MCS locks taken by nested guards (LockGuard in McsLock.h): every step of their atomic
    protocol is a step of the queues and guards of module LockOrder, or none. */
module GuardedLocks {
  import McsLock
  import opened LockOrder

  /** The state of each lock, the locks each thread's guards hold, innermost last, and the
      lock whose `mcsLock` or `mcsUnlock` call a thread is in. */
  datatype Many = Many(locks: map<LockId, McsLock.State>, held: map<Thread, seq<LockId>>, busy: map<Thread, LockId>)

  /** A guard's constructor begins, its destructor begins, or the call a thread is in makes its
      next atomic step. `Reuse` is the memory of a node no call on that lock is using. */
  datatype Move =
    | Construct(t: Thread, l: LockId, node: McsLock.Node)
    | Destruct(t: Thread)
    | Advance(t: Thread)
    | Reuse(l: LockId, node: McsLock.Node, p: McsLock.Pointer, b: bool)

  function Start(): Many {
    Many(map[], map[], map[])
  }

  function LockAt(m: Many, l: LockId): McsLock.State {
    if l in m.locks then m.locks[l] else McsLock.Init()
  }

  function Held(m: Many, t: Thread): seq<LockId> {
    if t in m.held then m.held[t] else []
  }

  function PcAt(m: Many, t: Thread, l: LockId): McsLock.Pc {
    McsLock.PcOf(LockAt(m, l), t)
  }

  predicate In(m: Many, t: Thread, l: LockId) {
    t in m.busy && m.busy[t] == l
  }

  function Innermost(m: Many, t: Thread): LockId {
    var h := Held(m, t);
    if h == [] then RaceList else h[|h| - 1]
  }

  ghost predicate CanMove(m: Many, a: Move) {
    match a
    case Construct(t, l, node) =>
      t !in m.busy && MayRequest(Held(m, t), l) && McsLock.Enabled(LockAt(m, l), McsLock.Lock(t, node))
    case Destruct(t) =>
      t !in m.busy && Held(m, t) != [] && McsLock.Enabled(LockAt(m, Innermost(m, t)), McsLock.Unlock(t))
    case Advance(t) => t in m.busy && McsLock.Enabled(LockAt(m, m.busy[t]), McsLock.Step(t))
    case Reuse(l, node, p, b) => McsLock.Enabled(LockAt(m, l), McsLock.Scribble(node, p, b))
  }

  /** A call returns when its thread has entered, or is idle again. */
  function Settle(m: Many, t: Thread, l: LockId, pc: McsLock.Pc): Many {
    var h := Held(m, t);
    if pc.Critical? then Many(m.locks, m.held[t := h + [l]], m.busy - {t})
    else if pc.Idle? && h != [] then Many(m.locks, m.held[t := h[..|h| - 1]], m.busy - {t})
    else m
  }

  function Moved(m: Many, a: Move): Many {
    match a
    case Construct(t, l, node) =>
      m.(locks := m.locks[l := McsLock.Apply(LockAt(m, l), McsLock.Lock(t, node))], busy := m.busy[t := l])
    case Destruct(t) =>
      var l := Innermost(m, t);
      m.(locks := m.locks[l := McsLock.Apply(LockAt(m, l), McsLock.Unlock(t))], busy := m.busy[t := l])
    case Advance(t) =>
      if t !in m.busy then m
      else
        var l := m.busy[t];
        var ls := McsLock.DoStep(LockAt(m, l), t);
        Settle(m.(locks := m.locks[l := ls]), t, l, McsLock.PcOf(ls, t))
    case Reuse(l, node, p, b) =>
      m.(locks := m.locks[l := McsLock.Apply(LockAt(m, l), McsLock.Scribble(node, p, b))])
  }

  ghost predicate Reached(moves: seq<Move>, m: Many) {
    if moves == [] then m == Start()
    else
      var n := |moves| - 1;
      exists m0 | Reached(moves[..n], m0) :: CanMove(m0, moves[n]) && m == Moved(m0, moves[n])
  }

  // How a thread stands with a lock.

  predicate Stands(m: Many, t: Thread, l: LockId) {
    var pc := PcAt(m, t, l);
    if In(m, t, l) then
      if l in Held(m, t) then McsLock.Granted(pc) && !pc.Critical? && Innermost(m, t) == l
      else McsLock.Locking(pc) && MayRequest(Held(m, t), l)
    else if l in Held(m, t) then pc.Critical?
    else pc.Idle?
  }

  ghost predicate AllStand(m: Many) {
    && (forall l :: McsLock.Inv(LockAt(m, l)))
    && (forall t, l :: Stands(m, t, l))
  }

  function WantedBy(m: Many, t: Thread): Wanted {
    if t !in m.busy then Nothing
    else
      var pc := PcAt(m, t, m.busy[t]);
      if McsLock.InQueue(pc) && !McsLock.Granted(pc) then Wants(m.busy[t]) else Nothing
  }

  predicate SameQueue(m: Many, s: State, l: LockId) {
    Queue(s, l) == LockAt(m, l).queue
  }

  predicate SameGuards(m: Many, s: State, t: Thread) {
    GuardsOf(s, t) == Guards(Held(m, t), WantedBy(m, t))
  }

  /** `s` is `m` seen through its queues and guards. */
  ghost predicate Shows(m: Many, s: State) {
    && (forall l :: SameQueue(m, s, l))
    && (forall t :: SameGuards(m, s, t))
  }

  // Every move.

  /** Only the moving thread's place, at one lock, changes. */
  ghost predicate OnlyAt(m: Many, m': Many, t: Thread, l: LockId) {
    && (forall k | k != l :: LockAt(m', k) == LockAt(m, k))
    && (forall u | u != t :: PcAt(m', u, l) == PcAt(m, u, l) && Held(m', u) == Held(m, u) && (u in m'.busy <==> u in m.busy))
    && (forall u | u != t && u in m.busy :: u in m'.busy && m'.busy[u] == m.busy[u])
  }

  lemma OthersStand(m: Many, m': Many, t: Thread, l: LockId, u: Thread, k: LockId)
    requires OnlyAt(m, m', t, l) && u != t && Stands(m, u, k)
    ensures Stands(m', u, k)
  {
  }

  lemma OthersShow(m: Many, m': Many, s: State, s': State, t: Thread, l: LockId, u: Thread)
    requires OnlyAt(m, m', t, l) && u != t && SameGuards(m, s, u) && GuardsOf(s', u) == GuardsOf(s, u)
    ensures SameGuards(m', s', u)
  {
  }

  /** The pieces of a move put together. */
  lemma MoveStands(m: Many, m': Many, t: Thread, l: LockId)
    requires AllStand(m) && OnlyAt(m, m', t, l) && McsLock.Inv(LockAt(m', l)) && forall k :: Stands(m', t, k)
    ensures AllStand(m')
  {
    forall k ensures McsLock.Inv(LockAt(m', k)) { assert McsLock.Inv(LockAt(m, k)); }
    forall u, k ensures Stands(m', u, k) {
      assert Stands(m, u, k);
      if u != t { OthersStand(m, m', t, l, u, k); }
    }
  }

  lemma MoveShows(m: Many, m': Many, s: State, s': State, t: Thread, l: LockId)
    requires Shows(m, s) && OnlyAt(m, m', t, l)
    requires forall u | u != t :: GuardsOf(s', u) == GuardsOf(s, u)
    requires forall k | k != l :: Queue(s', k) == Queue(s, k)
    requires SameQueue(m', s', l) && SameGuards(m', s', t)
    ensures Shows(m', s')
  {
    forall k ensures SameQueue(m', s', k) { assert SameQueue(m, s, k); }
    forall u ensures SameGuards(m', s', u) {
      assert SameGuards(m, s, u);
      if u != t { OthersShow(m, m', s, s', t, l, u); }
    }
  }

  /** A move that steps one lock and one thread's own bookkeeping. */
  lemma MovesAt(m: Many, m': Many, t: Thread, l: LockId, a: McsLock.Action)
    requires a.Scribble? || a.t == t
    requires m'.locks == m.locks[l := McsLock.Apply(LockAt(m, l), a)]
    requires forall u | u != t :: Held(m', u) == Held(m, u) && (u in m'.busy <==> u in m.busy)
    requires forall u | u != t && u in m.busy :: u in m'.busy && m'.busy[u] == m.busy[u]
    ensures OnlyAt(m, m', t, l)
  {
    forall u | u != t ensures PcAt(m', u, l) == PcAt(m, u, l) { McsLock.OthersPc(LockAt(m, l), a, u); }
  }

  lemma ConstructStands(m: Many, t: Thread, l: LockId, node: McsLock.Node, k: LockId)
    requires CanMove(m, Construct(t, l, node)) && Stands(m, t, k)
    ensures Stands(Moved(m, Construct(t, l, node)), t, k)
  {
    NotHeld(m, t, l);
  }

  lemma ConstructShows(m: Many, t: Thread, l: LockId, node: McsLock.Node, s: State)
    requires CanMove(m, Construct(t, l, node)) && SameGuards(m, s, t) && SameQueue(m, s, l)
    ensures var m' := Moved(m, Construct(t, l, node)); SameGuards(m', s, t) && SameQueue(m', s, l)
  {
  }

  lemma ConstructMoves(m: Many, t: Thread, l: LockId, node: McsLock.Node, s: State)
    requires AllStand(m) && Shows(m, s) && CanMove(m, Construct(t, l, node))
    ensures var m' := Moved(m, Construct(t, l, node)); AllStand(m') && Shows(m', s)
  {
    var m' := Moved(m, Construct(t, l, node));
    McsLock.ApplyInv(LockAt(m, l), McsLock.Lock(t, node));
    MovesAt(m, m', t, l, McsLock.Lock(t, node));
    forall k ensures Stands(m', t, k) {
      assert Stands(m, t, k);
      ConstructStands(m, t, l, node, k);
    }
    MoveStands(m, m', t, l);
    assert SameGuards(m, s, t) && SameQueue(m, s, l);
    ConstructShows(m, t, l, node, s);
    MoveShows(m, m', s, s, t, l);
  }

  /** Guards nest by rank, so a thread never asks for a lock it holds. */
  lemma NotHeld(m: Many, t: Thread, l: LockId)
    requires MayRequest(Held(m, t), l)
    ensures l !in Held(m, t)
  {
  }

  lemma DestructStands(m: Many, t: Thread, k: LockId)
    requires CanMove(m, Destruct(t)) && Stands(m, t, k)
    ensures Stands(Moved(m, Destruct(t)), t, k)
  {
    assert Innermost(m, t) in Held(m, t);
  }

  lemma DestructShows(m: Many, t: Thread, s: State)
    requires CanMove(m, Destruct(t)) && SameGuards(m, s, t) && SameQueue(m, s, Innermost(m, t))
    ensures var m' := Moved(m, Destruct(t)); SameGuards(m', s, t) && SameQueue(m', s, Innermost(m, t))
  {
  }

  lemma DestructMoves(m: Many, t: Thread, s: State)
    requires AllStand(m) && Shows(m, s) && CanMove(m, Destruct(t))
    ensures var m' := Moved(m, Destruct(t)); AllStand(m') && Shows(m', s)
  {
    var l, m' := Innermost(m, t), Moved(m, Destruct(t));
    McsLock.ApplyInv(LockAt(m, l), McsLock.Unlock(t));
    MovesAt(m, m', t, l, McsLock.Unlock(t));
    forall k ensures Stands(m', t, k) {
      assert Stands(m, t, k);
      DestructStands(m, t, k);
    }
    MoveStands(m, m', t, l);
    assert SameGuards(m, s, t) && SameQueue(m, s, l);
    DestructShows(m, t, s);
    MoveShows(m, m', s, s, t, l);
  }

  /** No thread's place depends on the memory of nodes no call is using. */
  lemma ReusePlaces(m: Many, l: LockId, node: McsLock.Node, p: McsLock.Pointer, b: bool, t: Thread, k: LockId)
    ensures var m' := Moved(m, Reuse(l, node, p, b));
      PcAt(m', t, k) == PcAt(m, t, k) && LockAt(m', k).queue == LockAt(m, k).queue
  {
  }

  lemma ReuseHere(m: Many, l: LockId, node: McsLock.Node, p: McsLock.Pointer, b: bool, t: Thread, k: LockId, s: State)
    requires Stands(m, t, k) && SameGuards(m, s, t) && SameQueue(m, s, k)
    ensures var m' := Moved(m, Reuse(l, node, p, b)); Stands(m', t, k) && SameGuards(m', s, t) && SameQueue(m', s, k)
  {
    ReusePlaces(m, l, node, p, b, t, k);
    if t in m.busy { ReusePlaces(m, l, node, p, b, t, m.busy[t]); }
  }

  lemma ReuseMoves(m: Many, l: LockId, node: McsLock.Node, p: McsLock.Pointer, b: bool, s: State)
    requires AllStand(m) && Shows(m, s) && CanMove(m, Reuse(l, node, p, b))
    ensures var m' := Moved(m, Reuse(l, node, p, b)); AllStand(m') && Shows(m', s)
  {
    var m' := Moved(m, Reuse(l, node, p, b));
    McsLock.ApplyInv(LockAt(m, l), McsLock.Scribble(node, p, b));
    MovesAt(m, m', 0, l, McsLock.Scribble(node, p, b));
    forall k ensures Stands(m', 0, k) && SameGuards(m', s, 0) && SameQueue(m', s, k) {
      assert Stands(m, 0, k) && SameGuards(m, s, 0) && SameQueue(m, s, k);
      ReuseHere(m, l, node, p, b, 0, k, s);
    }
    MoveStands(m, m', 0, l);
    MoveShows(m, m', s, s, 0, l);
  }

  // What a step within a call does to the lock's queue and to the thread's place.

  datatype Effect = Quiet | Queues | Enters | QueuesAndEnters | Leaves

  ghost predicate HasEffect(ls: McsLock.State, ls': McsLock.State, t: Thread, e: Effect) {
    var pc, pc' := McsLock.PcOf(ls, t), McsLock.PcOf(ls', t);
    match e
    case Quiet =>
      && ls'.queue == ls.queue && !pc'.Critical? && !pc'.Idle? && McsLock.Granted(pc') == McsLock.Granted(pc)
      && McsLock.InQueue(pc') == McsLock.InQueue(pc) && McsLock.Locking(pc') == McsLock.Locking(pc)
    case Queues => ls'.queue == ls.queue + [t] && McsLock.Locking(pc') && McsLock.InQueue(pc') && pc.LockSwap?
    case Enters => ls'.queue == ls.queue && ls.queue != [] && ls.queue[0] == t && pc'.Critical? && pc.LockSpin?
    case QueuesAndEnters => ls.queue == [] && ls'.queue == [t] && pc'.Critical? && pc.LockSwap?
    case Leaves => ls.queue != [] && ls.queue[0] == t && ls'.queue == ls.queue[1..] && pc'.Idle? && McsLock.Granted(pc)
  }

  lemma LockingEffect(ls: McsLock.State, t: Thread) returns (e: Effect)
    requires McsLock.Inv(ls) && McsLock.Locking(McsLock.PcOf(ls, t))
    ensures HasEffect(ls, McsLock.DoStep(ls, t), t, e) && !e.Leaves?
  {
    var pc := McsLock.PcOf(ls, t);
    if pc.LockSwap? {
      e := if ls.tail.Nil? then QueuesAndEnters else Queues;
    } else if pc.LockSpin? && !McsLock.Blocked(ls, pc.me) {
      McsLock.GrantedIsHead(ls, t);
      e := Enters;
    } else {
      e := Quiet;
    }
  }

  lemma UnlockingEffect(ls: McsLock.State, t: Thread) returns (e: Effect)
    requires McsLock.Inv(ls) && McsLock.Granted(McsLock.PcOf(ls, t)) && !McsLock.PcOf(ls, t).Critical?
    ensures HasEffect(ls, McsLock.DoStep(ls, t), t, e) && (e.Leaves? || e.Quiet?)
  {
    var pc := McsLock.PcOf(ls, t);
    McsLock.GrantedIsHead(ls, t);
    e := if pc.UnlockPass? || (pc.UnlockCas? && ls.tail == McsLock.At(pc.me)) then Leaves else Quiet;
  }

  /** The same effect on queues and guards. */
  function Shown(s: State, t: Thread, l: LockId, e: Effect): State {
    match e
    case Quiet => s
    case Queues => Apply(s, Request(t, l))
    case Enters => Apply(s, Enter(t))
    case QueuesAndEnters => Apply(Apply(s, Request(t, l)), Enter(t))
    case Leaves => Apply(s, Release(t))
  }

  lemma ShownOthers(s: State, t: Thread, l: LockId, e: Effect)
    requires e.Leaves? ==> GuardsOf(s, t).held != [] && GuardsOf(s, t).held[|GuardsOf(s, t).held| - 1] == l
    ensures forall u | u != t :: GuardsOf(Shown(s, t, l, e), u) == GuardsOf(s, u)
    ensures forall k | k != l :: Queue(Shown(s, t, l, e), k) == Queue(s, k)
  {
  }

  /** The facts of a step within a call. */
  ghost predicate Steps(m: Many, t: Thread, l: LockId, s: State, e: Effect) {
    && In(m, t, l) && Stands(m, t, l) && SameQueue(m, s, l) && SameGuards(m, s, t)
    && HasEffect(LockAt(m, l), McsLock.DoStep(LockAt(m, l), t), t, e)
    && (l in Held(m, t) ==> e.Leaves? || e.Quiet?) && (l !in Held(m, t) ==> !e.Leaves?)
  }

  lemma ShownRuns(m: Many, t: Thread, l: LockId, acts: seq<Action>, s: State, e: Effect) returns (acts': seq<Action>)
    requires Steps(m, t, l, s, e) && Run(acts, s)
    ensures Run(acts', Shown(s, t, l, e))
  {
    acts' := acts;
    match e
    case Quiet =>
    case Queues =>
      RunExtends(acts, s, Request(t, l));
      acts' := acts + [Request(t, l)];
    case Enters =>
      RunExtends(acts, s, Enter(t));
      acts' := acts + [Enter(t)];
    case QueuesAndEnters =>
      RunExtends(acts, s, Request(t, l));
      RunExtends(acts + [Request(t, l)], Apply(s, Request(t, l)), Enter(t));
      acts' := acts + [Request(t, l)] + [Enter(t)];
    case Leaves =>
      RunExtends(acts, s, Release(t));
      acts' := acts + [Release(t)];
  }

  lemma ShownHere(m: Many, t: Thread, l: LockId, s: State, e: Effect)
    requires Steps(m, t, l, s, e)
    ensures var m', s' := Moved(m, Advance(t)), Shown(s, t, l, e); SameQueue(m', s', l) && SameGuards(m', s', t)
  {
  }

  predicate Ranked(h: seq<LockId>) {
    forall i, j | 0 <= i < j < |h| :: Rank(h[i]) < Rank(h[j])
  }

  lemma StandsAtOwn(m: Many, t: Thread, l: LockId, s: State, e: Effect)
    requires Steps(m, t, l, s, e) && Ranked(Held(m, t))
    ensures Stands(Moved(m, Advance(t)), t, l)
  {
    var h := Held(m, t);
    if e.Leaves? {
      assert forall i | 0 <= i < |h| - 1 :: h[i] != h[|h| - 1];
    }
  }

  lemma StandsElsewhere(m: Many, t: Thread, l: LockId, k: LockId)
    requires In(m, t, l) && k != l && Stands(m, t, k) && (l in Held(m, t) ==> Innermost(m, t) == l)
    requires McsLock.PcOf(McsLock.DoStep(LockAt(m, l), t), t).Idle? ==> l in Held(m, t)
    ensures Stands(Moved(m, Advance(t)), t, k)
  {
    var h, h' := Held(m, t), Held(Moved(m, Advance(t)), t);
    assert k in h' <==> k in h by { KeptHeld(h, l, k); }
  }

  lemma KeptHeld(h: seq<LockId>, l: LockId, k: LockId)
    requires k != l
    ensures k in h + [l] <==> k in h
    ensures h != [] && h[|h| - 1] == l ==> (k in h[..|h| - 1] <==> k in h)
  {
    if h != [] { assert h == h[..|h| - 1] + [h[|h| - 1]]; }
  }

  lemma StandsHere(m: Many, t: Thread, l: LockId, s: State, e: Effect, k: LockId)
    requires Steps(m, t, l, s, e) && Stands(m, t, k) && Ranked(Held(m, t))
    ensures Stands(Moved(m, Advance(t)), t, k)
  {
    if k == l { StandsAtOwn(m, t, l, s, e); } else { StandsElsewhere(m, t, l, k); }
  }

  lemma StepsNow(m: Many, t: Thread, s: State) returns (e: Effect)
    requires AllStand(m) && Shows(m, s) && t in m.busy
    ensures Steps(m, t, m.busy[t], s, e)
  {
    var l := m.busy[t];
    assert Stands(m, t, l) && SameQueue(m, s, l) && SameGuards(m, s, t) && McsLock.Inv(LockAt(m, l));
    if l in Held(m, t) { e := UnlockingEffect(LockAt(m, l), t); } else { e := LockingEffect(LockAt(m, l), t); }
  }

  lemma AdvanceAt(m: Many, t: Thread)
    requires t in m.busy
    ensures OnlyAt(m, Moved(m, Advance(t)), t, m.busy[t])
    ensures LockAt(Moved(m, Advance(t)), m.busy[t]) == McsLock.DoStep(LockAt(m, m.busy[t]), t)
  {
    MovesAt(m, Moved(m, Advance(t)), t, m.busy[t], McsLock.Step(t));
  }

  lemma AdvanceStands(m: Many, t: Thread, s: State, e: Effect)
    requires AllStand(m) && CanMove(m, Advance(t)) && Steps(m, t, m.busy[t], s, e) && GuardInv(s, t)
    ensures AllStand(Moved(m, Advance(t)))
  {
    var l, m' := m.busy[t], Moved(m, Advance(t));
    AdvanceAt(m, t);
    McsLock.ApplyInv(LockAt(m, l), McsLock.Step(t));
    forall k ensures Stands(m', t, k) {
      assert Stands(m, t, k);
      StandsHere(m, t, l, s, e, k);
    }
    MoveStands(m, m', t, l);
  }

  lemma AdvanceShows(m: Many, t: Thread, s: State, e: Effect)
    requires Shows(m, s) && t in m.busy && Steps(m, t, m.busy[t], s, e)
    ensures Shows(Moved(m, Advance(t)), Shown(s, t, m.busy[t], e))
  {
    var l := m.busy[t];
    AdvanceAt(m, t);
    ShownHere(m, t, l, s, e);
    ShownOthers(s, t, l, e);
    MoveShows(m, Moved(m, Advance(t)), s, Shown(s, t, l, e), t, l);
  }

  lemma AdvanceMoves(m: Many, t: Thread, acts: seq<Action>, s: State) returns (acts': seq<Action>, s': State)
    requires AllStand(m) && Shows(m, s) && Run(acts, s) && CanMove(m, Advance(t))
    ensures AllStand(Moved(m, Advance(t))) && Shows(Moved(m, Advance(t)), s') && Run(acts', s')
  {
    var e := StepsNow(m, t, s);
    LockOrder.RunInv(acts, s);
    AdvanceStands(m, t, s, e);
    AdvanceShows(m, t, s, e);
    acts' := ShownRuns(m, t, m.busy[t], acts, s, e);
    s' := Shown(s, t, m.busy[t], e);
  }

  lemma StartStands()
    ensures AllStand(Start()) && Shows(Start(), Init())
  {
    McsLock.InitInv();
  }

  /** Every run of guards over MCS locks is a run of module LockOrder: its queues are the
      locks' queues, and a thread wants exactly the lock it is queued for without having it. */
  lemma {:induction false} RunShows(moves: seq<Move>, m: Many) returns (acts: seq<Action>, s: State)
    requires Reached(moves, m)
    ensures AllStand(m) && Run(acts, s) && Shows(m, s)
  {
    if moves == [] {
      StartStands();
      acts, s := [], Init();
    } else {
      var n := |moves| - 1;
      var m0 :| Reached(moves[..n], m0) && CanMove(m0, moves[n]) && m == Moved(m0, moves[n]);
      acts, s := RunShows(moves[..n], m0);
      match moves[n]
      case Construct(t, l, node) => ConstructMoves(m0, t, l, node, s);
      case Destruct(t) => DestructMoves(m0, t, s);
      case Advance(t) => acts, s := AdvanceMoves(m0, t, acts, s);
      case Reuse(l, node, p, b) => ReuseMoves(m0, l, node, p, b, s);
    }
  }

  /** `t` is in the queue of a lock behind `u`, and has not been granted it. */
  ghost predicate Behind(m: Many, t: Thread, u: Thread) {
    t in m.busy &&
    var q := LockAt(m, m.busy[t]).queue;
    && !McsLock.Granted(PcAt(m, t, m.busy[t]))
    && exists i, j | 0 <= j < i < |q| :: q[i] == t && q[j] == u
  }

  lemma BehindWaits(m: Many, s: State, t: Thread, u: Thread)
    requires AllStand(m) && Shows(m, s) && Behind(m, t, u)
    ensures Waits(s, t) && WaitsFor(s, t, u)
  {
    var l := m.busy[t];
    assert SameGuards(m, s, t) && SameQueue(m, s, l) && McsLock.Inv(LockAt(m, l));
    assert t in LockAt(m, l).queue;
  }

  /** In no reachable state of the locks do threads wait for each other in a circle. */
  lemma GuardsNeverDeadlock(moves: seq<Move>, m: Many, c: seq<Thread>)
    requires Reached(moves, m) && |c| >= 2
    requires forall i | 0 <= i < |c| - 1 :: Behind(m, c[i], c[i + 1])
    ensures c[0] != c[|c| - 1]
  {
    var acts, s := RunShows(moves, m);
    ChainShows(m, s, c);
    NoCircle(acts, s, c);
  }

  lemma ChainShows(m: Many, s: State, c: seq<Thread>)
    requires AllStand(m) && Shows(m, s)
    requires forall i | 0 <= i < |c| - 1 :: Behind(m, c[i], c[i + 1])
    ensures forall i | 0 <= i < |c| - 1 :: Waits(s, c[i]) && WaitsFor(s, c[i], c[i + 1])
  {
    forall i | 0 <= i < |c| - 1 ensures Waits(s, c[i]) && WaitsFor(s, c[i], c[i + 1]) {
      BehindWaits(m, s, c[i], c[i + 1]);
    }
  }

  lemma NoCircle(acts: seq<Action>, s: State, c: seq<Thread>)
    requires Run(acts, s) && |c| >= 2
    requires forall i | 0 <= i < |c| - 1 :: Waits(s, c[i]) && WaitsFor(s, c[i], c[i + 1])
    ensures c[0] != c[|c| - 1]
  {
    if c[0] == c[|c| - 1] {
      assert Chain(s, c);
      NoCircularWait(acts, s, c);
    }
  }

  // Guards do nest as the code nests them.

  lemma MoveOn(moves: seq<Move>, m: Many, a: Move) returns (m': Many)
    requires Reached(moves, m) && CanMove(m, a)
    ensures m' == Moved(m, a) && Reached(moves + [a], m')
  {
    m' := Moved(m, a);
    assert (moves + [a])[..|moves|] == moves;
  }

  /** A free lock is entered with two steps. */
  lemma FreeLockEnters(ls: McsLock.State, t: Thread, node: McsLock.Node)
    requires McsLock.TailRight(ls) && ls.queue == []
    ensures var one := McsLock.Apply(ls, McsLock.Lock(t, node));
      var two := McsLock.DoStep(one, t);
      && McsLock.PcOf(one, t) == McsLock.LockInit(node) && McsLock.PcOf(two, t) == McsLock.LockSwap(node)
      && McsLock.PcOf(McsLock.DoStep(two, t), t) == McsLock.Critical(node)
  {
  }

  /** A thread's move within its call, seen from outside that lock. */
  lemma AdvanceSettles(m: Many, t: Thread, l: LockId)
    requires In(m, t, l)
    ensures var m', ls := Moved(m, Advance(t)), McsLock.DoStep(LockAt(m, l), t);
      var pc := McsLock.PcOf(ls, t);
      && LockAt(m', l) == ls && (forall k | k != l :: LockAt(m', k) == LockAt(m, k))
      && (pc.Critical? ==> Held(m', t) == Held(m, t) + [l] && t !in m'.busy)
      && (!pc.Critical? && !pc.Idle? ==> Held(m', t) == Held(m, t) && In(m', t, l))
  {
  }

  lemma ConstructTakes(m: Many, t: Thread, l: LockId, node: McsLock.Node)
    requires McsLock.Inv(LockAt(m, l)) && Stands(m, t, l) && t !in m.busy && MayRequest(Held(m, t), l)
    requires LockAt(m, l).queue == [] && McsLock.Free(LockAt(m, l), node)
    ensures CanMove(m, Construct(t, l, node))
    ensures var m' := Moved(m, Construct(t, l, node));
      && In(m', t, l) && Held(m', t) == Held(m, t) && (forall k | k != l :: LockAt(m', k) == LockAt(m, k))
      && LockAt(m', l) == McsLock.Apply(LockAt(m, l), McsLock.Lock(t, node))
  {
    NotHeld(m, t, l);
  }

  /** The three moves that build a guard on a lock nobody has queued for. */
  lemma ThreeMoves(m: Many, t: Thread, l: LockId, node: McsLock.Node) returns (m1: Many, m2: Many, m3: Many)
    requires McsLock.Inv(LockAt(m, l)) && Stands(m, t, l) && t !in m.busy && MayRequest(Held(m, t), l)
    requires LockAt(m, l).queue == [] && McsLock.Free(LockAt(m, l), node)
    ensures CanMove(m, Construct(t, l, node)) && m1 == Moved(m, Construct(t, l, node))
    ensures CanMove(m1, Advance(t)) && m2 == Moved(m1, Advance(t)) && CanMove(m2, Advance(t)) && m3 == Moved(m2, Advance(t))
    ensures Held(m3, t) == Held(m, t) + [l] && t !in m3.busy && (forall k | k != l :: LockAt(m3, k) == LockAt(m, k))
  {
    ConstructTakes(m, t, l, node);
    FreeLockEnters(LockAt(m, l), t, node);
    m1 := Moved(m, Construct(t, l, node));
    AdvanceSettles(m1, t, l);
    m2 := Moved(m1, Advance(t));
    AdvanceSettles(m2, t, l);
    m3 := Moved(m2, Advance(t));
  }

  lemma GuardTakes(moves: seq<Move>, m: Many, t: Thread, l: LockId, node: McsLock.Node) returns (moves': seq<Move>, m': Many)
    requires Reached(moves, m) && t !in m.busy && MayRequest(Held(m, t), l)
    requires LockAt(m, l).queue == [] && McsLock.Free(LockAt(m, l), node)
    ensures Reached(moves', m')
    ensures Held(m', t) == Held(m, t) + [l] && t !in m'.busy && (forall k | k != l :: LockAt(m', k) == LockAt(m, k))
  {
    var acts, s := RunShows(moves, m);
    assert McsLock.Inv(LockAt(m, l)) && Stands(m, t, l);
    var m1, m2, m3 := ThreeMoves(m, t, l, node);
    moves', m' := moves, m;
    m' := MoveOn(moves', m', Construct(t, l, node));
    moves' := moves' + [Construct(t, l, node)];
    m' := MoveOn(moves', m', Advance(t));
    moves' := moves' + [Advance(t)];
    m' := MoveOn(moves', m', Advance(t));
    moves' := moves' + [Advance(t)];
  }

  /** A location's history lock and, inside it, the lock of a region's dependence graph or that of
      the race list; or a dependence graph's lock alone. */
  lemma GuardsNest(t: Thread, first: LockId, second: LockId, node: McsLock.Node) returns (moves: seq<Move>, m: Many)
    requires (first.Location? && !second.Location?) || first.Region?
    ensures Reached(moves, m) && Held(m, t) == if first.Location? then [first, second] else [first]
  {
    moves, m := [], Start();
    moves, m := GuardTakes(moves, m, t, first, node);
    if first.Location? { moves, m := GuardTakes(moves, m, t, second, node); }
  }
}
