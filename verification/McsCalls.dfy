/** What a call on the MCS lock of module McsLock comes to: `mcsLock` joins the queue and is
    served, `mcsTryLock` enters exactly if the lock is free, `mcsUnlock` returns. */
module McsCalls {
  import opened McsLock

  /** No step is made by `t`. */
  predicate Without(acts: seq<Action>, t: Thread) {
    forall a | a in acts :: a.Scribble? || a.t != t
  }

  lemma {:induction false} OthersLeave(s: State, acts: seq<Action>, s': State, t: Thread)
    requires Inv(s) && Continues(s, acts, s') && Without(acts, t)
    ensures Inv(s') && PcOf(s', t) == PcOf(s, t)
    decreases |acts|
  {
    if acts != [] {
      ApplyInv(s, acts[0]);
      OthersPc(s, acts[0], t);
      OthersLeave(Apply(s, acts[0]), acts[1..], s', t);
    }
  }

  /** A thread that calls `mcsLock` joins the end of the queue with its second step, whatever
      other threads do before and between, and has the lock at once exactly if the tail was
      null then. */
  lemma LockJoins(s: State, t: Thread, me: Node, before: seq<Action>, s1: State, between: seq<Action>, s2: State)
    requires Inv(s) && Enabled(s, Lock(t, me))
    requires Continues(Apply(s, Lock(t, me)), before, s1) && Without(before, t)
    requires Enabled(s1, Step(t)) ==> Continues(Apply(s1, Step(t)), between, s2) && Without(between, t)
    ensures Enabled(s1, Step(t)) && Enabled(s2, Step(t))
    ensures var s3 := Apply(s2, Step(t));
      && s3.queue == s2.queue + [t] && s3.arrivals == s2.arrivals + [t] && s3.tail == At(me) && Me(s3, t) == me
      && (if s2.tail.Nil? then PcOf(s3, t).Critical? && s3.queue == [t] else Locking(PcOf(s3, t)) && InQueue(PcOf(s3, t)))
  {
    ApplyInv(s, Lock(t, me));
    OthersLeave(Apply(s, Lock(t, me)), before, s1, t);
    ApplyInv(s1, Step(t));
    OthersLeave(Apply(s1, Step(t)), between, s2, t);
  }

  /** A call of `mcsTryLock` enters exactly if the tail is null at its second step. Otherwise
      it returns and leaves the lock as it was. */
  lemma TryEnters(s: State, t: Thread, me: Node, before: seq<Action>, s1: State, between: seq<Action>, s2: State)
    requires Inv(s) && Enabled(s, TryLock(t, me))
    requires Continues(Apply(s, TryLock(t, me)), before, s1) && Without(before, t)
    requires Enabled(s1, Step(t)) ==> Continues(Apply(s1, Step(t)), between, s2) && Without(between, t)
    ensures Enabled(s1, Step(t)) && Enabled(s2, Step(t))
    ensures var s3 := Apply(s2, Step(t));
      if s2.tail.Nil? then PcOf(s3, t) == Critical(me) && s3.queue == [t] && s3.tail == At(me)
      else PcOf(s3, t).Idle? && s3.queue == s2.queue && s3.tail == s2.tail && s3.next == s2.next && s3.blocked == s2.blocked
  {
    ApplyInv(s, TryLock(t, me));
    OthersLeave(Apply(s, TryLock(t, me)), before, s1, t);
    ApplyInv(s1, Step(t));
    OthersLeave(Apply(s1, Step(t)), between, s2, t);
    TryStep(s2, t, me);
  }

  lemma TryStep(s: State, t: Thread, me: Node)
    requires TailRight(s) && PcOf(s, t) == TryCas(me)
    ensures var s' := Apply(s, Step(t));
      if s.tail.Nil? then PcOf(s', t) == Critical(me) && s'.queue == [t] && s'.tail == At(me)
      else PcOf(s', t).Idle? && s'.queue == s.queue && s'.tail == s.tail && s'.next == s.next && s'.blocked == s.blocked
  {
  }

  lemma Prepend(s: State, a: Action, acts: seq<Action>, s': State)
    requires Enabled(s, a) && Continues(Apply(s, a), acts, s')
    ensures Continues(s, [a] + acts, s')
  {
    assert ([a] + acts)[1..] == acts;
  }

  lemma Serve(s: State, t: Thread) returns (acts: seq<Action>, s': State)
    requires Inv(s) && (Locking(PcOf(s, t)) || PcOf(s, t).Critical?)
    ensures Continues(s, acts, s') && PcOf(s', t).Critical?
    decreases if PcOf(s, t).LockInit? then 2 else if PcOf(s, t).LockSwap? then 1 else 0
  {
    var pc := PcOf(s, t);
    if pc.Critical? {
      acts, s' := [], s;
    } else if InQueue(pc) {
      var k := PositionOf(s, t);
      acts, s' := NoLostHandOff(s, t, k);
    } else {
      ApplyInv(s, Step(t));
      acts, s' := Serve(Apply(s, Step(t)), t);
      Prepend(s, Step(t), acts, s');
      acts := [Step(t)] + acts;
    }
  }

  /** From any reachable state, any thread inside a lock call can still get the lock. */
  lemma WaiterIsServed(before: seq<Action>, s: State, t: Thread)
    requires Run(before, s) && Locking(PcOf(s, t))
    ensures exists acts, s' :: Continues(s, acts, s') && PcOf(s', t).Critical?
  {
    RunInv(before, s);
    var acts, s' := Serve(s, t);
  }

  /** The step that brings an unlocking thread closer to its return: its own, or that of a
      successor that has not linked itself yet. */
  function Returner(s: State, t: Thread): Action {
    var pc := PcOf(s, t);
    if pc.UnlockSpin? && Next(s, pc.me).Nil? && |s.queue| >= 2 then Step(s.queue[1]) else Step(t)
  }

  predicate Unlocking(pc: Pc) {
    Granted(pc) && !pc.Critical?
  }

  lemma ReturnerOwn(s: State, t: Thread)
    requires Members(s) && Head(s) && s.queue != [] && s.queue[0] == t && Unlocking(PcOf(s, t)) && Returner(s, t) == Step(t)
    ensures var s' := Apply(s, Step(t));
      PcOf(s', t).Idle? || (s'.queue == s.queue && Unlocking(PcOf(s', t)) && HeadPhase(PcOf(s', t)) < HeadPhase(PcOf(s, t)))
  {
  }

  lemma ReturnerLinks(s: State, t: Thread)
    requires Inv(s) && s.queue != [] && s.queue[0] == t && Unlocking(PcOf(s, t)) && Returner(s, t) != Step(t)
    ensures Enabled(s, Returner(s, t))
    ensures var s' := Apply(s, Returner(s, t));
      s'.queue == s.queue && PcOf(s', t) == PcOf(s, t) && LinkPhase(s') < LinkPhase(s)
  {
    NodesApart(s, 0, 1);
    assert Linked(s, 0) && Waiter(s, 1);
  }

  lemma {:induction false} Return(s: State, t: Thread) returns (acts: seq<Action>, s': State)
    requires Inv(s) && s.queue != [] && s.queue[0] == t && Unlocking(PcOf(s, t))
    ensures Continues(s, acts, s') && PcOf(s', t).Idle?
    decreases HeadPhase(PcOf(s, t)), LinkPhase(s)
  {
    var a := Returner(s, t);
    if a == Step(t) { ReturnerOwn(s, t); } else { ReturnerLinks(s, t); }
    ApplyInv(s, a);
    if PcOf(Apply(s, a), t).Idle? {
      acts, s' := [], Apply(s, a);
    } else {
      acts, s' := Return(Apply(s, a), t);
    }
    Prepend(s, a, acts, s');
    acts := [a] + acts;
  }

  /** From any reachable state, any thread inside an unlock call can still return. */
  lemma UnlockReturns(before: seq<Action>, s: State, t: Thread)
    requires Run(before, s) && Unlocking(PcOf(s, t))
    ensures exists acts, s' :: Continues(s, acts, s') && PcOf(s', t).Idle?
  {
    RunInv(before, s);
    GrantedIsHead(s, t);
    var acts, s' := Return(s, t);
  }

  /** From any reachable state, a thread in no call can take the lock with a node nobody uses,
      and give it back. */
  lemma LockAndUnlock(before: seq<Action>, s: State, t: Thread, me: Node)
    requires Run(before, s) && PcOf(s, t).Idle? && Free(s, me)
    ensures exists acts, s' :: Continues(s, acts, s') && PcOf(s', t).Critical?
    ensures exists acts, s', acts', s'' ::
      Continues(s, acts, s') && PcOf(s', t).Critical? && Continues(s', acts', s'') && PcOf(s'', t).Idle?
  {
    RunInv(before, s);
    var a, b := Lock(t, me), Unlock(t);
    ApplyInv(s, a);
    var acts, s' := Serve(Apply(s, a), t);
    Prepend(s, a, acts, s');
    ContinuesInv(s, [a] + acts, s');
    ApplyInv(s', b);
    GrantedIsHead(Apply(s', b), t);
    var acts', s'' := Return(Apply(s', b), t);
    Prepend(s', b, acts', s'');
  }

  lemma {:induction false} ContinuesInv(s: State, acts: seq<Action>, s': State)
    requires Inv(s) && Continues(s, acts, s')
    ensures Inv(s')
    decreases |acts|
  {
    if acts != [] {
      ApplyInv(s, acts[0]);
      ContinuesInv(Apply(s, acts[0]), acts[1..], s');
    }
  }

  /** And a call of `mcsTryLock` returns after two steps of its own, with or without the lock. */
  lemma TryReturns(before: seq<Action>, s: State, t: Thread, me: Node)
    requires Run(before, s) && PcOf(s, t).Idle? && Free(s, me)
    ensures var acts := [TryLock(t, me), Step(t), Step(t)];
      exists s' :: Continues(s, acts, s') && (PcOf(s', t) == if s.tail.Nil? then Critical(me) else Idle)
  {
    var a, b := TryLock(t, me), Step(t);
    var s1 := Apply(s, a);
    var s2 := Apply(s1, b);
    var s3 := Apply(s2, b);
    assert Continues(s3, [], s3);
    Prepend(s2, b, [], s3);
    assert [b] + [] == [b];
    Prepend(s1, b, [b], s3);
    assert [b] + [b] == [b, b];
    Prepend(s, a, [b, b], s3);
    assert [a] + [b, b] == [a, b, b];
  }
}
