/** The MCS queue lock (McsLock.cpp, McsLock.h) as atomic steps of any number of
    threads over shared queue nodes. */
module McsLock {
  type Thread = nat

  /** The address of a queue node; the nodes themselves are the shared memory below. */
  type Node = nat

  datatype Pointer = Nil | At(node: Node)

  /** Where a thread stands, named after the atomic step it does next. */
  datatype Pc =
    | Idle
    | LockInit(me: Node)
    | LockSwap(me: Node)
    | LockBlock(me: Node, pred: Node)
    | LockLink(me: Node, pred: Node)
    | LockSpin(me: Node)
    | TryInit(me: Node)
    | TryCas(me: Node)
    | Critical(me: Node)
    | UnlockRead(me: Node)
    | UnlockCas(me: Node)
    | UnlockSpin(me: Node)
    | UnlockPass(me: Node, succ: Node)

  /** The last four fields are history: the threads that took the tail and have not
      left yet, all tail exchanges, all entries to the critical section, and the thread
      that last brought a node into use. */
  datatype State = State(
    tail: Pointer,
    next: map<Node, Pointer>,
    blocked: map<Node, bool>,
    pcs: map<Thread, Pc>,
    queue: seq<Thread>,
    arrivals: seq<Thread>,
    grants: seq<Thread>,
    owner: map<Node, Thread>)

  /** `Step` does a thread's next atomic step. `Scribble` is the memory of a node no
      call is using being reused for something else. */
  datatype Action =
    | Lock(t: Thread, me: Node)
    | TryLock(t: Thread, me: Node)
    | Unlock(t: Thread)
    | Step(t: Thread)
    | Scribble(n: Node, p: Pointer, b: bool)

  function Init(): State {
    State(Nil, map[], map[], map[], [], [], [], map[])
  }

  function PcOf(s: State, t: Thread): Pc {
    if t in s.pcs then s.pcs[t] else Idle
  }

  function Next(s: State, n: Node): Pointer {
    if n in s.next then s.next[n] else Nil
  }

  function Blocked(s: State, n: Node): bool {
    n in s.blocked && s.blocked[n]
  }

  predicate Uses(pc: Pc, n: Node) {
    !pc.Idle? && pc.me == n
  }

  ghost predicate Free(s: State, n: Node) {
    forall t | t in s.pcs :: !Uses(s.pcs[t], n)
  }

  ghost predicate Enabled(s: State, a: Action) {
    match a
    case Lock(t, me) => PcOf(s, t).Idle? && Free(s, me)
    case TryLock(t, me) => PcOf(s, t).Idle? && Free(s, me)
    case Unlock(t) => PcOf(s, t).Critical?
    case Step(t) => !PcOf(s, t).Idle? && !PcOf(s, t).Critical?
    case Scribble(n, _, _) => Free(s, n)
  }

  function Goto(s: State, t: Thread, pc: Pc): State {
    s.(pcs := s.pcs[t := pc])
  }

  function Enqueue(s: State, t: Thread): State {
    s.(queue := s.queue + [t], arrivals := s.arrivals + [t])
  }

  function Grant(s: State, t: Thread, me: Node): State {
    Goto(s, t, Critical(me)).(grants := s.grants + [t])
  }

  function Dequeue(s: State): State {
    s.(queue := if s.queue == [] then [] else s.queue[1..])
  }

  function DoStep(s: State, t: Thread): State {
    match PcOf(s, t)
    case LockInit(me) => Goto(s, t, LockSwap(me)).(next := s.next[me := Nil])
    case LockSwap(me) =>
      var s' := Enqueue(s, t).(tail := At(me));
      (match s.tail
       case Nil => Grant(s', t, me)
       case At(pred) => Goto(s', t, LockBlock(me, pred)))
    case LockBlock(me, pred) => Goto(s, t, LockLink(me, pred)).(blocked := s.blocked[me := true])
    case LockLink(me, pred) => Goto(s, t, LockSpin(me)).(next := s.next[pred := At(me)])
    case LockSpin(me) => if Blocked(s, me) then s else Grant(s, t, me)
    case TryInit(me) => Goto(s, t, TryCas(me)).(next := s.next[me := Nil])
    case TryCas(me) =>
      if s.tail.Nil? then Grant(Enqueue(s, t).(tail := At(me)), t, me)
      else Goto(s, t, Idle)
    case UnlockRead(me) =>
      (match Next(s, me)
       case Nil => Goto(s, t, UnlockCas(me))
       case At(succ) => Goto(s, t, UnlockPass(me, succ)))
    case UnlockCas(me) =>
      if s.tail == At(me) then Dequeue(Goto(s, t, Idle)).(tail := Nil)
      else Goto(s, t, UnlockSpin(me))
    case UnlockSpin(me) =>
      (match Next(s, me)
       case Nil => s
       case At(succ) => Goto(s, t, UnlockPass(me, succ)))
    case UnlockPass(me, succ) => Dequeue(Goto(s, t, Idle)).(blocked := s.blocked[succ := false])
    case Idle => s
    case Critical(_) => s
  }

  function Apply(s: State, a: Action): State {
    match a
    case Lock(t, me) => Goto(s, t, LockInit(me)).(owner := s.owner[me := t])
    case TryLock(t, me) => Goto(s, t, TryInit(me)).(owner := s.owner[me := t])
    case Unlock(t) => (match PcOf(s, t) case Critical(me) => Goto(s, t, UnlockRead(me)) case _ => s)
    case Step(t) => DoStep(s, t)
    case Scribble(n, p, b) => s.(next := s.next[n := p], blocked := s.blocked[n := b])
  }

  ghost predicate Run(acts: seq<Action>, s: State) {
    if acts == [] then s == Init()
    else
      var n := |acts| - 1;
      exists s0 | Run(acts[..n], s0) :: Enabled(s0, acts[n]) && s == Apply(s0, acts[n])
  }

  // The shape of the queue.

  predicate InQueue(pc: Pc) {
    pc.LockBlock? || pc.LockLink? || pc.LockSpin? || Granted(pc)
  }

  predicate Granted(pc: Pc) {
    pc.Critical? || pc.UnlockRead? || pc.UnlockCas? || pc.UnlockSpin? || pc.UnlockPass?
  }

  /** Inside a call of `mcsLock`. */
  predicate Locking(pc: Pc) {
    pc.LockInit? || pc.LockSwap? || pc.LockBlock? || pc.LockLink? || pc.LockSpin?
  }

  function Me(s: State, t: Thread): Node {
    var pc := PcOf(s, t);
    if pc.Idle? then 0 else pc.me
  }

  ghost predicate Members(s: State) {
    && (forall i, j | 0 <= i < j < |s.queue| :: s.queue[i] != s.queue[j])
    && (forall t :: t in s.queue <==> InQueue(PcOf(s, t)))
  }

  /** A node in use belongs to one thread. */
  predicate Owns(s: State, t: Thread) {
    PcOf(s, t).Idle? || (Me(s, t) in s.owner && s.owner[Me(s, t)] == t)
  }

  ghost predicate OwnNodes(s: State) {
    forall t :: Owns(s, t)
  }

  predicate TailRight(s: State) {
    s.tail == if s.queue == [] then Nil else At(Me(s, s.queue[|s.queue| - 1]))
  }

  /** The thread at position `i > 0` waits behind its predecessor. */
  predicate Waiter(s: State, i: nat) {
    0 < i < |s.queue| ==>
      var pc := PcOf(s, s.queue[i]);
      && (pc.LockBlock? || pc.LockLink? || pc.LockSpin?)
      && (pc.LockBlock? || pc.LockLink? ==> pc.pred == Me(s, s.queue[i - 1]))
      && (pc.LockLink? || pc.LockSpin? ==> Blocked(s, pc.me))
  }

  /** The thread at the head holds the lock or has been handed it. */
  predicate Head(s: State) {
    s.queue != [] ==>
      var pc := PcOf(s, s.queue[0]);
      && (Granted(pc) || (pc.LockSpin? && !Blocked(s, pc.me)))
      && (pc.UnlockSpin? ==> |s.queue| >= 2)
      && (pc.UnlockPass? ==> |s.queue| >= 2 && PcOf(s, s.queue[1]) == LockSpin(pc.succ))
  }

  /** A queue node points to its successor as soon as that one has linked itself. */
  predicate Linked(s: State, i: nat) {
    i < |s.queue| ==>
      Next(s, Me(s, s.queue[i])) ==
      if i + 1 < |s.queue| && PcOf(s, s.queue[i + 1]).LockSpin? then At(Me(s, s.queue[i + 1])) else Nil
  }

  ghost predicate Links(s: State) {
    forall i: nat | i < |s.queue| :: Waiter(s, i) && Linked(s, i)
  }

  ghost predicate Fresh(s: State) {
    forall t :: (PcOf(s, t).LockSwap? || PcOf(s, t).TryCas?) ==> Next(s, Me(s, t)).Nil?
  }

  /** Grants so far, followed by the threads still waiting, are the tail exchanges in order. */
  predicate Fifo(s: State) {
    s.arrivals == s.grants + Waiting(s)
  }

  function Waiting(s: State): seq<Thread> {
    if s.queue != [] && Granted(PcOf(s, s.queue[0])) then s.queue[1..] else s.queue
  }

  ghost predicate Inv(s: State) {
    Members(s) && OwnNodes(s) && TailRight(s) && Head(s) && Links(s) && Fresh(s) && Fifo(s)
  }

  lemma InitInv()
    ensures Inv(Init())
  {
  }

  lemma NodesApart(s: State, i: nat, j: nat)
    requires Members(s) && OwnNodes(s) && i < |s.queue| && j < |s.queue| && i != j
    ensures s.queue[i] != s.queue[j] && Me(s, s.queue[i]) != Me(s, s.queue[j])
  {
    assert s.queue[i] in s.queue && s.queue[j] in s.queue;
    assert Owns(s, s.queue[i]) && Owns(s, s.queue[j]);
  }

  /** Everything about the queue is read off its threads and their nodes. */
  lemma QueueFrame(s: State, s': State)
    requires s'.queue == s.queue && s'.tail == s.tail && s'.arrivals == s.arrivals && s'.grants == s.grants
    requires forall i: nat | i < |s.queue| :: PcOf(s', s.queue[i]) == PcOf(s, s.queue[i])
    requires forall i: nat | i < |s.queue| ::
      Next(s', Me(s, s.queue[i])) == Next(s, Me(s, s.queue[i])) && Blocked(s', Me(s, s.queue[i])) == Blocked(s, Me(s, s.queue[i]))
    ensures TailRight(s) ==> TailRight(s')
    ensures Head(s) ==> Head(s')
    ensures Links(s) ==> Links(s')
    ensures Fifo(s) ==> Fifo(s')
  {
    forall i: nat | Links(s) && i < |s.queue| ensures Waiter(s', i) && Linked(s', i) {
      assert Waiter(s, i) && Linked(s, i);
    }
  }

  /** Threads other than the one that moves keep their place. */
  lemma PlacesFrame(s: State, s': State, t: Thread)
    requires Members(s) && OwnNodes(s) && s'.queue == s.queue && s'.owner == s.owner
    requires s'.pcs == s.pcs[t := PcOf(s', t)] && InQueue(PcOf(s', t)) == InQueue(PcOf(s, t)) && Owns(s', t)
    ensures Members(s') && OwnNodes(s')
  {
    forall u ensures u != t ==> PcOf(s', u) == PcOf(s, u) && Owns(s', u) && (u in s.queue <==> InQueue(PcOf(s', u))) {
      assert Owns(s, u);
    }
  }

  /** A thread outside the queue moves on, writing at most its own node. */
  lemma OutsideInv(s: State, s': State, t: Thread, me: Node)
    requires Inv(s) && !InQueue(PcOf(s, t)) && !InQueue(PcOf(s', t))
    requires s' == s.(pcs := s.pcs[t := PcOf(s', t)], next := s'.next) && Owns(s', t)
    requires PcOf(s', t).Idle? || (PcOf(s', t).me == me && Me(s, t) == me)
    requires forall n | n != me :: Next(s', n) == Next(s, n)
    requires !PcOf(s, t).Idle? && Me(s, t) == me
    requires PcOf(s', t).LockSwap? || PcOf(s', t).TryCas? ==> Next(s', me).Nil?
    ensures Inv(s')
  {
    forall i: nat | i < |s.queue|
      ensures PcOf(s', s.queue[i]) == PcOf(s, s.queue[i]) && Me(s, s.queue[i]) != me
    {
      assert s.queue[i] in s.queue;
      assert Owns(s, s.queue[i]) && Owns(s, t);
    }
    QueueFrame(s, s');
    PlacesFrame(s, s', t);
    forall u | PcOf(s', u).LockSwap? || PcOf(s', u).TryCas? ensures Next(s', Me(s', u)).Nil? {
      if u != t {
        assert Owns(s, u) && Owns(s, t);
        assert PcOf(s', u) == PcOf(s, u);
      }
    }
  }

  /** A call begins with a node nobody uses. */
  lemma BeginPlaces(s: State, t: Thread, me: Node, pc: Pc, s': State)
    requires Members(s) && OwnNodes(s) && PcOf(s, t).Idle? && Free(s, me) && (pc == LockInit(me) || pc == TryInit(me))
    requires s' == Goto(s, t, pc).(owner := s.owner[me := t])
    ensures Members(s') && OwnNodes(s')
    ensures forall u | u != t :: PcOf(s', u) == PcOf(s, u)
    ensures forall i: nat | i < |s.queue| :: PcOf(s', s.queue[i]) == PcOf(s, s.queue[i])
  {
    forall u ensures Owns(s', u) {
      assert Owns(s, u);
      if u in s.pcs { assert !Uses(s.pcs[u], me); }
    }
    forall u ensures u in s.queue <==> InQueue(PcOf(s', u)) { assert u in s.queue <==> InQueue(PcOf(s, u)); }
    forall i: nat | i < |s.queue| ensures s.queue[i] != t { assert s.queue[i] in s.queue; }
  }

  lemma BeginInv(s: State, t: Thread, me: Node, pc: Pc)
    requires Inv(s) && PcOf(s, t).Idle? && Free(s, me) && (pc == LockInit(me) || pc == TryInit(me))
    ensures Inv(Goto(s, t, pc).(owner := s.owner[me := t]))
  {
    var s' := Goto(s, t, pc).(owner := s.owner[me := t]);
    BeginPlaces(s, t, me, pc, s');
    QueueFrame(s, s');
    assert Fresh(s');
  }

  /** Position of a thread that is in the queue. */
  lemma PositionOf(s: State, t: Thread) returns (i: nat)
    requires Members(s) && InQueue(PcOf(s, t))
    ensures i < |s.queue| && s.queue[i] == t
  {
    assert t in s.queue;
    i :| 0 <= i < |s.queue| && s.queue[i] == t;
  }

  /** Only the head of the queue has been granted the lock, and only waiters spin blocked. */
  lemma GrantedIsHead(s: State, t: Thread)
    requires Inv(s) && InQueue(PcOf(s, t))
    ensures s.queue != []
    ensures Granted(PcOf(s, t)) || (PcOf(s, t).LockSpin? && !Blocked(s, Me(s, t))) <==> s.queue[0] == t
  {
    var i := PositionOf(s, t);
    assert Waiter(s, i);
  }

  // A tail exchange puts the thread at the end of the queue, or at its head if it is alone.

  ghost predicate Exchanges(s: State, t: Thread, me: Node, s': State) {
    && (PcOf(s, t) == LockSwap(me) || (PcOf(s, t) == TryCas(me) && s.tail.Nil?))
    && s' == (if s.tail.Nil? then Grant(Enqueue(s, t).(tail := At(me)), t, me)
              else Goto(Enqueue(s, t).(tail := At(me)), t, LockBlock(me, s.tail.node)))
  }

  lemma ExchangePlaces(s: State, t: Thread, me: Node, s': State)
    requires Members(s) && OwnNodes(s) && Exchanges(s, t, me, s')
    ensures t !in s.queue && Members(s') && OwnNodes(s')
    ensures forall i: nat | i < |s.queue| :: PcOf(s', s.queue[i]) == PcOf(s, s.queue[i])
    ensures forall u | u != t :: PcOf(s', u) == PcOf(s, u)
  {
    forall u ensures Owns(s', u) { assert Owns(s, u); }
    forall i: nat | i < |s.queue| ensures s.queue[i] != t { assert s.queue[i] in s.queue; }
  }

  lemma ExchangeLinks(s: State, t: Thread, me: Node, s': State)
    requires Exchanges(s, t, me, s') && TailRight(s) && Links(s) && Next(s, me).Nil?
    requires forall i: nat | i < |s.queue| :: PcOf(s', s.queue[i]) == PcOf(s, s.queue[i])
    ensures Links(s')
  {
    var n := |s.queue|;
    forall i: nat | i < n + 1 ensures Waiter(s', i) && Linked(s', i) {
      if i < n {
        assert Waiter(s, i) && Linked(s, i) && s'.queue[i] == s.queue[i];
        if i + 1 < n { assert s'.queue[i + 1] == s.queue[i + 1]; }
        if i > 0 { assert s'.queue[i - 1] == s.queue[i - 1]; }
      } else {
        assert s'.queue[n] == t;
        if n > 0 { assert s'.queue[n - 1] == s.queue[n - 1]; }
      }
    }
  }

  lemma ExchangeHead(s: State, t: Thread, me: Node, s': State)
    requires Exchanges(s, t, me, s') && TailRight(s) && Head(s) && Fifo(s)
    requires forall i: nat | i < |s.queue| :: PcOf(s', s.queue[i]) == PcOf(s, s.queue[i])
    ensures TailRight(s') && Head(s') && Fifo(s')
  {
    if s.queue != [] {
      assert s'.queue[0] == s.queue[0];
      if |s.queue| > 1 { assert s'.queue[1] == s.queue[1]; }
      assert s'.queue[1..] == s.queue[1..] + [t];
    } else {
      assert s'.queue == [t];
    }
  }

  lemma ExchangeInv(s: State, t: Thread, me: Node, s': State)
    requires Inv(s) && Exchanges(s, t, me, s')
    ensures Inv(s')
  {
    ExchangePlaces(s, t, me, s');
    ExchangeFresh(s, t, me, s');
    ExchangeLinks(s, t, me, s');
    ExchangeHead(s, t, me, s');
  }

  lemma ExchangeFresh(s: State, t: Thread, me: Node, s': State)
    requires Exchanges(s, t, me, s') && Fresh(s)
    requires forall u | u != t :: PcOf(s', u) == PcOf(s, u)
    ensures Fresh(s') && Next(s, me).Nil?
  {
    assert Next(s, Me(s, t)).Nil?;
  }

  // A waiter marks itself blocked, then links itself behind its predecessor.

  lemma WaiterMoves(s: State, t: Thread, i: nat, s': State, j: nat)
    requires 0 < i < |s.queue| && s.queue[i] == t && s' == DoStep(s, t) && j < |s.queue|
    requires PcOf(s, t).LockBlock? || PcOf(s, t).LockLink?
    requires Waiter(s, i) && Waiter(s, j) && Linked(s, i) && Linked(s, j)
    requires forall k: nat | k < |s.queue| && k != i :: s.queue[k] != t && Me(s, s.queue[k]) != Me(s, t)
    requires forall k: nat | k < |s.queue| && k != i - 1 :: Me(s, s.queue[k]) != Me(s, s.queue[i - 1])
    ensures Waiter(s', j) && Linked(s', j)
  {
    assert Me(s', t) == Me(s, t);
    assert j != i ==> PcOf(s', s.queue[j]) == PcOf(s, s.queue[j]);
    if j + 1 < |s.queue| && j + 1 != i { assert PcOf(s', s.queue[j + 1]) == PcOf(s, s.queue[j + 1]); }
    if j > 0 && j - 1 != i { assert PcOf(s', s.queue[j - 1]) == PcOf(s, s.queue[j - 1]); }
  }

  lemma WaiterInv(s: State, t: Thread)
    requires Inv(s) && (PcOf(s, t).LockBlock? || PcOf(s, t).LockLink?)
    ensures Inv(DoStep(s, t))
  {
    var s' := DoStep(s, t);
    var i := PositionOf(s, t);
    WaiterPlaces(s, t, i);
    forall j: nat | j < |s.queue| ensures Waiter(s', j) && Linked(s', j) {
      assert Waiter(s, j) && Linked(s, j) && Waiter(s, i) && Linked(s, i);
      WaiterMoves(s, t, i, s', j);
    }
    WaiterHead(s, t, i, s');
    assert Owns(s, t);
    PlacesFrame(s, s', t);
    WaiterFresh(s, t, i, s');
  }

  /** A node in the queue belongs to one place of it. */
  lemma NodeAlone(s: State, i: nat)
    requires Members(s) && OwnNodes(s) && i < |s.queue|
    ensures forall k: nat | k < |s.queue| && k != i :: s.queue[k] != s.queue[i] && Me(s, s.queue[k]) != Me(s, s.queue[i])
  {
    forall k: nat | k < |s.queue| && k != i ensures s.queue[k] != s.queue[i] && Me(s, s.queue[k]) != Me(s, s.queue[i]) {
      NodesApart(s, i, k);
    }
  }

  lemma WaiterPlaces(s: State, t: Thread, i: nat)
    requires Members(s) && OwnNodes(s) && Head(s)
    requires i < |s.queue| && s.queue[i] == t && (PcOf(s, t).LockBlock? || PcOf(s, t).LockLink?)
    ensures i > 0
    ensures forall k: nat | k < |s.queue| && k != i :: s.queue[k] != t && Me(s, s.queue[k]) != Me(s, t)
    ensures forall k: nat | k < |s.queue| && k != i - 1 :: Me(s, s.queue[k]) != Me(s, s.queue[i - 1])
  {
    assert i > 0;
    NodeAlone(s, i);
    NodeAlone(s, i - 1);
  }

  lemma WaiterHead(s: State, t: Thread, i: nat, s': State)
    requires TailRight(s) && Head(s) && Fifo(s) && 0 < i < |s.queue| && s.queue[i] == t && s' == DoStep(s, t)
    requires PcOf(s, t).LockBlock? || PcOf(s, t).LockLink?
    requires forall k: nat | k < |s.queue| && k != i :: s.queue[k] != t && Me(s, s.queue[k]) != Me(s, t)
    ensures TailRight(s') && Head(s') && Fifo(s')
  {
    assert forall u | u != t :: PcOf(s', u) == PcOf(s, u);
  }

  lemma WaiterFresh(s: State, t: Thread, i: nat, s': State)
    requires Members(s) && OwnNodes(s) && Fresh(s) && Waiter(s, i) && 0 < i < |s.queue| && s.queue[i] == t
    requires (PcOf(s, t).LockBlock? || PcOf(s, t).LockLink?) && s' == DoStep(s, t)
    ensures Fresh(s')
  {
    var p := s.queue[i - 1];
    assert p in s.queue && Owns(s, p);
    forall u | PcOf(s', u).LockSwap? || PcOf(s', u).TryCas? ensures Next(s', Me(s', u)).Nil? {
      assert PcOf(s', u) == PcOf(s, u) && Owns(s, u);
    }
  }

  // The head of the queue enters, and later leaves, its critical section.

  function HeadTo(s: State, t: Thread, pc: Pc): State {
    Goto(s, t, pc).(grants := if Granted(PcOf(s, t)) then s.grants else s.grants + [t])
  }

  lemma HeadInv(s: State, t: Thread, pc: Pc)
    requires Inv(s) && s.queue != [] && s.queue[0] == t && Granted(pc) && pc.me == Me(s, t)
    requires pc.UnlockSpin? ==> |s.queue| >= 2
    requires pc.UnlockPass? ==> |s.queue| >= 2 && PcOf(s, s.queue[1]) == LockSpin(pc.succ)
    ensures Inv(HeadTo(s, t, pc))
  {
    var s' := HeadTo(s, t, pc);
    assert t in s.queue && Owns(s, t);
    PlacesFrame(s, s', t);
    HeadLinks(s, t, pc);
    assert Fresh(s') by { assert forall u | u != t :: PcOf(s', u) == PcOf(s, u); }
  }

  lemma HeadLinks(s: State, t: Thread, pc: Pc)
    requires Members(s) && TailRight(s) && Head(s) && Links(s) && Fifo(s)
    requires s.queue != [] && s.queue[0] == t && Granted(pc) && pc.me == Me(s, t)
    requires !PcOf(s, t).Idle?
    requires pc.UnlockSpin? ==> |s.queue| >= 2
    requires pc.UnlockPass? ==> |s.queue| >= 2 && PcOf(s, s.queue[1]) == LockSpin(pc.succ)
    ensures var s' := HeadTo(s, t, pc); Links(s') && Head(s') && TailRight(s') && Fifo(s')
  {
    var s' := HeadTo(s, t, pc);
    assert Me(s', t) == Me(s, t);
    forall k: nat | 0 < k < |s.queue| ensures PcOf(s', s.queue[k]) == PcOf(s, s.queue[k]) {}
    forall j: nat | j < |s.queue| ensures Waiter(s', j) && Linked(s', j) {
      HeadLinksAt(s, t, pc, s', j);
    }
    HeadFifo(s, t, pc);
  }

  lemma HeadLinksAt(s: State, t: Thread, pc: Pc, s': State, j: nat)
    requires j < |s.queue| && s.queue[0] == t && s' == HeadTo(s, t, pc) && Links(s)
    requires Me(s', t) == Me(s, t)
    requires forall k: nat | 0 < k < |s.queue| :: PcOf(s', s.queue[k]) == PcOf(s, s.queue[k])
    ensures Waiter(s', j) && Linked(s', j)
  {
    assert Waiter(s, j) && Linked(s, j);
  }

  lemma HeadFifo(s: State, t: Thread, pc: Pc)
    requires s.queue != [] && s.queue[0] == t && Granted(pc)
    ensures Fifo(s) ==> Fifo(HeadTo(s, t, pc))
  {
    assert s.queue == [t] + s.queue[1..];
  }

  // The head leaves: alone, or waking its successor.

  predicate Leaves(s: State, t: Thread, s': State) {
    && s.queue != [] && s.queue[0] == t && s' == DoStep(s, t)
    && (PcOf(s, t).UnlockPass? || (PcOf(s, t).UnlockCas? && s.tail == At(Me(s, t))))
  }

  lemma LeaveMoves(s: State, t: Thread, s': State)
    requires Leaves(s, t, s')
    ensures s'.queue == s.queue[1..] && s.queue == [t] + s.queue[1..] && PcOf(s', t).Idle? && s'.owner == s.owner
    ensures forall u | u != t :: PcOf(s', u) == PcOf(s, u)
  {
  }

  lemma LeavePlaces(s: State, t: Thread, s': State)
    requires Members(s) && OwnNodes(s) && Leaves(s, t, s')
    ensures Members(s') && OwnNodes(s') && s'.queue == s.queue[1..] && PcOf(s', t).Idle?
    ensures forall u | u != t :: PcOf(s', u) == PcOf(s, u)
  {
    LeaveMoves(s, t, s');
    LeaveMembers(s, t, s');
    forall u ensures Owns(s', u) { assert Owns(s, u); }
  }

  lemma LeaveMembers(s: State, t: Thread, s': State)
    requires Members(s) && s.queue != [] && s.queue == [t] + s.queue[1..] && s'.queue == s.queue[1..] && PcOf(s', t).Idle?
    requires forall u | u != t :: PcOf(s', u) == PcOf(s, u)
    ensures Members(s')
  {
    forall u ensures u in s'.queue <==> InQueue(PcOf(s', u)) {
      assert u in s.queue <==> u == t || u in s.queue[1..];
    }
  }

  lemma LeaveAlone(s: State, t: Thread, s': State)
    requires Inv(s) && Leaves(s, t, s') && PcOf(s, t).UnlockCas?
    ensures s.queue == [t] && Inv(s')
  {
    LeavePlaces(s, t, s');
    if |s.queue| > 1 { NodesApart(s, 0, |s.queue| - 1); }
    assert s.queue == [t] && s'.queue == [];
    assert Fresh(s');
  }

  lemma LeaveLinks(s: State, t: Thread, s': State)
    requires Members(s) && OwnNodes(s) && Head(s) && Links(s) && Leaves(s, t, s') && PcOf(s, t).UnlockPass?
    ensures Links(s')
  {
    LeavePlaces(s, t, s');
    forall j: nat | j < |s'.queue| ensures Waiter(s', j) && Linked(s', j) {
      assert Waiter(s, j + 1) && Linked(s, j + 1);
      NodesApart(s, 0, j + 1);
      if j > 0 { NodesApart(s, 1, j + 1); NodesApart(s, 0, j); }
      if j + 2 < |s.queue| { NodesApart(s, 0, j + 2); }
    }
  }

  lemma LeaveHead(s: State, t: Thread, s': State)
    requires Members(s) && OwnNodes(s) && TailRight(s) && Head(s) && Fifo(s)
    requires Leaves(s, t, s') && PcOf(s, t).UnlockPass?
    ensures TailRight(s') && Head(s') && Fifo(s')
  {
    LeavePlaces(s, t, s');
    NodesApart(s, 0, 1);
    NodesApart(s, 0, |s.queue| - 1);
    assert s'.queue[0] == s.queue[1];
    assert PcOf(s', s'.queue[0]).LockSpin?;
  }

  lemma LeaveInv(s: State, t: Thread, s': State)
    requires Inv(s) && Leaves(s, t, s') && PcOf(s, t).UnlockPass?
    ensures Inv(s')
  {
    LeavePlaces(s, t, s');
    LeaveLinks(s, t, s');
    LeaveHead(s, t, s');
    assert Fresh(s');
  }

  // Every step keeps the invariant.

  /** A thread outside the queue clears its link, or gives up. */
  lemma BeforeInv(s: State, t: Thread)
    requires Inv(s) && (PcOf(s, t).LockInit? || PcOf(s, t).TryInit? || (PcOf(s, t).TryCas? && !s.tail.Nil?))
    ensures Inv(DoStep(s, t))
  {
    assert Owns(s, t);
    OutsideInv(s, DoStep(s, t), t, Me(s, t));
  }

  lemma LockStepInv(s: State, t: Thread)
    requires Inv(s) && Enabled(s, Step(t)) && !Granted(PcOf(s, t))
    ensures Inv(DoStep(s, t))
  {
    var s' := DoStep(s, t);
    match PcOf(s, t)
    case LockInit(_) => BeforeInv(s, t);
    case TryInit(_) => BeforeInv(s, t);
    case LockSwap(me) => ExchangeInv(s, t, me, s');
    case TryCas(me) =>
      if s.tail.Nil? { ExchangeInv(s, t, me, s'); } else { BeforeInv(s, t); }
    case LockBlock(_, _) => WaiterInv(s, t);
    case LockLink(_, _) => WaiterInv(s, t);
    case LockSpin(me) =>
      if !Blocked(s, me) {
        GrantedIsHead(s, t);
        HeadInv(s, t, Critical(me));
      }
  }

  lemma CasInv(s: State, t: Thread)
    requires Inv(s) && s.queue != [] && s.queue[0] == t && PcOf(s, t).UnlockCas?
    ensures Inv(DoStep(s, t))
  {
    var me := PcOf(s, t).me;
    if s.tail == At(me) { LeaveAlone(s, t, DoStep(s, t)); } else { HeadInv(s, t, UnlockSpin(me)); }
  }

  /** The head reads its link: its successor has linked itself, or not yet. */
  lemma ReadInv(s: State, t: Thread)
    requires Inv(s) && s.queue != [] && s.queue[0] == t && (PcOf(s, t).UnlockRead? || PcOf(s, t).UnlockSpin?)
    ensures Inv(DoStep(s, t))
  {
    assert Linked(s, 0);
    var me := PcOf(s, t).me;
    if !Next(s, me).Nil? {
      HeadInv(s, t, UnlockPass(me, Next(s, me).node));
    } else if PcOf(s, t).UnlockRead? {
      HeadInv(s, t, UnlockCas(me));
    }
  }

  lemma UnlockStepInv(s: State, t: Thread)
    requires Inv(s) && Enabled(s, Step(t)) && Granted(PcOf(s, t))
    ensures Inv(DoStep(s, t))
  {
    GrantedIsHead(s, t);
    match PcOf(s, t)
    case UnlockRead(_) => ReadInv(s, t);
    case UnlockSpin(_) => ReadInv(s, t);
    case UnlockCas(_) => CasInv(s, t);
    case UnlockPass(_, _) => LeaveInv(s, t, DoStep(s, t));
  }

  lemma ScribbleInv(s: State, n: Node, p: Pointer, b: bool)
    requires Inv(s) && Free(s, n)
    ensures Inv(Apply(s, Scribble(n, p, b)))
  {
    var s' := Apply(s, Scribble(n, p, b));
    ScribbleOutside(s, n);
    ScribblePlaces(s, s');
    QueueFrame(s, s');
    ScribbleFresh(s, s', n);
  }

  lemma ScribblePlaces(s: State, s': State)
    requires Members(s) && OwnNodes(s) && s'.pcs == s.pcs && s'.queue == s.queue && s'.owner == s.owner
    ensures Members(s') && OwnNodes(s')
  {
    assert forall u :: PcOf(s', u) == PcOf(s, u) && (Owns(s, u) ==> Owns(s', u));
  }

  lemma ScribbleFresh(s: State, s': State, n: Node)
    requires Fresh(s) && s'.pcs == s.pcs && forall u | !PcOf(s, u).Idle? :: Me(s, u) != n
    requires forall k | k != n :: Next(s', k) == Next(s, k)
    ensures Fresh(s')
  {
    forall u | PcOf(s', u).LockSwap? || PcOf(s', u).TryCas? ensures Next(s', Me(s', u)).Nil? {
      assert PcOf(s', u) == PcOf(s, u);
    }
  }

  lemma ScribbleOutside(s: State, n: Node)
    requires Members(s) && Free(s, n)
    ensures forall u | !PcOf(s, u).Idle? :: Me(s, u) != n
    ensures forall i: nat | i < |s.queue| :: Me(s, s.queue[i]) != n
  {
    forall u | !PcOf(s, u).Idle? ensures Me(s, u) != n { assert !Uses(s.pcs[u], n); }
    forall i: nat | i < |s.queue| ensures Me(s, s.queue[i]) != n { assert s.queue[i] in s.queue; }
  }

  lemma ApplyInv(s: State, a: Action)
    requires Inv(s) && Enabled(s, a)
    ensures Inv(Apply(s, a))
  {
    match a
    case Lock(t, me) => BeginInv(s, t, me, LockInit(me));
    case TryLock(t, me) => BeginInv(s, t, me, TryInit(me));
    case Unlock(t) =>
      GrantedIsHead(s, t);
      HeadInv(s, t, UnlockRead(PcOf(s, t).me));
    case Step(t) => if Granted(PcOf(s, t)) { UnlockStepInv(s, t); } else { LockStepInv(s, t); }
    case Scribble(n, p, b) => ScribbleInv(s, n, p, b);
  }

  lemma {:induction false} RunInv(acts: seq<Action>, s: State)
    requires Run(acts, s)
    ensures Inv(s)
  {
    if acts == [] {
      InitInv();
    } else {
      var n := |acts| - 1;
      var s0 :| Run(acts[..n], s0) && Enabled(s0, acts[n]) && s == Apply(s0, acts[n]);
      RunInv(acts[..n], s0);
      ApplyInv(s0, acts[n]);
    }
  }

  // What every reachable state satisfies.

  /** At most one thread is between acquiring and releasing the lock. */
  lemma MutualExclusion(acts: seq<Action>, s: State, t: Thread, u: Thread)
    requires Run(acts, s) && Granted(PcOf(s, t)) && Granted(PcOf(s, u))
    ensures t == u
  {
    RunInv(acts, s);
    GrantedIsHead(s, t);
    GrantedIsHead(s, u);
  }

  /** The lock is granted in the order of the tail exchanges: the grants so far are the
      first exchanges, and the rest are the waiting threads in queue order. */
  lemma FifoService(acts: seq<Action>, s: State)
    requires Run(acts, s)
    ensures s.grants <= s.arrivals && s.arrivals[|s.grants|..] == Waiting(s)
    ensures forall t | t in Waiting(s) :: InQueue(PcOf(s, t)) && !Granted(PcOf(s, t))
  {
    RunInv(acts, s);
    forall t | t in Waiting(s) ensures InQueue(PcOf(s, t)) && !Granted(PcOf(s, t)) {
      assert t in s.queue;
      GrantedIsHead(s, t);
    }
  }

  /** A thread that stays in the queue never moves back. */
  lemma PositionNeverGrows(s: State, a: Action, t: Thread, i: nat, j: nat)
    requires Inv(s) && Enabled(s, a)
    requires i < |s.queue| && s.queue[i] == t
    requires j < |Apply(s, a).queue| && Apply(s, a).queue[j] == t
    ensures j <= i
  {
    var s' := Apply(s, a);
    ApplyInv(s, a);
    QueueChange(s, a);
    assert forall k: nat | k < |s.queue| && s.queue[k] == t :: k == i;
  }

  /** A step leaves the queue alone, appends a thread that was not in it, or removes its head. */
  lemma QueueChange(s: State, a: Action)
    requires Inv(s) && Enabled(s, a)
    ensures var q, q' := s.queue, Apply(s, a).queue;
      q' == q || (a.Step? && q' == q + [a.t] && a.t !in q) || (q != [] && q' == q[1..] && a.Step? && a.t == q[0])
  {
    if a.Step? && Granted(PcOf(s, a.t)) { GrantedIsHead(s, a.t); }
  }

  /** When an unlock has returned, nothing that is still in use refers to the node it used:
      not the tail, not the next pointer of a queued node, not a store still to be made. */
  lemma NodeLifetime(acts: seq<Action>, s: State, n: Node)
    requires Run(acts, s) && Free(s, n)
    ensures s.tail != At(n)
    ensures forall t | t in s.queue :: Next(s, Me(s, t)) != At(n)
    ensures forall t :: var pc := PcOf(s, t);
      (pc.LockBlock? || pc.LockLink? ==> pc.pred != n) && (pc.UnlockPass? ==> pc.succ != n)
  {
    RunInv(acts, s);
    forall u | !PcOf(s, u).Idle? ensures Me(s, u) != n { assert !Uses(s.pcs[u], n); }
    forall i: nat | i < |s.queue| ensures Me(s, s.queue[i]) != n { assert s.queue[i] in s.queue; }
    forall t | t in s.queue ensures Next(s, Me(s, t)) != At(n) {
      var i := PositionOf(s, t);
      assert Linked(s, i);
    }
    forall t ensures var pc := PcOf(s, t);
      (pc.LockBlock? || pc.LockLink? ==> pc.pred != n) && (pc.UnlockPass? ==> pc.succ != n)
    {
      if InQueue(PcOf(s, t)) {
        var i := PositionOf(s, t);
        assert Waiter(s, i);
        if Granted(PcOf(s, t)) { GrantedIsHead(s, t); }
      }
    }
  }

  /** Each store to another thread's node hits a node in the queue: a link goes to the
      predecessor, a wake-up to a successor that is still spinning. */
  lemma StoresHitLiveNodes(acts: seq<Action>, s: State, t: Thread)
    requires Run(acts, s)
    ensures PcOf(s, t).LockLink? ==> exists u | u in s.queue :: Me(s, u) == PcOf(s, t).pred
    ensures PcOf(s, t).UnlockPass? ==>
      exists u | u in s.queue :: PcOf(s, u) == LockSpin(PcOf(s, t).succ) && Blocked(s, PcOf(s, t).succ)
  {
    RunInv(acts, s);
    if PcOf(s, t).LockLink? {
      var i := PositionOf(s, t);
      assert Waiter(s, i);
      assert s.queue[i - 1] in s.queue;
    } else if PcOf(s, t).UnlockPass? {
      GrantedIsHead(s, t);
      assert Waiter(s, 1) && s.queue[1] in s.queue;
    }
  }

  // No hand-off is lost: a waiting thread can always be brought into its critical section.

  function HeadPhase(pc: Pc): nat {
    match pc
    case LockSpin(_) => 6
    case Critical(_) => 5
    case UnlockRead(_) => 4
    case UnlockCas(_) => 3
    case UnlockSpin(_) => 2
    case UnlockPass(_, _) => 1
    case _ => 0
  }

  function LinkPhase(s: State): nat {
    if |s.queue| < 2 then 0
    else if PcOf(s, s.queue[1]).LockBlock? then 2
    else if PcOf(s, s.queue[1]).LockLink? then 1
    else 0
  }

  /** The step that brings the thread at position `k` closer: the head's, or its
      successor's where the head waits for that one to link itself. */
  function Helper(s: State): Action
    requires s.queue != []
  {
    var pc := PcOf(s, s.queue[0]);
    if pc.Critical? then Unlock(s.queue[0])
    else if pc.UnlockSpin? && Next(s, pc.me).Nil? && |s.queue| >= 2 then Step(s.queue[1])
    else Step(s.queue[0])
  }

  /** The waiting thread `t` has entered, moved up, or the threads before it have advanced. */
  predicate Closer(s: State, s': State, t: Thread, k: nat) {
    || PcOf(s', t).Critical?
    || (k > 0 && s.queue != [] && s'.queue == s.queue[1..] && !Granted(PcOf(s', t)))
    || (s.queue != [] && s'.queue == s.queue && !Granted(PcOf(s', t)) &&
        (HeadPhase(PcOf(s', s.queue[0])) < HeadPhase(PcOf(s, s.queue[0])) ||
         (PcOf(s', s.queue[0]) == PcOf(s, s.queue[0]) && LinkPhase(s') < LinkPhase(s))))
  }

  lemma LinkHelps(s: State, t: Thread, k: nat)
    requires Inv(s) && 0 < k < |s.queue| && s.queue[k] == t && !Granted(PcOf(s, t))
    requires PcOf(s, s.queue[0]).UnlockSpin? && Next(s, Me(s, s.queue[0])).Nil?
    ensures Helper(s) == Step(s.queue[1]) && Enabled(s, Helper(s)) && Closer(s, Apply(s, Helper(s)), t, k)
  {
    NodesApart(s, 0, 1);
    assert Linked(s, 0) && Waiter(s, 1);
    if k != 1 { NodesApart(s, 1, k); }
  }

  lemma HeadEnters(s: State, t: Thread)
    requires Head(s) && s.queue != [] && s.queue[0] == t && !Granted(PcOf(s, t))
    ensures Helper(s) == Step(t) && Enabled(s, Helper(s)) && PcOf(Apply(s, Helper(s)), t).Critical?
  {
  }

  /** The head hands the lock over: everyone behind moves up. */
  lemma HeadLeaves(s: State, t: Thread, k: nat)
    requires 0 < k < |s.queue| && s.queue[k] == t && s.queue[0] != t && !Granted(PcOf(s, t))
    requires PcOf(s, s.queue[0]).UnlockPass?
    ensures Enabled(s, Helper(s)) && Closer(s, Apply(s, Helper(s)), t, k)
  {
  }

  /** The head advances within its own section or unlock. */
  lemma HeadAdvances(s: State, t: Thread, k: nat)
    requires Head(s) && 0 < k < |s.queue| && s.queue[k] == t && s.queue[0] != t && !Granted(PcOf(s, t))
    requires !PcOf(s, s.queue[0]).UnlockPass? && s.tail != At(Me(s, s.queue[0]))
    requires !(PcOf(s, s.queue[0]).UnlockSpin? && Next(s, Me(s, s.queue[0])).Nil?)
    ensures Enabled(s, Helper(s)) && Closer(s, Apply(s, Helper(s)), t, k)
  {
  }

  lemma HeadHelps(s: State, t: Thread, k: nat)
    requires Inv(s) && k < |s.queue| && s.queue[k] == t && !Granted(PcOf(s, t))
    requires !(PcOf(s, s.queue[0]).UnlockSpin? && Next(s, Me(s, s.queue[0])).Nil?)
    ensures Enabled(s, Helper(s)) && Closer(s, Apply(s, Helper(s)), t, k)
  {
    if k == 0 {
      HeadEnters(s, t);
    } else {
      NodesApart(s, 0, k);
      NodesApart(s, 0, |s.queue| - 1);
      if PcOf(s, s.queue[0]).UnlockPass? { HeadLeaves(s, t, k); } else { HeadAdvances(s, t, k); }
    }
  }

  /** With a thread waiting, the helper's step is enabled, does not spin, and comes closer. */
  lemma HelperHelps(s: State, t: Thread, k: nat)
    requires Inv(s) && k < |s.queue| && s.queue[k] == t && !Granted(PcOf(s, t))
    ensures Enabled(s, Helper(s)) && Closer(s, Apply(s, Helper(s)), t, k)
  {
    if PcOf(s, s.queue[0]).UnlockSpin? && Next(s, Me(s, s.queue[0])).Nil? {
      LinkHelps(s, t, k);
    } else {
      HeadHelps(s, t, k);
    }
  }

  /** `s'` is reached from `s` by enabled steps. */
  ghost predicate Continues(s: State, acts: seq<Action>, s': State)
    decreases |acts|
  {
    if acts == [] then s' == s
    else Enabled(s, acts[0]) && Continues(Apply(s, acts[0]), acts[1..], s')
  }

  lemma {:induction false} NoLostHandOff(s: State, t: Thread, k: nat) returns (acts: seq<Action>, s': State)
    requires Inv(s) && k < |s.queue| && s.queue[k] == t && !Granted(PcOf(s, t))
    ensures Continues(s, acts, s') && PcOf(s', t).Critical?
    decreases k, HeadPhase(PcOf(s, s.queue[0])), LinkPhase(s)
  {
    var a := Helper(s);
    HelperHelps(s, t, k);
    ApplyInv(s, a);
    var next := Apply(s, a);
    if PcOf(next, t).Critical? {
      acts, s' := [a], next;
      assert Continues(next, [], next);
    } else {
      var rest;
      rest, s' := NoLostHandOff(next, t, if next.queue == s.queue then k else k - 1);
      acts := [a] + rest;
      assert acts[1..] == rest;
    }
  }

  // Service under every schedule: no step sets a waiting thread back.

  /** How far the thread at position `k` is from the lock, in steps of the helper. */
  function Distance(s: State, k: nat): nat {
    if s.queue == [] then 0
    else 21 * k + 3 * HeadPhase(PcOf(s, s.queue[0])) + if k > 0 then LinkPhase(s) else 0
  }

  lemma LockStepPcs(s: State, t: Thread, u: Thread)
    requires u != t && !Granted(PcOf(s, t))
    ensures PcOf(DoStep(s, t), u) == PcOf(s, u)
  {
  }

  lemma UnlockStepPcs(s: State, t: Thread, u: Thread)
    requires u != t && Granted(PcOf(s, t))
    ensures PcOf(DoStep(s, t), u) == PcOf(s, u)
  {
  }

  /** A step changes the place of no thread but the one that makes it. */
  lemma OthersPc(s: State, a: Action, u: Thread)
    requires a.Scribble? || a.t != u
    ensures PcOf(Apply(s, a), u) == PcOf(s, u)
  {
    if a.Step? { if Granted(PcOf(s, a.t)) { UnlockStepPcs(s, a.t, u); } else { LockStepPcs(s, a.t, u); } }
  }

  /** What the head's own step does, as long as it stays. */
  lemma HeadStep(s: State, a: Action)
    requires Head(s) && Enabled(s, a) && s.queue != [] && !a.Scribble? && a.t == s.queue[0] && InQueue(PcOf(s, a.t))
    ensures HeadPhase(PcOf(Apply(s, a), a.t)) <= HeadPhase(PcOf(s, a.t))
  {
  }

  /** The second in the queue only gets closer to spinning. */
  lemma SecondStep(s: State, a: Action)
    requires Waiter(s, 1) && Enabled(s, a) && |s.queue| >= 2 && !a.Scribble? && a.t == s.queue[1] && Apply(s, a).queue == s.queue
    ensures LinkPhase(Apply(s, a)) <= LinkPhase(s)
  {
  }

  /** A step after which the queue still begins as before. */
  lemma StaysAsFar(s: State, a: Action, k: nat)
    requires Inv(s) && Enabled(s, a) && k < |s.queue| && s.queue <= Apply(s, a).queue
    ensures Distance(Apply(s, a), k) <= Distance(s, k)
  {
    var s' := Apply(s, a);
    assert s'.queue[0] == s.queue[0] && s.queue[0] in s.queue;
    if !a.Scribble? && a.t == s.queue[0] { HeadStep(s, a); } else { OthersPc(s, a, s.queue[0]); }
    if k > 0 {
      assert s'.queue[1] == s.queue[1] && s.queue[1] in s.queue && Waiter(s, 1);
      if !a.Scribble? && a.t == s.queue[1] {
        QueueChange(s, a);
        SecondStep(s, a);
      } else {
        OthersPc(s, a, s.queue[1]);
      }
    }
  }

  lemma PhasesAreSmall(s: State)
    ensures LinkPhase(s) <= 2 && forall pc :: HeadPhase(pc) <= 6
  {
  }

  /** Whoever makes the next step: a thread that goes on waiting is no farther from the lock
      than before, and closer if it was the helper's step. */
  lemma NoStepSetsBack(s: State, a: Action, t: Thread, k: nat) returns (k': nat)
    requires Inv(s) && Enabled(s, a) && k < |s.queue| && s.queue[k] == t && !Granted(PcOf(s, t))
    requires !Granted(PcOf(Apply(s, a), t)) && InQueue(PcOf(Apply(s, a), t))
    ensures k' < |Apply(s, a).queue| && Apply(s, a).queue[k'] == t
    ensures Distance(Apply(s, a), k') <= Distance(s, k)
    ensures a == Helper(s) ==> Distance(Apply(s, a), k') < Distance(s, k)
  {
    var s' := Apply(s, a);
    ApplyInv(s, a);
    QueueChange(s, a);
    PhasesAreSmall(s');
    if s'.queue == s.queue[1..] && a.Step? && a.t == s.queue[0] {
      assert k > 0 by { if k == 0 { NotInTail(s, s', t); } }
      k' := k - 1;
    } else {
      k' := k;
      StaysAsFar(s, a, k);
      if a == Helper(s) { HelperHelps(s, t, k); }
    }
  }

  /** A head that leaves is in the queue no longer. */
  lemma NotInTail(s: State, s': State, t: Thread)
    requires Members(s) && Members(s') && s.queue != [] && s.queue[0] == t && s'.queue == s.queue[1..]
    ensures !InQueue(PcOf(s', t))
  {
    assert forall i | 0 <= i < |s'.queue| :: s'.queue[i] == s.queue[i + 1] && s.queue[i + 1] != s.queue[0];
  }

  function HelperSteps(s: State, acts: seq<Action>): nat
    decreases |acts|
  {
    if acts == [] then 0
    else (if s.queue != [] && acts[0] == Helper(s) then 1 else 0) + HelperSteps(Apply(s, acts[0]), acts[1..])
  }

  /** `t` waits in every state along the steps. */
  ghost predicate StillWaiting(s: State, acts: seq<Action>, t: Thread)
    decreases |acts|
  {
    && InQueue(PcOf(s, t)) && !Granted(PcOf(s, t))
    && (acts != [] ==> StillWaiting(Apply(s, acts[0]), acts[1..], t))
  }

  /** However the steps of all threads interleave, a thread waits through no more steps of the
      helper than its distance: a schedule that keeps letting the helper move serves it. */
  lemma {:induction false} WaitIsBounded(s: State, acts: seq<Action>, s': State, t: Thread, k: nat)
    requires Inv(s) && Continues(s, acts, s') && StillWaiting(s, acts, t) && k < |s.queue| && s.queue[k] == t
    ensures HelperSteps(s, acts) <= Distance(s, k)
    decreases |acts|
  {
    if acts != [] {
      var k' := NoStepSetsBack(s, acts[0], t, k);
      ApplyInv(s, acts[0]);
      WaitIsBounded(Apply(s, acts[0]), acts[1..], s', t, k');
    }
  }
}
