/** One implicit task and the leaf explicit tasks it creates, within one barrier epoch:
    task creation and completion, taskwait and taskgroup (Callbacks.cpp, Label.cpp), with
    the label segments shared between labels as the program shares them; and what these
    steps make reachable in the event graph. Module TaskVerdicts compares the labels. */
module TaskSync {
  import opened Segments
  import opened Core
  import opened EventGraph
  import opened EventVerdict
  import opened TaskGroups
  import Labels

  /** A segment object; a label is a sequence of them. */
  type Ref = nat

  /** How far the implicit task is: the taskwaits it has finished, the taskgroups it has
      begun or ended and the children it has created. */
  datatype Point = Point(waits: nat, ops: nat, made: nat)

  /** `seg` is the parent's last segment when the task was created, `exp` the task's own. */
  datatype Child = Child(seg: Ref, exp: Ref, at: Point, created: nat, last: nat, done: bool)

  datatype Actor = Parent | Task(i: nat)

  /** An access with the segments its label held after the shared prefix. `at` is where the
      parent was: at the access, if that is its own, or else when it created the child. */
  datatype Access = Access(actor: Actor, seg: Ref, exp: Ref, at: Point)

  /** `store` holds the segment objects, `above` the label of the enclosing tasks, `seg` the
      implicit task's last segment and `pending` its list of children. `open` tells, for each
      open taskgroup, how many children there were when it began. */
  datatype State = State(
    graph: Graph,
    store: seq<Segment>,
    above: Label,
    seg: Ref,
    last: nat,
    children: seq<Child>,
    pending: set<nat>,
    waits: nat,
    ops: seq<GroupOp>,
    open: seq<nat>,
    accesses: map<nat, Access>)

  datatype Action =
    | ParentAccess
    | Create
    | ChildAccess(i: nat)
    | Complete(i: nat)
    | TaskWaitEnd
    | GroupBegin
    | GroupEnd

  const MAX_TASKWAIT: nat := 16
  const MAX_TASKCREATE: nat := 0x8000

  function Init(above: Label, own: Segment): State {
    State([{}], [own], above, 0, 0, [], {}, 0, [], [], map[])
  }

  function Now(s: State): Point {
    Point(s.waits, |s.ops|, |s.children|)
  }

  ghost predicate Sane(s: State) {
    && WellFormed(s.graph) && s.last < |s.graph| && s.seg < |s.store|
    && (forall i | 0 <= i < |s.children| :: SaneChild(s, s.children[i]))
    && (forall e | e in s.accesses :: e < |s.graph|)
  }

  predicate SaneChild(s: State, c: Child) {
    c.last < |s.graph| && c.created < |s.graph| && c.seg < |s.store| && c.exp < |s.store|
  }

  /** How many children were there when the innermost open group began. */
  function GroupStart(s: State): nat {
    if s.open == [] then |s.children| else s.open[|s.open| - 1]
  }

  ghost predicate AllDone(s: State, first: nat) {
    forall i: nat | first <= i < |s.children| :: s.children[i].done
  }

  /** A taskwait ends when all children are done, a group when those created in it are. A
      counter that overflows its field aborts the program, or wraps in the group id. */
  ghost predicate Enabled(s: State, a: Action) {
    match a
    case ParentAccess => true
    case Create => s.seg < |s.store| && s.store[s.seg].taskcreate + 1 < MAX_TASKCREATE
    case ChildAccess(i) => i < |s.children| && !s.children[i].done
    case Complete(i) => i < |s.children| && !s.children[i].done
    case TaskWaitEnd => AllDone(s, 0) && s.seg < |s.store| && s.store[s.seg].taskwait + 1 < MAX_TASKWAIT
    case GroupBegin => s.seg < |s.store| && s.store[s.seg].groupId + 1 < FIELD16
    case GroupEnd =>
      && s.open != [] && AllDone(s, GroupStart(s))
      && s.seg < |s.store| && s.store[s.seg].groupId + 1 < FIELD16
  }

  ghost function DoParentAccess(s: State): State
    requires Sane(s)
  {
    var e := |s.graph|;
    s.(graph := s.graph + [{s.last}], last := e, accesses := s.accesses[e := Access(Parent, s.seg, 0, Now(s))])
  }

  /** The child's label is the parent's with a new explicit segment; then the parent's last
      segment is replaced by a clone with one more task created. */
  ghost function DoCreate(s: State): State
    requires Sane(s)
  {
    var e, n, own := |s.graph|, |s.store|, s.store[s.seg];
    s.(graph := s.graph + [{s.last}], last := e,
       store := s.store + [NewSegment(Explicit, 0, 1), own.(taskcreate := own.taskcreate + 1)],
       seg := n + 1,
       children := s.children + [Child(s.seg, n, Now(s), e, e, false)],
       pending := s.pending + {|s.children|})
  }

  ghost function DoChildAccess(s: State, i: nat): State
    requires Sane(s) && Enabled(s, ChildAccess(i))
  {
    var e, c := |s.graph|, s.children[i];
    s.(graph := s.graph + [{c.last}], children := s.children[i := c.(last := e)],
       accesses := s.accesses[e := Access(Task(i), c.seg, c.exp, c.at)])
  }

  ghost function DoComplete(s: State, i: nat): State
    requires Enabled(s, Complete(i))
  {
    s.(children := s.children[i := s.children[i].(done := true)])
  }

  /** A child's label after the shared prefix: a completed task's has lost its own segment. */
  function ChildRefs(c: Child): (r: seq<Ref>)
    ensures r != []
  {
    if c.done then [c.seg] else [c.seg, c.exp]
  }

  function LastRef(c: Child): Ref {
    var r := ChildRefs(c);
    r[|r| - 1]
  }

  /** The end of a taskwait marks the last segment of every listed child's label. */
  ghost predicate WaitMarks(s: State, r: Ref) {
    exists i | i in s.pending && i < |s.children| :: LastRef(s.children[i]) == r
  }

  ghost function MarkWaited(s: State): seq<Segment>
    requires Sane(s)
  {
    var phase := s.store[s.seg].phase;
    seq(|s.store|, r requires 0 <= r < |s.store| =>
      if WaitMarks(s, r) then SetTaskwaitPhase(SetTaskwaited(s.store[r]), phase) else s.store[r])
  }

  function LastEvents(s: State, first: nat): set<nat> {
    set i: nat | first <= i < |s.children| :: s.children[i].last
  }

  /** The parent's new segment is cloned before the marks are made. */
  ghost function DoTaskWait(s: State): State
    requires Sane(s)
  {
    var e, own := |s.graph|, s.store[s.seg];
    s.(graph := s.graph + [{s.last} + LastEvents(s, 0)], last := e,
       store := MarkWaited(s) + [own.(taskwait := own.taskwait + 1)],
       seg := |s.store|, pending := {}, waits := s.waits + 1)
  }

  ghost function DoGroupBegin(s: State): State
    requires Sane(s)
  {
    s.(store := s.store + [Labels.GroupBegin(s.store[s.seg])], seg := |s.store|,
       ops := s.ops + [Begin], open := s.open + [|s.children|])
  }

  /** The end of a group marks, and takes off the list, the children whose label is no longer
      than the parent's and ends in a segment with the group's id. */
  predicate GroupMatches(s: State, c: Child) {
    && |ChildRefs(c)| <= 1 && LastRef(c) < |s.store| && s.seg < |s.store|
    && s.store[LastRef(c)].groupId == s.store[s.seg].groupId
  }

  ghost predicate GroupMarks(s: State, r: Ref) {
    exists i | i in s.pending && i < |s.children| :: GroupMatches(s, s.children[i]) && LastRef(s.children[i]) == r
  }

  ghost function MarkGroup(s: State): seq<Segment> {
    seq(|s.store|, r requires 0 <= r < |s.store| =>
      if GroupMarks(s, r) then SetTaskGroupSync(s.store[r]) else s.store[r])
  }

  ghost function DoGroupEnd(s: State): State
    requires Sane(s) && Enabled(s, GroupEnd)
  {
    var e, own := |s.graph|, s.store[s.seg];
    s.(graph := s.graph + [{s.last} + LastEvents(s, GroupStart(s))], last := e,
       store := MarkGroup(s) + [Labels.GroupEnd(own)], seg := |s.store|,
       pending := (set i | i in s.pending && (i < |s.children| ==> !GroupMatches(s, s.children[i]))),
       ops := s.ops + [End], open := s.open[..|s.open| - 1])
  }

  ghost function Apply(s: State, a: Action): State
    requires Sane(s) && Enabled(s, a)
  {
    match a
    case ParentAccess => DoParentAccess(s)
    case Create => DoCreate(s)
    case ChildAccess(i) => DoChildAccess(s, i)
    case Complete(i) => DoComplete(s, i)
    case TaskWaitEnd => DoTaskWait(s)
    case GroupBegin => DoGroupBegin(s)
    case GroupEnd => DoGroupEnd(s)
  }

  ghost predicate Run(above: Label, own: Segment, acts: seq<Action>, s: State) {
    if acts == [] then s == Init(above, own)
    else
      var n := |acts| - 1;
      exists s0 | Run(above, own, acts[..n], s0) :: Sane(s0) && Enabled(s0, acts[n]) && s == Apply(s0, acts[n])
  }

  // What is reachable.

  /** Between the creation of a child at `p` and the point `q` of the parent, a taskwait or a
      group that holds the child has ended. */
  ghost predicate Synced(ops: seq<GroupOp>, p: Point, q: Point) {
    p.waits < q.waits || GroupEnded(ops, p.ops, q.ops)
  }

  ghost function BySync(ops: seq<GroupOp>, p: Point, q: Point): Verdict {
    if Synced(ops, p, q) then Ordered else Concurrent
  }

  /** How an access is related to a later one made like `c`. */
  ghost function Expected(s: State, h: nat, c: Access): Verdict {
    if h !in s.accesses then Fatal
    else match (s.accesses[h].actor, c.actor)
      case (Parent, Parent) => Ordered
      case (Parent, Task(j)) => if j < |s.children| && s.children[j].created <= h then Concurrent else Ordered
      case (Task(_), Parent) => BySync(s.ops, s.accesses[h].at, c.at)
      case (Task(i), Task(j)) => if i == j then Ordered else BySync(s.ops, s.accesses[h].at, c.at)
  }

  function NextParent(s: State): Access {
    Access(Parent, s.seg, 0, Now(s))
  }

  function NextChild(s: State, j: nat): Access {
    if j < |s.children| then Access(Task(j), s.children[j].seg, s.children[j].exp, s.children[j].at)
    else NextParent(s)
  }

  ghost predicate JudgedParent(s: State, h: nat) {
    h in s.accesses ==> Truth(s.graph, h, s.last) == Expected(s, h, NextParent(s))
  }

  ghost predicate JudgedChild(s: State, h: nat, j: nat) {
    h in s.accesses && j < |s.children| ==> Truth(s.graph, h, s.children[j].last) == Expected(s, h, NextChild(s, j))
  }

  /** A past pair is ordered as expected, and the later one was made no earlier in the
      parent's course than the child of the first was created. */
  ghost predicate PairRight(s: State, h: nat, c: nat) {
    h in s.accesses && c in s.accesses && h < c ==>
      && Truth(s.graph, h, c) == Expected(s, h, s.accesses[c])
      && (s.accesses[h].actor.Task? ==> s.accesses[h].at.waits <= s.accesses[c].at.waits)
      && (s.accesses[h].actor.Task? && s.accesses[c].actor.Parent? ==> s.accesses[h].actor.i < s.accesses[c].at.made)
  }

  /** The open groups are those the operations have left open. */
  ghost predicate GroupsRight(s: State) {
    && Nested(s.ops) && |s.open| == Depth(s.ops, |s.ops|)
    && forall l | 0 <= l < |s.open| :: s.open[l] <= |s.children|
  }

  /** The open groups that hold a child are the ones among the outermost that were open when
      it was created, as long as its innermost has not ended. */
  ghost predicate Held(s: State, i: nat) {
    i < |s.children| ==>
      var k := s.children[i].at.ops;
      && (forall l: nat | l < |s.open| && s.open[l] <= i :: l < Depth(s.ops, k))
      && (!GroupEnded(s.ops, k, |s.ops|) ==>
           Depth(s.ops, k) <= |s.open| && forall l: nat | l < |s.open| && l < Depth(s.ops, k) :: s.open[l] <= i)
  }

  predicate Before(s: State, p: Point) {
    p.waits <= s.waits && p.ops <= |s.ops| && p.made <= |s.children|
  }

  /** A task that is not done has been neither waited for nor held by a group that ended. */
  ghost predicate ChildRight(s: State, i: nat) {
    i < |s.children| ==>
      var c := s.children[i];
      && Before(s, c.at) && c.at.made == i
      && (c.done || !Synced(s.ops, c.at, Now(s)))
  }

  predicate AccessRight(s: State, a: Access) {
    match a.actor
    case Parent => Before(s, a.at) && a.exp == 0
    case Task(i) => i < |s.children| && a == NextChild(s, i)
  }

  ghost predicate Inv(s: State) {
    && Sane(s) && GroupsRight(s)
    && (forall i: nat :: ChildRight(s, i))
    && (forall i: nat :: Held(s, i))
    && (forall h | h in s.accesses :: AccessRight(s, s.accesses[h]))
    && (forall h: nat :: JudgedParent(s, h))
    && (forall h: nat, j: nat :: JudgedChild(s, h, j))
    && (forall h: nat, c: nat :: PairRight(s, h, c))
  }

  lemma InitInv(above: Label, own: Segment)
    ensures Inv(Init(above, own))
  {
  }

  /** The facts of a state about an access, in the form the steps use. */
  lemma AccessFacts(s: State, h: nat)
    requires Inv(s) && h in s.accesses
    ensures h < |s.graph| && Before(s, s.accesses[h].at)
    ensures s.accesses[h].actor.Task? ==>
      s.accesses[h].actor.i < |s.children| && s.accesses[h].at == s.children[s.accesses[h].actor.i].at
    ensures JudgedParent(s, h)
  {
    assert AccessRight(s, s.accesses[h]);
    if s.accesses[h].actor.Task? { assert ChildRight(s, s.accesses[h].actor.i); }
  }

  // Steps that neither wait nor touch a group.

  /** Everything about children and groups is as it was. */
  ghost predicate SameCourse(s: State, s': State) {
    && s'.waits == s.waits && s'.ops == s.ops && s'.open == s.open && |s.children| <= |s'.children|
    && forall i: nat | i < |s.children| ::
      && s'.children[i].at == s.children[i].at && s'.children[i].created == s.children[i].created
      && s'.children[i].seg == s.children[i].seg && s'.children[i].exp == s.children[i].exp
  }

  lemma CourseFrame(s: State, s': State)
    requires Inv(s) && SameCourse(s, s')
    ensures GroupsRight(s')
    ensures forall i: nat | i < |s.children| :: Held(s', i)
    ensures forall i: nat | i < |s.children| && (s'.children[i].done || !s.children[i].done) :: ChildRight(s', i)
    ensures forall h | h in s.accesses :: AccessRight(s', s.accesses[h])
  {
    forall i: nat | i < |s.children| ensures Held(s', i) && (s'.children[i].done || !s.children[i].done ==> ChildRight(s', i)) {
      assert Held(s, i) && ChildRight(s, i);
    }
    forall h | h in s.accesses ensures AccessRight(s', s.accesses[h]) { assert AccessRight(s, s.accesses[h]); }
  }

  /** An access of the implicit task. */
  lemma ParentAccessJudged(s: State, s': State, h: nat, j: nat)
    requires Inv(s) && s' == DoParentAccess(s)
    ensures JudgedParent(s', h) && JudgedChild(s', h, j)
  {
    Grow(s.graph, {s.last});
    assert JudgedParent(s, h) && JudgedChild(s, h, j);
    assert j < |s.children| ==> SaneChild(s, s.children[j]);
  }

  lemma ParentAccessPairs(s: State, s': State, h: nat, c: nat)
    requires Inv(s) && s' == DoParentAccess(s)
    ensures PairRight(s', h, c)
  {
    Grow(s.graph, {s.last});
    assert PairRight(s, h, c);
    if h in s.accesses { AccessFacts(s, h); }
  }

  lemma ParentAccessInv(s: State)
    requires Inv(s)
    ensures Inv(DoParentAccess(s))
  {
    var s' := DoParentAccess(s);
    assert Sane(s') by { Grow(s.graph, {s.last}); }
    CourseFrame(s, s');
    forall h: nat ensures JudgedParent(s', h) { ParentAccessJudged(s, s', h, 0); }
    forall h: nat, j: nat ensures JudgedChild(s', h, j) { ParentAccessJudged(s, s', h, j); }
    forall h: nat, c: nat ensures PairRight(s', h, c) { ParentAccessPairs(s, s', h, c); }
  }

  /** A running child is synchronised with nothing later. */
  lemma RunningUnsynced(s: State, i: nat, j: nat)
    requires Inv(s) && i < |s.children| && !s.children[i].done
    ensures !Synced(s.ops, s.children[i].at, Now(s))
    ensures j < |s.children| ==> !Synced(s.ops, s.children[i].at, s.children[j].at)
  {
    assert ChildRight(s, i) && ChildRight(s, j);
    var p := s.children[i].at;
    if j < |s.children| && GroupEnded(s.ops, p.ops, s.children[j].at.ops) {
      EndedLater(s.ops, p.ops, s.children[j].at.ops, |s.ops|);
    }
  }

  lemma ChildAccessJudged(s: State, i: nat, s': State, h: nat, j: nat)
    requires Inv(s) && Enabled(s, ChildAccess(i)) && s' == DoChildAccess(s, i)
    ensures JudgedParent(s', h) && JudgedChild(s', h, j)
  {
    Grow(s.graph, {s.children[i].last});
    assert JudgedParent(s, h) && JudgedChild(s, h, j) && JudgedChild(s, h, i);
    RunningUnsynced(s, i, j);
    assert j < |s.children| ==> SaneChild(s, s.children[j]);
  }

  lemma ChildAccessPairs(s: State, i: nat, s': State, h: nat, c: nat)
    requires Inv(s) && Enabled(s, ChildAccess(i)) && s' == DoChildAccess(s, i)
    ensures PairRight(s', h, c)
  {
    Grow(s.graph, {s.children[i].last});
    assert PairRight(s, h, c) && JudgedChild(s, h, i) && ChildRight(s, i);
    if h in s.accesses { AccessFacts(s, h); }
  }

  lemma ChildAccessInv(s: State, i: nat)
    requires Inv(s) && Enabled(s, ChildAccess(i))
    ensures Inv(DoChildAccess(s, i))
  {
    var s' := DoChildAccess(s, i);
    assert Sane(s') by {
      Grow(s.graph, {s.children[i].last});
      assert forall j | 0 <= j < |s.children| :: SaneChild(s, s.children[j]);
    }
    CourseFrame(s, s');
    forall h: nat ensures JudgedParent(s', h) { ChildAccessJudged(s, i, s', h, 0); }
    forall h: nat, j: nat ensures JudgedChild(s', h, j) { ChildAccessJudged(s, i, s', h, j); }
    forall h: nat, c: nat ensures PairRight(s', h, c) { ChildAccessPairs(s, i, s', h, c); }
  }

  lemma CompleteInv(s: State, i: nat)
    requires Inv(s) && Enabled(s, Complete(i))
    ensures Inv(DoComplete(s, i))
  {
    var s' := DoComplete(s, i);
    assert Sane(s') by { assert forall j | 0 <= j < |s.children| :: SaneChild(s, s.children[j]); }
    CourseFrame(s, s');
    forall h: nat ensures JudgedParent(s', h) { assert JudgedParent(s, h); }
    forall h: nat, j: nat ensures JudgedChild(s', h, j) { assert JudgedChild(s, h, j); }
    forall h: nat, c: nat ensures PairRight(s', h, c) { assert PairRight(s, h, c); }
  }

  /** The creation of a child. */
  lemma CreateJudged(s: State, s': State, h: nat, j: nat)
    requires Inv(s) && s' == DoCreate(s)
    ensures JudgedParent(s', h) && JudgedChild(s', h, j)
  {
    Grow(s.graph, {s.last});
    assert JudgedParent(s, h) && JudgedChild(s, h, j);
    assert j < |s.children| ==> SaneChild(s, s.children[j]);
    if h in s.accesses { AccessFacts(s, h); }
  }

  lemma CreatePairs(s: State, s': State, h: nat, c: nat)
    requires Inv(s) && s' == DoCreate(s)
    ensures PairRight(s', h, c)
  {
    Grow(s.graph, {s.last});
    assert PairRight(s, h, c);
    if c in s.accesses { AccessFacts(s, c); }
  }

  lemma CreateSane(s: State, s': State)
    requires Sane(s) && s' == DoCreate(s)
    ensures Sane(s')
  {
    Grow(s.graph, {s.last});
    forall j | 0 <= j < |s'.children| ensures SaneChild(s', s'.children[j]) {
      if j < |s.children| { assert SaneChild(s, s.children[j]); }
    }
  }

  /** A new child is in every open group. */
  lemma NewChildHeld(s: State, s': State)
    requires Inv(s) && s' == DoCreate(s)
    ensures Held(s', |s.children|) && ChildRight(s', |s.children|)
  {
  }

  lemma CreateInv(s: State)
    requires Inv(s)
    ensures Inv(DoCreate(s))
  {
    var s' := DoCreate(s);
    CreateSane(s, s');
    CourseFrame(s, s');
    NewChildHeld(s, s');
    forall h: nat ensures JudgedParent(s', h) { CreateJudged(s, s', h, 0); }
    forall h: nat, j: nat ensures JudgedChild(s', h, j) { CreateJudged(s, s', h, j); }
    forall h: nat, c: nat ensures PairRight(s', h, c) { CreatePairs(s, s', h, c); }
  }

  // The end of a taskwait.

  lemma PredsInGraph(s: State, first: nat)
    requires Sane(s)
    ensures forall p | p in {s.last} + LastEvents(s, first) :: p < |s.graph|
  {
    forall i: nat | i < |s.children| ensures s.children[i].last < |s.graph| { assert SaneChild(s, s.children[i]); }
  }

  lemma TaskWaitSane(s: State, s': State)
    requires Sane(s) && s' == DoTaskWait(s)
    ensures Sane(s')
  {
    PredsInGraph(s, 0);
    Grow(s.graph, {s.last} + LastEvents(s, 0));
    assert |s'.store| == |s.store| + 1;
    forall j | 0 <= j < |s'.children| ensures SaneChild(s', s'.children[j]) { assert SaneChild(s, s.children[j]); }
  }

  /** The end of a taskwait is after every access made so far. */
  lemma TaskWaitAfterAll(s: State, h: nat)
    requires Inv(s) && h in s.accesses
    ensures exists p | p in {s.last} + LastEvents(s, 0) :: Truth(s.graph, h, p) == Ordered
  {
    AccessFacts(s, h);
    var a := s.accesses[h];
    if a.actor.Task? {
      assert JudgedChild(s, h, a.actor.i);
      assert s.children[a.actor.i].last in LastEvents(s, 0);
    } else {
      assert s.last in {s.last} + LastEvents(s, 0);
    }
  }

  lemma TaskWaitJudged(s: State, s': State, h: nat, j: nat)
    requires Inv(s) && s' == DoTaskWait(s)
    ensures JudgedParent(s', h) && JudgedChild(s', h, j)
  {
    PredsInGraph(s, 0);
    Grow(s.graph, {s.last} + LastEvents(s, 0));
    assert JudgedChild(s, h, j);
    assert j < |s.children| ==> SaneChild(s, s.children[j]);
    if h in s.accesses {
      AccessFacts(s, h);
      TaskWaitAfterAll(s, h);
    }
  }

  lemma TaskWaitPairs(s: State, s': State, h: nat, c: nat)
    requires Inv(s) && s' == DoTaskWait(s)
    ensures PairRight(s', h, c)
  {
    PredsInGraph(s, 0);
    Grow(s.graph, {s.last} + LastEvents(s, 0));
    assert PairRight(s, h, c);
    if c in s.accesses { AccessFacts(s, c); }
  }

  lemma TaskWaitInv(s: State)
    requires Inv(s) && Enabled(s, TaskWaitEnd)
    ensures Inv(DoTaskWait(s))
  {
    var s' := DoTaskWait(s);
    TaskWaitSane(s, s');
    forall i: nat ensures ChildRight(s', i) && Held(s', i) { assert ChildRight(s, i) && Held(s, i); }
    forall h | h in s.accesses ensures AccessRight(s', s.accesses[h]) { assert AccessRight(s, s.accesses[h]); }
    forall h: nat ensures JudgedParent(s', h) { TaskWaitJudged(s, s', h, 0); }
    forall h: nat, j: nat ensures JudgedChild(s', h, j) { TaskWaitJudged(s, s', h, j); }
    forall h: nat, c: nat ensures PairRight(s', h, c) { TaskWaitPairs(s, s', h, c); }
  }

  // Groups.

  /** A begin or an end changes no past relation. */
  lemma ExpectedGrows(s: State, s': State, x: GroupOp, h: nat, c: Access)
    requires h in s.accesses && s'.accesses == s.accesses && s'.children == s.children && s'.ops == s.ops + [x]
    requires c.at.ops <= |s.ops|
    ensures Expected(s', h, c) == Expected(s, h, c)
  {
    EndedGrows(s.ops, x, s.accesses[h].at.ops, c.at.ops);
  }

  /** `s'` is `s` after a group's begin or end, as far as the parent's course goes. */
  predicate OneOp(s: State, s': State, x: GroupOp) {
    && s'.accesses == s.accesses && s'.children == s.children && s'.waits == s.waits && s'.ops == s.ops + [x]
    && s'.open == (if x.Begin? then s.open + [|s.children|] else if s.open == [] then [] else s.open[..|s.open| - 1])
    && (x.End? ==> s.open != [])
  }

  lemma OneOpGroups(s: State, s': State, x: GroupOp)
    requires GroupsRight(s) && OneOp(s, s', x)
    ensures GroupsRight(s')
  {
    NestedGrows(s.ops, x);
    EndedNow(s.ops, x, 0);
  }

  /** The end of the innermost group ends the group of exactly those created in it. */
  lemma EndsForHeld(s: State, s': State, x: GroupOp, i: nat)
    requires GroupsRight(s) && ChildRight(s, i) && Held(s, i) && OneOp(s, s', x) && i < |s.children|
    ensures var k := s.children[i].at.ops;
      GroupEnded(s'.ops, k, |s'.ops|) <==> GroupEnded(s.ops, k, |s.ops|) || (x.End? && GroupStart(s) <= i)
  {
    EndedNow(s.ops, x, s.children[i].at.ops);
  }

  lemma OneOpHeld(s: State, s': State, x: GroupOp, i: nat)
    requires GroupsRight(s) && ChildRight(s, i) && Held(s, i) && OneOp(s, s', x)
    ensures Held(s', i)
  {
    if i < |s.children| {
      EndsForHeld(s, s', x, i);
      DepthGrows(s.ops, x, s.children[i].at.ops);
      assert forall l: nat | l < |s.open| && l < |s'.open| :: s'.open[l] == s.open[l];
    }
  }

  lemma OneOpChild(s: State, s': State, x: GroupOp, i: nat)
    requires GroupsRight(s) && ChildRight(s, i) && Held(s, i) && OneOp(s, s', x)
    requires x.End? ==> AllDone(s, GroupStart(s))
    ensures ChildRight(s', i)
  {
    if i < |s.children| { EndsForHeld(s, s', x, i); }
  }

  lemma OneOpPairs(s: State, s': State, x: GroupOp, h: nat, c: nat)
    requires Inv(s) && OneOp(s, s', x)
    requires forall h: nat, c: nat | h < |s.graph| && c < |s.graph| :: Truth(s'.graph, h, c) == Truth(s.graph, h, c)
    ensures PairRight(s', h, c)
  {
    assert PairRight(s, h, c);
    if h in s.accesses && c in s.accesses {
      AccessFacts(s, h);
      AccessFacts(s, c);
      ExpectedGrows(s, s', x, h, s.accesses[c]);
    }
  }

  lemma OneOpJudgedChild(s: State, s': State, x: GroupOp, h: nat, j: nat)
    requires Inv(s) && OneOp(s, s', x)
    requires forall h: nat, c: nat | h < |s.graph| && c < |s.graph| :: Truth(s'.graph, h, c) == Truth(s.graph, h, c)
    ensures JudgedChild(s', h, j)
  {
    assert JudgedChild(s, h, j) && ChildRight(s, j);
    if h in s.accesses && j < |s.children| {
      assert SaneChild(s, s.children[j]);
      ExpectedGrows(s, s', x, h, NextChild(s, j));
    }
  }

  lemma OneOpInv(s: State, s': State, x: GroupOp)
    requires Inv(s) && OneOp(s, s', x) && Sane(s') && (x.End? ==> AllDone(s, GroupStart(s)))
    requires forall h: nat, c: nat | h < |s.graph| && c < |s.graph| :: Truth(s'.graph, h, c) == Truth(s.graph, h, c)
    requires forall h: nat :: JudgedParent(s', h)
    ensures Inv(s')
  {
    OneOpGroups(s, s', x);
    forall i: nat ensures ChildRight(s', i) && Held(s', i) {
      assert ChildRight(s, i) && Held(s, i);
      OneOpHeld(s, s', x, i);
      OneOpChild(s, s', x, i);
    }
    forall h | h in s.accesses ensures AccessRight(s', s.accesses[h]) { assert AccessRight(s, s.accesses[h]); }
    forall h: nat, j: nat ensures JudgedChild(s', h, j) { OneOpJudgedChild(s, s', x, h, j); }
    forall h: nat, c: nat ensures PairRight(s', h, c) { OneOpPairs(s, s', x, h, c); }
  }

  /** What the parent does next is synchronised with one more child for each the group held. */
  lemma OneOpExpected(s: State, s': State, x: GroupOp, h: nat)
    requires Inv(s) && OneOp(s, s', x) && h in s.accesses
    ensures Expected(s', h, NextParent(s')) ==
      if s.accesses[h].actor.Task? && x.End? && GroupStart(s) <= s.accesses[h].actor.i then Ordered
      else Expected(s, h, NextParent(s))
  {
    AccessFacts(s, h);
    if s.accesses[h].actor.Task? {
      var i := s.accesses[h].actor.i;
      assert ChildRight(s, i) && Held(s, i);
      EndsForHeld(s, s', x, i);
    }
  }

  lemma GroupBeginInv(s: State)
    requires Inv(s)
    ensures Inv(DoGroupBegin(s))
  {
    var s' := DoGroupBegin(s);
    assert Sane(s') by { assert forall j | 0 <= j < |s.children| :: SaneChild(s, s.children[j]); }
    forall h: nat ensures JudgedParent(s', h) {
      assert JudgedParent(s, h);
      if h in s.accesses { OneOpExpected(s, s', Begin, h); }
    }
    OneOpInv(s, s', Begin);
  }

  /** An access reaches the end of a group if it reached the parent or was made by a child in the group. */
  lemma GroupEndAfter(s: State, h: nat)
    requires Inv(s) && h in s.accesses
    ensures (exists p | p in {s.last} + LastEvents(s, GroupStart(s)) :: Truth(s.graph, h, p) == Ordered) <==>
      Expected(s, h, NextParent(s)) == Ordered || (s.accesses[h].actor.Task? && GroupStart(s) <= s.accesses[h].actor.i)
  {
    AccessFacts(s, h);
    var a, first := s.accesses[h], GroupStart(s);
    assert s.last in {s.last} + LastEvents(s, first);
    if a.actor.Task? && first <= a.actor.i {
      assert JudgedChild(s, h, a.actor.i);
      assert s.children[a.actor.i].last in LastEvents(s, first);
    } else {
      forall j: nat | first <= j < |s.children| && Truth(s.graph, h, s.children[j].last) == Ordered
        ensures Expected(s, h, NextParent(s)) == Ordered
      {
        assert JudgedChild(s, h, j) && ChildRight(s, j);
        if a.actor.Task? { SyncedLater(s, a.at, s.children[j].at); }
      }
    }
  }

  lemma SyncedLater(s: State, p: Point, q: Point)
    requires Before(s, q) && Synced(s.ops, p, q)
    ensures Synced(s.ops, p, Now(s))
  {
    if GroupEnded(s.ops, p.ops, q.ops) { EndedLater(s.ops, p.ops, q.ops, |s.ops|); }
  }

  lemma GroupEndJudged(s: State, s': State, h: nat)
    requires Inv(s) && Enabled(s, GroupEnd) && s' == DoGroupEnd(s)
    ensures JudgedParent(s', h)
  {
    var preds := {s.last} + LastEvents(s, GroupStart(s));
    PredsInGraph(s, GroupStart(s));
    Grow(s.graph, preds);
    if h in s.accesses {
      AccessFacts(s, h);
      OneOpExpected(s, s', End, h);
      GroupEndAfter(s, h);
      NeverFatal(s, h, NextParent(s));
    }
  }

  lemma NeverFatal(s: State, h: nat, c: Access)
    requires h in s.accesses
    ensures Expected(s, h, c) != Fatal
  {
  }

  lemma GroupEndInv(s: State)
    requires Inv(s) && Enabled(s, GroupEnd)
    ensures Inv(DoGroupEnd(s))
  {
    var s' := DoGroupEnd(s);
    PredsInGraph(s, GroupStart(s));
    Grow(s.graph, {s.last} + LastEvents(s, GroupStart(s)));
    assert Sane(s') by {
      assert |s'.store| == |s.store| + 1;
      forall j | 0 <= j < |s'.children| ensures SaneChild(s', s'.children[j]) { assert SaneChild(s, s.children[j]); }
    }
    forall h: nat ensures JudgedParent(s', h) { GroupEndJudged(s, s', h); }
    OneOpInv(s, s', End);
  }

  lemma StepInv(s: State, a: Action)
    requires Inv(s) && Enabled(s, a)
    ensures Inv(Apply(s, a))
  {
    match a
    case ParentAccess => ParentAccessInv(s);
    case Create => CreateInv(s);
    case ChildAccess(i) => ChildAccessInv(s, i);
    case Complete(i) => CompleteInv(s, i);
    case TaskWaitEnd => TaskWaitInv(s);
    case GroupBegin => GroupBeginInv(s);
    case GroupEnd => GroupEndInv(s);
  }

  lemma {:induction false} RunInv(above: Label, own: Segment, acts: seq<Action>, s: State)
    requires Run(above, own, acts, s)
    ensures Inv(s) && s.above == above
  {
    if acts == [] {
      InitInv(above, own);
    } else {
      var n := |acts| - 1;
      var s0 :| Run(above, own, acts[..n], s0) && Sane(s0) && Enabled(s0, acts[n]) && s == Apply(s0, acts[n]);
      RunInv(above, own, acts[..n], s0);
      StepInv(s0, acts[n]);
    }
  }

  /** Every enabled step continues a run. */
  lemma EnabledStepsRun(above: Label, own: Segment, acts: seq<Action>, s: State, a: Action)
    requires Run(above, own, acts, s) && Enabled(s, a)
    ensures Sane(s) && Run(above, own, acts + [a], Apply(s, a))
  {
    RunInv(above, own, acts, s);
    assert (acts + [a])[..|acts|] == acts;
  }

  /** In every run, a child's access reaches a later access of its parent or a sibling exactly
      when a taskwait or a group that holds the child has ended before that access or before
      the sibling was created; a parent's access reaches every later one but those of children
      it had created before. */
  lemma SyncIsReachability(above: Label, own: Segment, acts: seq<Action>, s: State, h: nat, c: nat)
    requires Run(above, own, acts, s) && h in s.accesses && c in s.accesses && h < c
    ensures WellFormed(s.graph) && c < |s.graph|
    ensures var ah, ac := s.accesses[h], s.accesses[c];
      Reaches(s.graph, h, c) <==>
        ah.actor == ac.actor ||
        (if ah.actor.Task? then Synced(s.ops, ah.at, ac.at)
         else ac.actor.i < |s.children| && h < s.children[ac.actor.i].created)
  {
    RunInv(above, own, acts, s);
    assert PairRight(s, h, c) && AccessRight(s, s.accesses[c]);
  }
}
