/** Runs of nested parallel regions with barriers: the label-changing callbacks of
    Callbacks.cpp as atomic steps beside the event graph of the run, and the
    theorem that the label verdict is reachability in that graph. */
module ForkJoin {
  import opened Segments
  import opened Core
  import opened Labels
  import opened EventGraph
  import opened EventVerdict
  import opened OffsetSpan

  type TaskId = nat
  type TeamId = nat

  /** A task at a barrier has `Arrived`; it is `Released` once the whole team has
      arrived and `Running` again after its own barrier-end callback. A task is
      `Suspended` while the region it forked is running. */
  datatype Status = Running | Arrived | Released | Suspended

  datatype Task = Task(tag: Label, last: nat, status: Status)

  /** The members of a team are the tasks `first`, ..., `first + size - 1`, in
      index order. A team is `closed` by its final barrier. */
  datatype Team = Team(parent: TaskId, first: TaskId, size: nat, closed: bool) {
    predicate Has(t: TaskId) {
      first <= t < first + size
    }
  }

  /** `accesses` records, for each access event, the label its task had. Those of the initial
      task are events too, although the program compares only accesses of the other tasks. */
  datatype State = State(
    graph: Graph,
    tasks: map<TaskId, Task>,
    teams: map<TeamId, Team>,
    accesses: map<nat, Label>)

  datatype Action =
    | Access(t: TaskId)
    | Fork(t: TaskId, tm: TeamId, first: TaskId, size: nat)
    | Arrive(t: TaskId, tm: TeamId)
    | Release(tm: TeamId, final: bool)
    | Leave(t: TaskId)
    | Join(tm: TeamId)

  function Init(): State {
    State([{}], map[0 := Task(InitTask(), 0, Running)], map[], map[])
  }

  /** Names are in range and labels long enough for no callback to abort. */
  ghost predicate Sane(s: State) {
    && WellFormed(s.graph)
    && (forall t | t in s.tasks :: SaneTask(s, s.tasks[t]))
    && (forall tm | tm in s.teams :: SaneTeam(s, s.teams[tm]))
    && (forall e | e in s.accesses :: e < |s.graph|)
  }

  predicate SaneTask(s: State, k: Task) {
    k.last < |s.graph| && k.tag != [] && (k.status.Released? ==> |k.tag| >= 2)
  }

  ghost predicate SaneTeam(s: State, m: Team) {
    && m.parent in s.tasks && m.size >= 1
    && forall t | m.Has(t) :: t in s.tasks && |s.tasks[t].tag| >= 2
  }

  /** Members of a closed team do nothing but leave their last barrier. */
  ghost predicate Active(s: State, t: TaskId) {
    && t in s.tasks && s.tasks[t].status.Running?
    && forall tm | tm in s.teams && s.teams[tm].Has(t) :: !s.teams[tm].closed
  }

  /** `Release` also asks that the advanced offset still fits its 16-bit field. */
  ghost predicate Enabled(s: State, a: Action) {
    match a
    case Access(t) => Active(s, t)
    case Fork(t, tm, first, size) =>
      && Active(s, t) && tm !in s.teams && 1 <= size < FIELD16
      && forall k | k in s.tasks :: !Team(t, first, size, false).Has(k)
    case Arrive(t, tm) => Active(s, t) && tm in s.teams && s.teams[tm].Has(t)
    case Release(tm, _) =>
      && tm in s.teams && !s.teams[tm].closed
      && forall t | s.teams[tm].Has(t) ::
        t in s.tasks && s.tasks[t].status.Arrived? && BumpFits(s.tasks[t].tag)
    case Leave(t) => t in s.tasks && s.tasks[t].status.Released?
    case Join(tm) =>
      && tm in s.teams && s.teams[tm].closed
      && s.teams[tm].first in s.tasks && s.tasks[s.teams[tm].first].status.Running?
  }

  function LastEvents(s: State, m: Team): set<nat> {
    set t | t in s.tasks && m.Has(t) :: s.tasks[t].last
  }

  ghost function DoAccess(s: State, t: TaskId): State
    requires Sane(s) && Enabled(s, Access(t))
  {
    var k := s.tasks[t];
    State(s.graph + [{k.last}], s.tasks[t := k.(last := |s.graph|)], s.teams, s.accesses[|s.graph| := k.tag])
  }

  ghost function DoFork(s: State, t: TaskId, tm: TeamId, first: TaskId, size: nat): State
    requires Sane(s) && Enabled(s, Fork(t, tm, first, size))
  {
    var k, m := s.tasks[t], Team(t, first, size, false);
    var kids := map c | first <= c < first + size && m.Has(c) ::
                  Task(ImpTask(k.tag, c - first, size), |s.graph|, Running);
    State(s.graph + [{k.last}], s.tasks[t := k.(status := Suspended)] + kids, s.teams[tm := m], s.accesses)
  }

  ghost function DoArrive(s: State, t: TaskId): State
    requires t in s.tasks
  {
    s.(tasks := s.tasks[t := s.tasks[t].(status := Arrived)])
  }

  ghost function DoRelease(s: State, tm: TeamId, final: bool): State
    requires Sane(s) && Enabled(s, Release(tm, final))
  {
    var m := s.teams[tm];
    var released := map t | t in s.tasks && m.Has(t) :: s.tasks[t].(last := |s.graph|, status := Released);
    State(s.graph + [LastEvents(s, m)], s.tasks + released, s.teams[tm := m.(closed := final)], s.accesses)
  }

  ghost function DoLeave(s: State, t: TaskId): State
    requires Sane(s) && Enabled(s, Leave(t))
  {
    s.(tasks := s.tasks[t := s.tasks[t].(tag := BarrierEnd(s.tasks[t].tag), status := Running)])
  }

  ghost function DoJoin(s: State, tm: TeamId): State
    requires Sane(s) && Enabled(s, Join(tm))
  {
    var m := s.teams[tm];
    var gone := set t | t in s.tasks && m.Has(t);
    State(s.graph + [LastEvents(s, m)],
      (s.tasks - gone)[m.parent := Task(ParentImpEnd(s.tasks[m.first].tag), |s.graph|, Running)],
      s.teams - {tm}, s.accesses)
  }

  /** One callback, or the completion of a barrier. */
  ghost function Apply(s: State, a: Action): State
    requires Sane(s) && Enabled(s, a)
  {
    match a
    case Access(t) => DoAccess(s, t)
    case Fork(t, tm, first, size) => DoFork(s, t, tm, first, size)
    case Arrive(t, _) => DoArrive(s, t)
    case Release(tm, final) => DoRelease(s, tm, final)
    case Leave(t) => DoLeave(s, t)
    case Join(tm) => DoJoin(s, tm)
  }

  /** `s` is the state after the callbacks `acts`. */
  ghost predicate Run(acts: seq<Action>, s: State) {
    if acts == [] then s == Init()
    else
      var n := |acts| - 1;
      exists s0 | Run(acts[..n], s0) :: Sane(s0) && Enabled(s0, acts[n]) && s == Apply(s0, acts[n])
  }

  /** The label a task has, or will have once it has left its barrier. */
  function Tag(k: Task): Label {
    if k.status.Released? && |k.tag| >= 2 then BarrierEnd(k.tag) else k.tag
  }

  predicate Live(s: State, t: TaskId) {
    t in s.tasks && !s.tasks[t].status.Suspended?
  }

  ghost predicate PlainState(s: State) {
    && (forall t | t in s.tasks :: AllPlain(Tag(s.tasks[t])))
    && (forall h | h in s.accesses :: AllPlain(s.accesses[h]))
  }

  /** The label prefix the members of a team share. */
  function Base(s: State, m: Team): Label {
    if m.first in s.tasks && Tag(s.tasks[m.first]) != [] then DropLast(Tag(s.tasks[m.first])) else []
  }

  function Own(s: State, t: TaskId): Segment {
    if t in s.tasks && Tag(s.tasks[t]) != [] then Last(Tag(s.tasks[t])) else NewSegment(Implicit, 0, 0)
  }

  function OwnSegments(s: State, m: Team): seq<Segment> {
    seq(m.size, i requires 0 <= i < m.size => Own(s, m.first + i))
  }

  /** The members share a prefix that extends the parent's label by whole spans
      and end in one segment for each residue. */
  ghost predicate Shape(s: State, m: Team) {
    && (forall t | m.Has(t) :: t in s.tasks && IsMember(s, m, s.tasks[t], t))
    && TeamSegments(OwnSegments(s, m))
    && m.parent in s.tasks && s.tasks[m.parent].status.Suspended?
    && Follows(s.tasks[m.parent].tag, Base(s, m))
  }

  predicate IsMember(s: State, m: Team, k: Task, t: TaskId) {
    && Tag(k) == Base(s, m) + [Own(s, t)]
    && (m.closed ==> k.status.Running? || k.status.Released?)
  }

  ghost predicate Shapes(s: State) {
    forall tm | tm in s.teams :: Shape(s, s.teams[tm])
  }

  ghost predicate Disjoint(teams: map<TeamId, Team>) {
    forall tm, tm' | tm in teams && tm' in teams && tm != tm' :: Apart(teams[tm], teams[tm'])
  }

  ghost predicate Apart(m: Team, m': Team) {
    m.parent != m'.parent && forall t: TaskId | m.Has(t) :: !m'.Has(t)
  }

  /** Any two live tasks are judged concurrent. */
  ghost predicate Separate(s: State) {
    forall t, t' | Live(s, t) && Live(s, t') && t != t' ::
      Judge(Tag(s.tasks[t]), Tag(s.tasks[t'])) == Concurrent
  }

  /** Each past access is judged rightly against what a live task does next. */
  ghost predicate Judged(s: State) {
    forall h, t | h in s.accesses && Live(s, t) ::
      Judge(s.accesses[h], Tag(s.tasks[t])) == Truth(s.graph, h, s.tasks[t].last)
  }

  /** The prefix of a closed team is in no access label yet. */
  ghost predicate Sealed(s: State) {
    forall tm, h | tm in s.teams && s.teams[tm].closed && h in s.accesses :: !(Base(s, s.teams[tm]) <= s.accesses[h])
  }

  ghost predicate History(s: State) {
    forall h, c | h in s.accesses && c in s.accesses && h < c ::
      Judge(s.accesses[h], s.accesses[c]) == Truth(s.graph, h, c)
  }

  ghost predicate Inv(s: State) {
    Sane(s) && PlainState(s) && Shapes(s) && Disjoint(s.teams) && Separate(s) && Judged(s) && Sealed(s) && History(s)
  }

  lemma InitInv()
    ensures Inv(Init())
  {
  }

  lemma MemberTag(s: State, m: Team, i: nat)
    requires Shape(s, m) && i < m.size
    ensures m.Has(m.first + i) && m.first + i in s.tasks
    ensures Tag(s.tasks[m.first + i]) == Base(s, m) + [OwnSegments(s, m)[i]]
  {
    assert m.Has(m.first + i);
    assert OwnSegments(s, m)[i] == Own(s, m.first + i);
  }

  /** What is concurrent with every member of a team is not below the team's prefix. */
  lemma OutsideTeam(s: State, m: Team, h: Label)
    requires Shape(s, m) && AllPlain(h)
    requires forall t | m.Has(t) :: t in s.tasks && Judge(h, Tag(s.tasks[t])) == Concurrent
    ensures !(Base(s, m) <= h)
  {
    var base, xs := Base(s, m), OwnSegments(s, m);
    forall i | 0 <= i < |xs| ensures Judge(h, base + [xs[i]]) == Concurrent {
      MemberTag(s, m, i);
    }
    ConcurrentIsOutside(h, base, xs);
  }

  /** A team's shape depends only on the labels of its members and its parent. */
  lemma ShapeFrame(s: State, s': State, m: Team)
    requires Shape(s, m)
    requires forall t | m.Has(t) :: t in s'.tasks && Tag(s'.tasks[t]) == Tag(s.tasks[t])
    requires m.closed ==> forall t | m.Has(t) :: s'.tasks[t].status.Running? || s'.tasks[t].status.Released?
    requires m.parent in s'.tasks && s'.tasks[m.parent].tag == s.tasks[m.parent].tag && s'.tasks[m.parent].status.Suspended?
    ensures Shape(s', m) && Base(s', m) == Base(s, m)
  {
    var xs, xs' := OwnSegments(s, m), OwnSegments(s', m);
    assert |xs| >= 1;
    assert m.Has(m.first);
    forall i: nat | i < m.size ensures xs'[i] == xs[i] {
      assert m.Has(m.first + i);
      assert xs[i] == Own(s, m.first + i) && xs'[i] == Own(s', m.first + i);
    }
    assert xs == xs';
  }

  // Steps that record no access.

  lemma HistoryFrame(s: State, s': State, preds: set<nat>)
    requires Sane(s) && History(s) && s'.accesses == s.accesses
    requires s'.graph == s.graph + [preds] && forall p | p in preds :: p < |s.graph|
    ensures History(s')
  {
    Grow(s.graph, preds);
  }

  lemma SealedFrame(s: State, s': State)
    requires Sealed(s) && s'.accesses == s.accesses
    requires forall tm | tm in s'.teams && s'.teams[tm].closed ::
               tm in s.teams && s'.teams[tm] == s.teams[tm] && Base(s', s'.teams[tm]) == Base(s, s.teams[tm])
    ensures Sealed(s')
  {
  }

  // Access

  lemma AccessSane(s: State, t: TaskId)
    requires Sane(s) && Enabled(s, Access(t))
    ensures Sane(DoAccess(s, t))
  {
    var s' := DoAccess(s, t);
    assert forall tm | tm in s.teams :: SaneTeam(s, s.teams[tm]);
    assert forall tm | tm in s'.teams :: SaneTeam(s', s'.teams[tm]);
  }

  lemma AccessShapes(s: State, t: TaskId, s': State)
    requires Sane(s) && Shapes(s) && Enabled(s, Access(t)) && s' == DoAccess(s, t)
    ensures Shapes(s') && forall tm | tm in s.teams :: Base(s', s.teams[tm]) == Base(s, s.teams[tm])
  {
    forall tm | tm in s.teams ensures Shape(s', s.teams[tm]) && Base(s', s.teams[tm]) == Base(s, s.teams[tm]) {
      assert Shape(s, s.teams[tm]);
      ShapeFrame(s, s', s.teams[tm]);
    }
  }

  lemma AccessJudged(s: State, t: TaskId, s': State)
    requires Sane(s) && Separate(s) && Judged(s) && Enabled(s, Access(t)) && s' == DoAccess(s, t)
    ensures Judged(s')
  {
    var e, k := |s.graph|, s.tasks[t];
    Grow(s.graph, {k.last});
    assert Live(s, t) && Tag(k) == k.tag;
    forall h, t' | h in s'.accesses && Live(s', t')
      ensures Judge(s'.accesses[h], Tag(s'.tasks[t'])) == Truth(s'.graph, h, s'.tasks[t'].last)
    {
      assert Live(s, t');
      if h == e && t' == t { JudgeSelf(k.tag); }
    }
  }

  lemma AccessSealed(s: State, t: TaskId, s': State)
    requires Sane(s) && PlainState(s) && Shapes(s) && Separate(s) && Sealed(s)
    requires Enabled(s, Access(t)) && s' == DoAccess(s, t)
    requires forall tm | tm in s.teams :: Base(s', s.teams[tm]) == Base(s, s.teams[tm])
    ensures Sealed(s')
  {
    var e, k := |s.graph|, s.tasks[t];
    assert Live(s, t) && Tag(k) == k.tag;
    forall tm, h | tm in s'.teams && s'.teams[tm].closed && h in s'.accesses
      ensures !(Base(s', s'.teams[tm]) <= s'.accesses[h])
    {
      var m := s.teams[tm];
      assert Shape(s, m);
      if h == e {
        forall t' | m.Has(t') ensures t' in s.tasks && Judge(k.tag, Tag(s.tasks[t'])) == Concurrent {
          assert Live(s, t');
        }
        OutsideTeam(s, m, k.tag);
      }
    }
  }

  lemma AccessKeepsHistory(s: State, t: TaskId, s': State)
    requires Sane(s) && Judged(s) && History(s) && Enabled(s, Access(t)) && s' == DoAccess(s, t)
    ensures History(s')
  {
    var e, k := |s.graph|, s.tasks[t];
    Grow(s.graph, {k.last});
    assert Live(s, t) && Tag(k) == k.tag;
  }

  lemma AccessInv(s: State, t: TaskId)
    requires Inv(s) && Enabled(s, Access(t))
    ensures Inv(DoAccess(s, t))
  {
    var s' := DoAccess(s, t);
    AccessSane(s, t);
    assert PlainState(s') by { assert Tag(s.tasks[t]) == s.tasks[t].tag; }
    AccessShapes(s, t, s');
    AccessJudged(s, t, s');
    AccessSealed(s, t, s');
    AccessKeepsHistory(s, t, s');
  }

  // Arrive and Leave: the status of a task changes, its effective label does not.

  lemma TagSane(s: State, t: TaskId, s': State, k: Task)
    requires Sane(s) && PlainState(s) && t in s.tasks && s' == s.(tasks := s.tasks[t := k])
    requires SaneTask(s', k) && |k.tag| == |s.tasks[t].tag| && Tag(k) == Tag(s.tasks[t])
    ensures Sane(s') && PlainState(s')
  {
    forall tm | tm in s'.teams ensures SaneTeam(s', s'.teams[tm]) {
      assert SaneTeam(s, s.teams[tm]);
    }
  }

  lemma TagShapes(s: State, t: TaskId, s': State, k: Task)
    requires Shapes(s) && Live(s, t) && s' == s.(tasks := s.tasks[t := k]) && Tag(k) == Tag(s.tasks[t])
    requires !k.status.Suspended? && (k.status.Arrived? ==> Active(s, t))
    ensures Shapes(s')
    ensures forall tm | tm in s.teams :: Base(s', s.teams[tm]) == Base(s, s.teams[tm])
  {
    forall tm | tm in s.teams ensures Shape(s', s.teams[tm]) && Base(s', s.teams[tm]) == Base(s, s.teams[tm]) {
      assert Shape(s, s.teams[tm]);
      ShapeFrame(s, s', s.teams[tm]);
    }
  }

  lemma TagVerdicts(s: State, t: TaskId, s': State, k: Task)
    requires Live(s, t) && s' == s.(tasks := s.tasks[t := k]) && !k.status.Suspended?
    requires Tag(k) == Tag(s.tasks[t]) && k.last == s.tasks[t].last
    ensures Separate(s) ==> Separate(s')
    ensures Judged(s) ==> Judged(s')
  {
    assert forall t' :: Live(s', t') == Live(s, t');
    assert forall t' | Live(s, t') :: Tag(s'.tasks[t']) == Tag(s.tasks[t']) && s'.tasks[t'].last == s.tasks[t'].last;
  }

  lemma TagInv(s: State, t: TaskId, s': State, k: Task)
    requires Inv(s) && Live(s, t) && s' == s.(tasks := s.tasks[t := k])
    requires SaneTask(s', k) && |k.tag| == |s.tasks[t].tag|
    requires Tag(k) == Tag(s.tasks[t]) && k.last == s.tasks[t].last
    requires !k.status.Suspended? && (k.status.Arrived? ==> Active(s, t))
    ensures Inv(s')
  {
    TagSane(s, t, s', k);
    TagShapes(s, t, s', k);
    TagVerdicts(s, t, s', k);
    SealedFrame(s, s');
  }

  // Fork

  lemma ForkTasks(s: State, t: TaskId, tm: TeamId, m: Team, s': State)
    requires Sane(s) && Enabled(s, Fork(t, tm, m.first, m.size)) && m == Team(t, m.first, m.size, false)
    requires s' == DoFork(s, t, tm, m.first, m.size)
    ensures forall c: nat | m.Has(c) ::
      && c !in s.tasks && c in s'.tasks && s'.tasks[c].last == |s.graph| && s'.tasks[c].status.Running?
      && s'.tasks[c].tag == Tag(s.tasks[t]) + [NewSegment(Implicit, c - m.first, m.size)]
    ensures forall t' :: Live(s', t') <==> (Live(s, t') && t' != t) || m.Has(t')
    ensures forall t' | t' in s.tasks && t' != t :: t' in s'.tasks && s'.tasks[t'] == s.tasks[t']
    ensures t in s'.tasks && s'.tasks[t] == s.tasks[t].(status := Suspended) && Live(s, t)
    ensures forall c | c in s'.tasks :: c in s.tasks || m.Has(c)
  {
  }

  lemma ForkSane(s: State, t: TaskId, tm: TeamId, m: Team, s': State)
    requires Sane(s) && PlainState(s) && Enabled(s, Fork(t, tm, m.first, m.size)) && m == Team(t, m.first, m.size, false)
    requires s' == DoFork(s, t, tm, m.first, m.size)
    ensures Sane(s') && PlainState(s')
  {
    ForkTasks(s, t, tm, m, s');
    Grow(s.graph, {s.tasks[t].last});
    forall c | c in s'.tasks ensures SaneTask(s', s'.tasks[c]) && AllPlain(Tag(s'.tasks[c])) {
      if m.Has(c) { PlainAppend(Tag(s.tasks[t]), NewSegment(Implicit, c - m.first, m.size)); }
    }
    forall tm' | tm' in s'.teams ensures SaneTeam(s', s'.teams[tm']) {
      if tm' != tm { assert SaneTeam(s, s.teams[tm']); }
    }
  }

  lemma ForkNewShape(s: State, t: TaskId, m: Team, s': State)
    requires m.size >= 1 && t in s.tasks && AllPlain(s.tasks[t].tag) && s.tasks[t].tag != []
    requires forall c: nat | m.Has(c) :: c in s'.tasks && s'.tasks[c].status.Running? &&
               s'.tasks[c].tag == s.tasks[t].tag + [NewSegment(Implicit, c - m.first, m.size)]
    requires m.parent == t && t in s'.tasks && s'.tasks[t] == s.tasks[t].(status := Suspended)
    ensures Shape(s', m)
  {
    assert m.Has(m.first);
    var xs := OwnSegments(s', m);
    forall i: nat | i < m.size ensures xs[i] == NewSegment(Implicit, i, m.size) {
      assert m.Has(m.first + i);
      assert xs[i] == Own(s', m.first + i);
    }
    var l := s.tasks[t].tag;
    PlainAt(l, |l| - 1);
  }

  lemma ForkOldShape(s: State, t: TaskId, tm: TeamId, m: Team, s': State, m': Team)
    requires Sane(s) && Enabled(s, Fork(t, tm, m.first, m.size)) && m == Team(t, m.first, m.size, false)
    requires s' == DoFork(s, t, tm, m.first, m.size) && m' in s.teams.Values && Shape(s, m')
    ensures Shape(s', m') && Base(s', m') == Base(s, m')
    ensures Apart(m', m) && Apart(m, m')
  {
    ForkTasks(s, t, tm, m, s');
    ShapeFrame(s, s', m');
  }

  lemma DisjointWith(teams: map<TeamId, Team>, tm: TeamId, m: Team)
    requires tm !in teams && Disjoint(teams)
    requires forall a | a in teams :: Apart(teams[a], m) && Apart(m, teams[a])
    ensures Disjoint(teams[tm := m])
  {
  }

  lemma ForkShapes(s: State, t: TaskId, tm: TeamId, m: Team, s': State)
    requires Sane(s) && PlainState(s) && Shapes(s) && Disjoint(s.teams)
    requires Enabled(s, Fork(t, tm, m.first, m.size)) && m == Team(t, m.first, m.size, false)
    requires s' == DoFork(s, t, tm, m.first, m.size)
    ensures Shapes(s') && Disjoint(s'.teams)
    ensures forall tm' | tm' in s.teams :: Base(s', s.teams[tm']) == Base(s, s.teams[tm'])
  {
    forall tm' | tm' in s.teams
      ensures Shape(s', s.teams[tm']) && Base(s', s.teams[tm']) == Base(s, s.teams[tm'])
      ensures Apart(s.teams[tm'], m) && Apart(m, s.teams[tm'])
    {
      ForkOldShape(s, t, tm, m, s', s.teams[tm']);
    }
    assert Shape(s', m) by {
      ForkTasks(s, t, tm, m, s');
      ForkNewShape(s, t, m, s');
    }
    DisjointWith(s.teams, tm, m);
  }

  lemma ForkSeparate(s: State, t: TaskId, tm: TeamId, m: Team, s': State)
    requires Sane(s) && Separate(s) && Enabled(s, Fork(t, tm, m.first, m.size)) && m == Team(t, m.first, m.size, false)
    requires s' == DoFork(s, t, tm, m.first, m.size)
    ensures Separate(s')
  {
    var l := Tag(s.tasks[t]);
    ForkTasks(s, t, tm, m, s');
    forall a: nat, b: nat | Live(s', a) && Live(s', b) && a != b
      ensures Judge(Tag(s'.tasks[a]), Tag(s'.tasks[b])) == Concurrent
    {
      if m.Has(a) && m.Has(b) {
        JudgeSiblings(l, NewSegment(Implicit, a - m.first, m.size), NewSegment(Implicit, b - m.first, m.size));
      } else if m.Has(a) {
        JudgeExtendLeft(l, Tag(s.tasks[b]), NewSegment(Implicit, a - m.first, m.size));
      } else if m.Has(b) {
        JudgeExtend(Tag(s.tasks[a]), l, NewSegment(Implicit, b - m.first, m.size));
      }
    }
  }

  lemma ForkJudged(s: State, t: TaskId, tm: TeamId, m: Team, s': State)
    requires Sane(s) && Judged(s) && Enabled(s, Fork(t, tm, m.first, m.size)) && m == Team(t, m.first, m.size, false)
    requires s' == DoFork(s, t, tm, m.first, m.size)
    ensures Judged(s')
  {
    ForkTasks(s, t, tm, m, s');
    forall h, a: nat | h in s'.accesses && Live(s', a)
      ensures Judge(s'.accesses[h], Tag(s'.tasks[a])) == Truth(s'.graph, h, s'.tasks[a].last)
    {
      if m.Has(a) {
        ForkJudgedChild(s, t, s', h, a, NewSegment(Implicit, a - m.first, m.size));
      } else {
        ForkJudgedOther(s, t, s', h, a);
      }
    }
  }

  /** A member is judged as its parent was. */
  lemma ForkJudgedChild(s: State, t: TaskId, s': State, h: nat, a: TaskId, x: Segment)
    requires Sane(s) && Judged(s) && h in s.accesses && Live(s, t) && s'.graph == s.graph + [{s.tasks[t].last}]
    requires a in s'.tasks && s'.tasks[a].last == |s.graph| && s'.tasks[a].status.Running?
    requires s'.tasks[a].tag == Tag(s.tasks[t]) + [x]
    ensures Judge(s.accesses[h], Tag(s'.tasks[a])) == Truth(s'.graph, h, s'.tasks[a].last)
  {
    Grow(s.graph, {s.tasks[t].last});
    JudgeExtend(s.accesses[h], Tag(s.tasks[t]), x);
  }

  lemma ForkJudgedOther(s: State, t: TaskId, s': State, h: nat, a: TaskId)
    requires Sane(s) && Judged(s) && h in s.accesses && t in s.tasks && s'.graph == s.graph + [{s.tasks[t].last}]
    requires Live(s, a) && a in s'.tasks && s'.tasks[a] == s.tasks[a]
    ensures Judge(s.accesses[h], Tag(s'.tasks[a])) == Truth(s'.graph, h, s'.tasks[a].last)
  {
    Grow(s.graph, {s.tasks[t].last});
  }

  lemma ForkInv(s: State, t: TaskId, tm: TeamId, m: Team)
    requires Inv(s) && Enabled(s, Fork(t, tm, m.first, m.size)) && m == Team(t, m.first, m.size, false)
    ensures Inv(DoFork(s, t, tm, m.first, m.size))
  {
    var s' := DoFork(s, t, tm, m.first, m.size);
    ForkSane(s, t, tm, m, s');
    ForkShapes(s, t, tm, m, s');
    ForkSeparate(s, t, tm, m, s');
    ForkJudged(s, t, tm, m, s');
    ForkPast(s, t, tm, m, s');
  }

  lemma ForkPast(s: State, t: TaskId, tm: TeamId, m: Team, s': State)
    requires Sane(s) && Sealed(s) && History(s)
    requires Enabled(s, Fork(t, tm, m.first, m.size)) && m == Team(t, m.first, m.size, false)
    requires s' == DoFork(s, t, tm, m.first, m.size)
    requires forall tm' | tm' in s.teams :: Base(s', s.teams[tm']) == Base(s, s.teams[tm'])
    ensures Sealed(s') && History(s')
  {
    SealedFrame(s, s');
    HistoryFrame(s, s', {s.tasks[t].last});
  }

  // Release

  lemma ReleaseTasks(s: State, tm: TeamId, final: bool, s': State)
    requires Sane(s) && Enabled(s, Release(tm, final)) && s' == DoRelease(s, tm, final)
    ensures forall t | s.teams[tm].Has(t) ::
      && Live(s, t) && t in s'.tasks && s'.tasks[t] == s.tasks[t].(last := |s.graph|, status := Released)
      && BumpFits(s.tasks[t].tag) && Tag(s.tasks[t]) == s.tasks[t].tag
    ensures forall t | t in s.tasks && !s.teams[tm].Has(t) :: t in s'.tasks && s'.tasks[t] == s.tasks[t]
    ensures forall t :: Live(s', t) <==> Live(s, t)
    ensures s'.tasks.Keys == s.tasks.Keys
    ensures forall p | p in LastEvents(s, s.teams[tm]) :: p < |s.graph|
  {
  }

  /** Every member of a released team keeps its own segment while the shared prefix advances. */
  predicate Moved(s: State, s': State, m: Team, t: TaskId, base: Label, base': Label) {
    && t in s.tasks && t in s'.tasks
    && Tag(s.tasks[t]) == base + [Own(s, t)] && Tag(s'.tasks[t]) == base' + [Own(s, t)]
    && AllPlain(base' + [Own(s, t)])
  }

  lemma ReleaseMoves(s: State, tm: TeamId, final: bool, s': State, m: Team, base: Label, base': Label)
    requires Sane(s) && PlainState(s) && Enabled(s, Release(tm, final)) && s' == DoRelease(s, tm, final)
    requires m == s.teams[tm] && Shape(s, m) && base == Base(s, m) && base' == Advance(base, Bump(Last(base)))
    ensures Advanced(Last(base), Bump(Last(base)))
    ensures forall t: nat | m.Has(t) :: Moved(s, s', m, t, base, base')
  {
    ReleaseTasks(s, tm, final, s');
    assert |OwnSegments(s, m)| == m.size;
    assert m.Has(m.first);
    forall t: nat | m.Has(t) ensures Advanced(Last(base), Bump(Last(base))) && Moved(s, s', m, t, base, base') {
      BarrierSplits(base, Own(s, t));
      BumpAdvances(s.tasks[t].tag, base, Own(s, t));
      PlainAppend(base', Own(s, t));
    }
  }

  lemma ReleaseSane(s: State, tm: TeamId, final: bool, s': State, m: Team, base: Label, base': Label)
    requires Sane(s) && PlainState(s) && Enabled(s, Release(tm, final)) && s' == DoRelease(s, tm, final)
    requires m == s.teams[tm] && forall t: nat | m.Has(t) :: Moved(s, s', m, t, base, base')
    ensures Sane(s') && PlainState(s')
  {
    ReleaseTasks(s, tm, final, s');
    Grow(s.graph, LastEvents(s, m));
    ReleaseSaneTeams(s, tm, final, s');
    forall t | t in s'.tasks ensures SaneTask(s', s'.tasks[t]) && AllPlain(Tag(s'.tasks[t])) {
      if m.Has(t) { assert Moved(s, s', m, t, base, base'); }
    }
  }

  lemma ReleaseSaneTeams(s: State, tm: TeamId, final: bool, s': State)
    requires Sane(s) && Enabled(s, Release(tm, final)) && s' == DoRelease(s, tm, final)
    ensures forall tm' | tm' in s'.teams :: SaneTeam(s', s'.teams[tm'])
  {
    ReleaseTasks(s, tm, final, s');
    forall tm' | tm' in s'.teams ensures SaneTeam(s', s'.teams[tm']) {
      assert SaneTeam(s, s.teams[tm']);
    }
  }

  lemma SameOwnSegments(s: State, s': State, m: Team, m': Team)
    requires m'.first == m.first && m'.size == m.size
    requires forall t: nat | m.Has(t) :: Own(s', t) == Own(s, t)
    ensures OwnSegments(s', m') == OwnSegments(s, m)
  {
    var xs, xs' := OwnSegments(s, m), OwnSegments(s', m');
    forall i: nat | i < m.size ensures xs'[i] == xs[i] {
      assert m.Has(m.first + i);
      assert xs[i] == Own(s, m.first + i) && xs'[i] == Own(s', m.first + i);
    }
    assert xs' == xs;
  }

  lemma MovedOwn(s: State, s': State, m: Team, t: TaskId, base: Label, base': Label)
    requires Moved(s, s', m, t, base, base')
    ensures Own(s', t) == Own(s, t) && DropLast(Tag(s'.tasks[t])) == base'
  {
    LastSplits(base', Own(s, t));
  }

  lemma ReleaseNewShape(s: State, s': State, m: Team, m': Team, base: Label, base': Label)
    requires m.size >= 1 && TeamSegments(OwnSegments(s, m)) && m' == m.(closed := m'.closed)
    requires forall t: nat | m.Has(t) :: Moved(s, s', m, t, base, base') && s'.tasks[t].status.Released?
    requires m.parent in s'.tasks && s'.tasks[m.parent].status.Suspended? && Follows(s'.tasks[m.parent].tag, base')
    ensures Shape(s', m') && Base(s', m') == base'
  {
    forall t: nat | m.Has(t) ensures Own(s', t) == Own(s, t) && DropLast(Tag(s'.tasks[t])) == base' {
      MovedOwn(s, s', m, t, base, base');
    }
    assert m.Has(m.first);
    SameOwnSegments(s, s', m, m');
    assert Base(s', m') == base';
    forall t: nat | m'.Has(t) ensures t in s'.tasks && IsMember(s', m', s'.tasks[t], t) {
      assert m.Has(t) && Moved(s, s', m, t, base, base');
    }
  }

  lemma ReleaseOldShape(s: State, tm: TeamId, final: bool, s': State, m': Team)
    requires Sane(s) && Enabled(s, Release(tm, final)) && s' == DoRelease(s, tm, final)
    requires Shape(s, m') && Apart(s.teams[tm], m')
    ensures Shape(s', m') && Base(s', m') == Base(s, m')
  {
    ReleaseTasks(s, tm, final, s');
    ShapeFrame(s, s', m');
  }

  lemma StillDisjoint(teams: map<TeamId, Team>, tm: TeamId, m': Team)
    requires tm in teams && m' == teams[tm].(closed := m'.closed) && Disjoint(teams)
    ensures Disjoint(teams[tm := m'])
  {
    forall a, b | a in teams && b in teams && a != b ensures Apart(teams[tm := m'][a], teams[tm := m'][b]) {
      assert Apart(teams[a], teams[b]);
      assert forall t: TaskId :: m'.Has(t) <==> teams[tm].Has(t);
    }
  }

  lemma ReleaseShapes(s: State, tm: TeamId, final: bool, s': State, m: Team)
    requires Sane(s) && Shapes(s) && Disjoint(s.teams)
    requires Enabled(s, Release(tm, final)) && s' == DoRelease(s, tm, final)
    requires m == s.teams[tm] && Shape(s', m.(closed := final))
    ensures Shapes(s')
    ensures forall tm' | tm' in s.teams && tm' != tm :: Base(s', s.teams[tm']) == Base(s, s.teams[tm'])
  {
    forall tm' | tm' in s.teams && tm' != tm
      ensures Shape(s', s.teams[tm']) && Base(s', s.teams[tm']) == Base(s, s.teams[tm'])
    {
      assert Apart(m, s.teams[tm']);
      ReleaseOldShape(s, tm, final, s', s.teams[tm']);
    }
    ShapesAll(s, s', tm, m.(closed := final));
  }

  lemma ShapesAll(s: State, s': State, tm: TeamId, m: Team)
    requires s'.teams == s.teams[tm := m] && Shape(s', m)
    requires forall tm' | tm' in s.teams && tm' != tm :: Shape(s', s.teams[tm'])
    ensures Shapes(s')
  {
    forall tm' | tm' in s'.teams ensures Shape(s', s'.teams[tm']) {
      if tm' != tm { assert s'.teams[tm'] == s.teams[tm']; }
    }
  }

  /** The barrier law for a whole team: what its members are ordered after. */
  lemma ReleaseJudge(s: State, s': State, m: Team, base: Label, base': Label, h: Label, t: TaskId)
    requires Shape(s, m) && base == Base(s, m) && base' == Advance(base, Bump(Last(base)))
    requires Advanced(Last(base), Bump(Last(base))) && AllPlain(h)
    requires forall a: nat | m.Has(a) :: Moved(s, s', m, a, base, base')
    requires forall a: nat | m.Has(a) :: Judge(h, Tag(s.tasks[a])) != Fatal
    requires m.Has(t) && t in s'.tasks
    ensures Judge(h, Tag(s'.tasks[t])) ==
      (if exists a: nat | m.Has(a) :: Judge(h, Tag(s.tasks[a])) == Ordered then Ordered else Concurrent)
    ensures !(base' <= h)
  {
    var xs := OwnSegments(s, m);
    forall i: nat | i < |xs| ensures m.Has(m.first + i) && base + [xs[i]] == Tag(s.tasks[m.first + i]) {
      MemberTag(s, m, i);
    }
    forall a: nat | m.Has(a) ensures base + [xs[a - m.first]] == Tag(s.tasks[a]) {
      MemberTag(s, m, a - m.first);
    }
    assert Moved(s, s', m, t, base, base');
    JudgeBarrier(h, base, Bump(Last(base)), xs, [Own(s, t)]);
    AdvancedIsNew(h, base, Bump(Last(base)), xs);
  }

  /** What `ReleaseMoves` establishes, in one name. */
  ghost predicate Advances(s: State, s': State, m: Team, base: Label, base': Label) {
    && Shape(s, m) && base == Base(s, m) && base != [] && base' == Advance(base, Bump(Last(base)))
    && Advanced(Last(base), Bump(Last(base)))
    && forall t: nat | m.Has(t) :: Moved(s, s', m, t, base, base')
  }

  lemma ReleaseJudgedMember(s: State, s': State, m: Team, base: Label, base': Label, h: nat, t: TaskId)
    requires PlainState(s) && Judged(s) && Advances(s, s', m, base, base') && h in s.accesses && m.Has(t)
    requires forall a | m.Has(a) :: Live(s, a)
    ensures t in s'.tasks && Judge(s.accesses[h], Tag(s'.tasks[t])) ==
      (if exists p | p in LastEvents(s, m) :: Truth(s.graph, h, p) == Ordered then Ordered else Concurrent)
    ensures !(base' <= s.accesses[h])
  {
    forall a: nat | m.Has(a) ensures Judge(s.accesses[h], Tag(s.tasks[a])) == Truth(s.graph, h, s.tasks[a].last) {
      assert Live(s, a);
    }
    assert Moved(s, s', m, t, base, base');
    ReleaseJudge(s, s', m, base, base', s.accesses[h], t);
    SomeLastEvent(s, m, h);
  }

  lemma ReleaseJudged(s: State, tm: TeamId, final: bool, s': State, m: Team)
    requires Sane(s) && Judged(s) && Enabled(s, Release(tm, final)) && s' == DoRelease(s, tm, final) && m == s.teams[tm]
    requires forall h, t: nat | h in s.accesses && m.Has(t) :: t in s'.tasks && Judge(s.accesses[h], Tag(s'.tasks[t])) ==
               (if exists p | p in LastEvents(s, m) :: Truth(s.graph, h, p) == Ordered then Ordered else Concurrent)
    ensures Judged(s')
  {
    ReleaseTasks(s, tm, final, s');
    Grow(s.graph, LastEvents(s, m));
  }

  /** A past access reaches the end of a barrier through some member's last event. */
  lemma SomeLastEvent(s: State, m: Team, h: nat)
    requires forall t | m.Has(t) :: t in s.tasks
    ensures (exists p | p in LastEvents(s, m) :: Truth(s.graph, h, p) == Ordered) <==>
            (exists a: nat | m.Has(a) :: Truth(s.graph, h, s.tasks[a].last) == Ordered)
  {
    if a: nat :| m.Has(a) && Truth(s.graph, h, s.tasks[a].last) == Ordered {
      assert s.tasks[a].last in LastEvents(s, m);
    }
  }

  lemma ReleaseSeparate(s: State, tm: TeamId, final: bool, s': State, m: Team, base: Label, base': Label)
    requires Sane(s) && PlainState(s) && Separate(s) && Enabled(s, Release(tm, final)) && s' == DoRelease(s, tm, final)
    requires m == s.teams[tm] && Advances(s, s', m, base, base')
    ensures Separate(s')
  {
    ReleaseTasks(s, tm, final, s');
    forall a: nat, b: nat | Live(s', a) && Live(s', b) && a != b
      ensures Judge(Tag(s'.tasks[a]), Tag(s'.tasks[b])) == Concurrent
    {
      assert Live(s, a) && Live(s, b);
      if m.Has(a) && m.Has(b) {
        ReleaseMembers(s, s', m, base, base', a, b);
      } else if m.Has(b) {
        ReleaseOutsider(s, tm, s', m, base, base', a, b);
      } else if m.Has(a) {
        ReleaseOutsider(s, tm, s', m, base, base', b, a);
        ConcurrentSymmetric(Tag(s.tasks[b]), Tag(s'.tasks[a]));
      }
    }
  }

  lemma ReleaseMembers(s: State, s': State, m: Team, base: Label, base': Label, a: TaskId, b: TaskId)
    requires Advances(s, s', m, base, base') && m.Has(a) && m.Has(b) && a != b
    ensures a in s'.tasks && b in s'.tasks && Judge(Tag(s'.tasks[a]), Tag(s'.tasks[b])) == Concurrent
  {
    var xs := OwnSegments(s, m);
    assert xs[a - m.first] == Own(s, m.first + (a - m.first)) && xs[b - m.first] == Own(s, m.first + (b - m.first));
    assert Moved(s, s', m, a, base, base') && Moved(s, s', m, b, base, base');
    JudgeSiblings(base', Own(s, a), Own(s, b));
  }

  lemma ReleaseOutsider(s: State, tm: TeamId, s': State, m: Team, base: Label, base': Label, a: TaskId, b: TaskId)
    requires PlainState(s) && Separate(s) && Advances(s, s', m, base, base')
    requires Live(s, a) && !m.Has(a) && m.Has(b) && b in s'.tasks
    requires forall t | m.Has(t) :: Live(s, t)
    ensures Judge(Tag(s.tasks[a]), Tag(s'.tasks[b])) == Concurrent
  {
    forall t: nat | m.Has(t) ensures Judge(Tag(s.tasks[a]), Tag(s.tasks[t])) == Concurrent {
      assert Live(s, t);
    }
    ReleaseJudge(s, s', m, base, base', Tag(s.tasks[a]), b);
  }

  lemma ReleaseSealed(s: State, tm: TeamId, final: bool, s': State, m: Team, base': Label)
    requires Sane(s) && Sealed(s) && Enabled(s, Release(tm, final)) && s' == DoRelease(s, tm, final)
    requires m == s.teams[tm] && Base(s', s'.teams[tm]) == base'
    requires forall h | h in s.accesses :: !(base' <= s.accesses[h])
    requires forall tm' | tm' in s.teams && tm' != tm :: Base(s', s.teams[tm']) == Base(s, s.teams[tm'])
    ensures Sealed(s')
  {
  }

  lemma ReleaseVerdicts(s: State, tm: TeamId, final: bool, s': State, m: Team, base: Label, base': Label)
    requires Sane(s) && PlainState(s) && Judged(s) && Sealed(s)
    requires Enabled(s, Release(tm, final)) && s' == DoRelease(s, tm, final)
    requires m == s.teams[tm] && Advances(s, s', m, base, base') && Base(s', s'.teams[tm]) == base'
    requires forall tm' | tm' in s.teams && tm' != tm :: Base(s', s.teams[tm']) == Base(s, s.teams[tm'])
    ensures Judged(s') && Sealed(s')
  {
    assert forall a | m.Has(a) :: Live(s, a);
    assert |OwnSegments(s, m)| == m.size;
    assert m.Has(m.first);
    forall h, t: nat | h in s.accesses && m.Has(t)
      ensures t in s'.tasks && Judge(s.accesses[h], Tag(s'.tasks[t])) ==
        (if exists p | p in LastEvents(s, m) :: Truth(s.graph, h, p) == Ordered then Ordered else Concurrent)
    {
      ReleaseJudgedMember(s, s', m, base, base', h, t);
    }
    forall h | h in s.accesses ensures !(base' <= s.accesses[h]) {
      ReleaseJudgedMember(s, s', m, base, base', h, m.first);
    }
    ReleaseJudged(s, tm, final, s', m);
    ReleaseSealed(s, tm, final, s', m, base');
  }

  lemma ReleaseInv(s: State, tm: TeamId, final: bool)
    requires Inv(s) && Enabled(s, Release(tm, final))
    ensures Inv(DoRelease(s, tm, final))
  {
    var s', m := DoRelease(s, tm, final), s.teams[tm];
    assert Shape(s, m);
    var base := Base(s, m);
    var base' := Advance(base, Bump(Last(base)));
    ReleaseMoves(s, tm, final, s', m, base, base');
    assert Advances(s, s', m, base, base');
    ReleaseSane(s, tm, final, s', m, base, base');
    ReleaseAllShapes(s, tm, final, s', m, base, base');
    ReleaseSeparate(s, tm, final, s', m, base, base');
    ReleaseVerdicts(s, tm, final, s', m, base, base');
    ReleaseTasks(s, tm, final, s');
    HistoryFrame(s, s', LastEvents(s, m));
  }

  lemma ReleaseAllShapes(s: State, tm: TeamId, final: bool, s': State, m: Team, base: Label, base': Label)
    requires Sane(s) && Shapes(s) && Disjoint(s.teams)
    requires Enabled(s, Release(tm, final)) && s' == DoRelease(s, tm, final)
    requires m == s.teams[tm] && Advances(s, s', m, base, base')
    ensures Shapes(s') && Disjoint(s'.teams) && Base(s', s'.teams[tm]) == base'
    ensures forall tm' | tm' in s.teams && tm' != tm :: Base(s', s.teams[tm']) == Base(s, s.teams[tm'])
  {
    ReleaseTasks(s, tm, final, s');
    FollowsAdvance(s.tasks[m.parent].tag, base, Bump(Last(base)));
    ReleaseNewShape(s, s', m, m.(closed := final), base, base');
    ReleaseShapes(s, tm, final, s', m);
    StillDisjoint(s.teams, tm, m.(closed := final));
  }

  // Join

  lemma JoinTasks(s: State, tm: TeamId, m: Team, s': State)
    requires Sane(s) && Shapes(s) && Enabled(s, Join(tm)) && m == s.teams[tm] && s' == DoJoin(s, tm)
    ensures m.Has(m.first) && Shape(s, m) && !m.Has(m.parent)
    ensures m.parent in s'.tasks && s'.tasks[m.parent] == Task(Base(s, m), |s.graph|, Running)
    ensures forall t | t in s.tasks && !m.Has(t) && t != m.parent :: t in s'.tasks && s'.tasks[t] == s.tasks[t]
    ensures forall t | t in s'.tasks :: t in s.tasks && !m.Has(t)
    ensures forall p | p in LastEvents(s, m) :: p < |s.graph|
    ensures forall t | m.Has(t) :: Live(s, t)
  {
    JoinTeam(s, tm, m);
    JoinMaps(s, tm, m, s');
  }

  lemma JoinMaps(s: State, tm: TeamId, m: Team, s': State)
    requires Sane(s) && Enabled(s, Join(tm)) && m == s.teams[tm] && s' == DoJoin(s, tm)
    requires m.Has(m.first) && !m.Has(m.parent) && Base(s, m) == ParentImpEnd(s.tasks[m.first].tag)
    ensures m.parent in s'.tasks && s'.tasks[m.parent] == Task(Base(s, m), |s.graph|, Running)
    ensures forall t | t in s.tasks && !m.Has(t) && t != m.parent :: t in s'.tasks && s'.tasks[t] == s.tasks[t]
    ensures forall t | t in s'.tasks :: t in s.tasks && !m.Has(t)
  {
    assert SaneTeam(s, m);
  }

  lemma JoinTeam(s: State, tm: TeamId, m: Team)
    requires Sane(s) && Shapes(s) && Enabled(s, Join(tm)) && m == s.teams[tm]
    ensures m.Has(m.first) && Shape(s, m) && !m.Has(m.parent)
    ensures Base(s, m) == ParentImpEnd(s.tasks[m.first].tag)
    ensures forall p | p in LastEvents(s, m) :: p < |s.graph|
    ensures forall t | m.Has(t) :: Live(s, t)
  {
    assert Shape(s, m);
    assert |OwnSegments(s, m)| == m.size;
    assert m.Has(m.first);
  }

  lemma JoinSane(s: State, tm: TeamId, m: Team, s': State)
    requires Sane(s) && PlainState(s) && Shapes(s) && Disjoint(s.teams)
    requires Enabled(s, Join(tm)) && m == s.teams[tm] && s' == DoJoin(s, tm)
    ensures Sane(s') && PlainState(s')
  {
    JoinTasks(s, tm, m, s');
    Grow(s.graph, LastEvents(s, m));
    PlainAppend(Base(s, m), Own(s, m.first));
    JoinSaneTasks(s, m.parent, s', Base(s, m));
    JoinSaneTeams(s, tm, m, s');
  }

  /** The parent resumes with the label `l`; other tasks are gone or as they were. */
  lemma JoinSaneTasks(s: State, parent: TaskId, s': State, l: Label)
    requires PlainState(s) && (forall t | t in s.tasks :: SaneTask(s, s.tasks[t])) && AllPlain(l) && l != []
    requires |s'.graph| == |s.graph| + 1 && s'.accesses == s.accesses
    requires forall t | t in s'.tasks && t != parent :: t in s.tasks && s'.tasks[t] == s.tasks[t]
    requires parent in s'.tasks && s'.tasks[parent] == Task(l, |s.graph|, Running)
    ensures PlainState(s') && forall t | t in s'.tasks :: SaneTask(s', s'.tasks[t])
  {
  }

  lemma JoinSaneTeams(s: State, tm: TeamId, m: Team, s': State)
    requires Sane(s) && Shapes(s) && Disjoint(s.teams)
    requires Enabled(s, Join(tm)) && m == s.teams[tm] && s' == DoJoin(s, tm)
    ensures forall tm' | tm' in s'.teams :: SaneTeam(s', s'.teams[tm'])
  {
    JoinTasks(s, tm, m, s');
    forall tm' | tm' in s'.teams ensures SaneTeam(s', s'.teams[tm']) {
      var m' := s.teams[tm'];
      assert SaneTeam(s, m') && Shape(s, m') && Apart(m, m') && Apart(m', m);
    }
  }

  /** A suspended member resumes with a label that still fits its own team. */
  lemma ResumedShape(s: State, s': State, m: Team, p: TaskId, l: Label)
    requires Shape(s, m) && m.Has(p) && Tag(s.tasks[p]) == s.tasks[p].tag && s.tasks[p].status.Suspended?
    requires Follows(s.tasks[p].tag, l)
    requires p in s'.tasks && s'.tasks[p].tag == l && s'.tasks[p].status.Running?
    requires forall t | m.Has(t) && t != p :: t in s'.tasks && s'.tasks[t] == s.tasks[t]
    requires m.parent in s'.tasks && s'.tasks[m.parent] == s.tasks[m.parent]
    ensures Shape(s', m) && Base(s', m) == Base(s, m)
  {
    var base, xs, xs' := Base(s, m), OwnSegments(s, m), OwnSegments(s', m);
    assert |xs| == m.size;
    assert m.Has(m.first);
    LastSplits(base, Own(s, p));
    assert l == base + [Last(l)];
    LastSplits(base, Last(l));
    forall i: nat | i < m.size ensures xs'[i] == (if m.first + i == p then Last(l) else xs[i]) {
      assert m.Has(m.first + i);
      assert xs'[i] == Own(s', m.first + i) && xs[i] == Own(s, m.first + i);
    }
    assert xs[p - m.first] == Own(s, m.first + (p - m.first));
    StillTeamSegments(xs, xs', p - m.first);
  }

  lemma JoinOldShape(s: State, tm: TeamId, m: Team, s': State, m': Team)
    requires Sane(s) && Shapes(s) && Enabled(s, Join(tm)) && m == s.teams[tm] && s' == DoJoin(s, tm)
    requires Shape(s, m') && Apart(m, m') && Apart(m', m)
    ensures Shape(s', m') && Base(s', m') == Base(s, m')
  {
    JoinTasks(s, tm, m, s');
    if m'.Has(m.parent) {
      ResumedShape(s, s', m', m.parent, Base(s, m));
    } else {
      ShapeFrame(s, s', m');
    }
  }

  lemma JoinShapes(s: State, tm: TeamId, m: Team, s': State)
    requires Sane(s) && Shapes(s) && Disjoint(s.teams)
    requires Enabled(s, Join(tm)) && m == s.teams[tm] && s' == DoJoin(s, tm)
    ensures Shapes(s') && Disjoint(s'.teams)
    ensures forall tm' | tm' in s'.teams :: Base(s', s'.teams[tm']) == Base(s, s'.teams[tm'])
  {
    forall tm' | tm' in s'.teams
      ensures Shape(s', s'.teams[tm']) && Base(s', s'.teams[tm']) == Base(s, s'.teams[tm'])
    {
      assert Apart(m, s.teams[tm']) && Apart(s.teams[tm'], m);
      JoinOldShape(s, tm, m, s', s.teams[tm']);
    }
  }

  lemma JoinOutsider(s: State, m: Team, t: TaskId)
    requires PlainState(s) && Shape(s, m) && Separate(s) && Live(s, t) && !m.Has(t)
    requires m.Has(m.first) && forall a | m.Has(a) :: Live(s, a)
    ensures Judge(Tag(s.tasks[t]), Base(s, m)) == Concurrent
  {
    forall a | m.Has(a) ensures a in s.tasks && Judge(Tag(s.tasks[t]), Tag(s.tasks[a])) == Concurrent {
      assert Live(s, a);
    }
    OutsideTeam(s, m, Tag(s.tasks[t]));
    JudgeDropLast(Tag(s.tasks[t]), Base(s, m), Own(s, m.first));
  }

  lemma JoinSeparate(s: State, tm: TeamId, m: Team, s': State)
    requires Sane(s) && PlainState(s) && Shapes(s) && Separate(s)
    requires Enabled(s, Join(tm)) && m == s.teams[tm] && s' == DoJoin(s, tm)
    ensures Separate(s')
  {
    JoinTasks(s, tm, m, s');
    forall a, b | Live(s', a) && Live(s', b) && a != b
      ensures Judge(Tag(s'.tasks[a]), Tag(s'.tasks[b])) == Concurrent
    {
      if b == m.parent {
        JoinOutsider(s, m, a);
      } else if a == m.parent {
        JoinOutsider(s, m, b);
        ConcurrentSymmetric(Tag(s.tasks[b]), Base(s, m));
      }
    }
  }

  lemma JoinVerdict(s: State, m: Team, h: nat)
    requires Shape(s, m) && Judged(s) && h in s.accesses && !(Base(s, m) <= s.accesses[h])
    requires m.Has(m.first) && forall a | m.Has(a) :: Live(s, a)
    ensures Judge(s.accesses[h], Base(s, m)) ==
      (if exists p | p in LastEvents(s, m) :: Truth(s.graph, h, p) == Ordered then Ordered else Concurrent)
  {
    forall a: nat | m.Has(a) ensures Judge(s.accesses[h], Base(s, m)) == Truth(s.graph, h, s.tasks[a].last) {
      assert Live(s, a);
      JudgeDropLast(s.accesses[h], Base(s, m), Own(s, a));
    }
    SomeLastEvent(s, m, h);
  }

  lemma JoinJudged(s: State, tm: TeamId, m: Team, s': State)
    requires Sane(s) && Shapes(s) && Judged(s) && Sealed(s)
    requires Enabled(s, Join(tm)) && m == s.teams[tm] && s' == DoJoin(s, tm)
    ensures Judged(s')
  {
    JoinTasks(s, tm, m, s');
    forall h, t | h in s'.accesses && Live(s', t)
      ensures Judge(s'.accesses[h], Tag(s'.tasks[t])) == Truth(s'.graph, h, s'.tasks[t].last)
    {
      if t == m.parent { JoinVerdict(s, m, h); }
      JoinJudgedAt(s, m, s', h, t);
    }
  }

  /** The parent is judged by the last events of its team, other tasks as before. */
  lemma JoinJudgedAt(s: State, m: Team, s': State, h: nat, t: TaskId)
    requires Sane(s) && Judged(s) && h in s.accesses && s'.graph == s.graph + [LastEvents(s, m)]
    requires forall p | p in LastEvents(s, m) :: p < |s.graph|
    requires Live(s', t)
    requires if t == m.parent then
        s'.tasks[t] == Task(Base(s, m), |s.graph|, Running) &&
        Judge(s.accesses[h], Base(s, m)) ==
          (if exists p | p in LastEvents(s, m) :: Truth(s.graph, h, p) == Ordered then Ordered else Concurrent)
      else t in s.tasks && s'.tasks[t] == s.tasks[t]
    ensures Judge(s.accesses[h], Tag(s'.tasks[t])) == Truth(s'.graph, h, s'.tasks[t].last)
  {
    Grow(s.graph, LastEvents(s, m));
    if t != m.parent { assert Live(s, t); }
  }

  lemma JoinInv(s: State, tm: TeamId)
    requires Inv(s) && Enabled(s, Join(tm))
    ensures Inv(DoJoin(s, tm))
  {
    var s', m := DoJoin(s, tm), s.teams[tm];
    JoinTasks(s, tm, m, s');
    JoinSane(s, tm, m, s');
    JoinShapes(s, tm, m, s');
    JoinSeparate(s, tm, m, s');
    JoinJudged(s, tm, m, s');
    SealedFrame(s, s');
    HistoryFrame(s, s', LastEvents(s, m));
  }

  // The theorem

  lemma StepInv(s: State, a: Action)
    requires Inv(s) && Enabled(s, a)
    ensures Inv(Apply(s, a))
  {
    match a
    case Access(t) => AccessInv(s, t);
    case Fork(t, tm, first, size) => ForkInv(s, t, tm, Team(t, first, size, false));
    case Arrive(t, tm) => TagInv(s, t, DoArrive(s, t), s.tasks[t].(status := Arrived));
    case Release(tm, final) => ReleaseInv(s, tm, final);
    case Leave(t) => TagInv(s, t, DoLeave(s, t), s.tasks[t].(tag := BarrierEnd(s.tasks[t].tag), status := Running));
    case Join(tm) => JoinInv(s, tm);
  }

  lemma {:induction false} RunInv(acts: seq<Action>, s: State)
    requires Run(acts, s)
    ensures Inv(s)
  {
    if acts == [] {
      InitInv();
    } else {
      var n := |acts| - 1;
      var s0 :| Run(acts[..n], s0) && Sane(s0) && Enabled(s0, acts[n]) && s == Apply(s0, acts[n]);
      RunInv(acts[..n], s0);
      StepInv(s0, acts[n]);
    }
  }

  lemma HistoryVerdict(s: State, h: nat, c: nat)
    requires Sane(s) && PlainState(s) && History(s) && h in s.accesses && c in s.accesses && h < c
    ensures HappensBefore(s.accesses[h], s.accesses[c]) == Truth(s.graph, h, c)
  {
    JudgeIsHappensBefore(s.accesses[h], s.accesses[c]);
  }

  /** In every run, the verdict on two accesses is reachability in the event graph:
      no abort, no false order and no missed order. */
  lemma VerdictIsReachability(acts: seq<Action>, s: State, h: nat, c: nat)
    requires Run(acts, s) && h in s.accesses && c in s.accesses && h < c
    ensures Sane(s)
    ensures HappensBefore(s.accesses[h], s.accesses[c]) == (if Reaches(s.graph, h, c) then Ordered else Concurrent)
  {
    RunInv(acts, s);
    HistoryVerdict(s, h, c);
  }

  /** Labels the program calls the same are the same value. */
  lemma SameLabelIsEqual(acts: seq<Action>, s: State, a: nat, b: nat)
    requires Run(acts, s) && a in s.accesses && b in s.accesses
    requires CompareLabels(s.accesses[a], s.accesses[b]) == SAME_LABEL
    ensures s.accesses[a] == s.accesses[b]
  {
    RunInv(acts, s);
    PlainSame(s.accesses[a], s.accesses[b]);
  }

  /** Every enabled step continues a run: the sanity asked of its states restricts nothing. */
  lemma EnabledStepsRun(acts: seq<Action>, s: State, a: Action)
    requires Run(acts, s) && Enabled(s, a)
    ensures Sane(s) && Run(acts + [a], Apply(s, a))
  {
    RunInv(acts, s);
    assert (acts + [a])[..|acts|] == acts;
  }
}
