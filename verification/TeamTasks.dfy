/** A team of implicit tasks, each with the explicit tasks, taskwaits and taskgroups of module
    TaskSync, over any number of barriers: the members' courses interleaved in one event graph,
    and the label comparison on accesses of the whole team. */
module TeamTasks {
  import opened Arithmetic
  import opened Segments
  import opened Core
  import opened EventGraph
  import opened EventVerdict
  import opened VerdictShapes
  import Labels
  import TaskGroups
  import TaskSync
  import TaskVerdicts

  /** A member between two barriers: its segment at the first, its course since then, and where
      the events of the course are in the team's event graph. */
  datatype Member = Member(own: Segment, course: TaskSync.State, at: seq<nat>)

  /** What happens between two barriers; `parent` is the segment of the enclosing task, which
      every barrier advances, and `start` the event of the first barrier. */
  datatype Epoch = Epoch(start: nat, parent: Segment, members: seq<Member>)

  datatype Spot = Spot(epoch: nat, member: nat, event: nat)

  datatype State = State(graph: Graph, epochs: seq<Epoch>, accesses: map<nat, Spot>)

  datatype Action = Step(i: nat, a: TaskSync.Action) | Barrier

  function NewMember(above: Label, parent: Segment, own: Segment, start: nat): Member {
    Member(own, TaskSync.Init(above + [parent], own), [start])
  }

  function Init(above: Label, parent: Segment, size: nat): State {
    State([{}], [Epoch(0, parent, seq(size, i requires 0 <= i < size => NewMember(above, parent, NewSegment(Implicit, i, size), 0)))], map[])
  }

  function Now(s: State): Epoch
    requires s.epochs != []
  {
    s.epochs[|s.epochs| - 1]
  }

  function OwnNow(m: Member): Segment {
    if m.course.seg < |m.course.store| then m.course.store[m.course.seg] else m.own
  }

  ghost predicate Enabled(s: State, a: Action) {
    s.epochs != [] &&
    match a
    case Step(i, b) => i < |Now(s).members| && TaskSync.Enabled(Now(s).members[i].course, b)
    case Barrier =>
      && (forall i | 0 <= i < |Now(s).members| :: MayWait(Now(s).members[i]))
      && Now(s).parent.offset + Now(s).parent.span < FIELD16
  }

  /** A barrier completes when all tasks are done; no taskgroup is open then. */
  ghost predicate MayWait(m: Member) {
    m.course.open == [] && TaskSync.AllDone(m.course, 0)
  }

  /** Events of a course in the team's graph. */
  function Image(es: set<nat>, at: seq<nat>): set<nat> {
    set e | e in es && e < |at| :: at[e]
  }

  function LastEvents(m: Member): set<nat> {
    Image({m.course.last} + TaskSync.LastEvents(m.course, 0), m.at)
  }

  predicate IsAccess(a: TaskSync.Action) {
    a.ParentAccess? || a.ChildAccess?
  }

  /** One step of a member: its course moves on, and so does the graph if it adds an event. */
  ghost function DoStep(s: State, i: nat, a: TaskSync.Action): State
    requires Enabled(s, Step(i, a)) && TaskSync.Sane(Now(s).members[i].course)
  {
    var k, ep := |s.epochs| - 1, Now(s);
    var m := ep.members[i];
    var c, e := TaskSync.Apply(m.course, a), |m.course.graph|;
    if |c.graph| <= e then s.(epochs := s.epochs[k := ep.(members := ep.members[i := m.(course := c)])])
    else
      State(s.graph + [Image(c.graph[e], m.at)],
        s.epochs[k := ep.(members := ep.members[i := Member(m.own, c, m.at + [|s.graph|])])],
        if IsAccess(a) then s.accesses[|s.graph| := Spot(k, i, e)] else s.accesses)
  }

  /** A barrier waits for all tasks of all members, advances the enclosing task's segment in
      their labels, and starts every member's course anew. */
  ghost function DoBarrier(above: Label, s: State): State
    requires s.epochs != []
  {
    var ep, e := Now(s), |s.graph|;
    var parent := Labels.Bump(ep.parent);
    var next := Epoch(e, parent,
      seq(|ep.members|, i requires 0 <= i < |ep.members| => NewMember(above, parent, OwnNow(ep.members[i]), e)));
    State(s.graph + [set i, p | 0 <= i < |ep.members| && p in LastEvents(ep.members[i]) :: p], s.epochs + [next], s.accesses)
  }

  ghost predicate SaneFor(s: State, a: Action) {
    a.Step? ==> s.epochs != [] && a.i < |Now(s).members| && TaskSync.Sane(Now(s).members[a.i].course)
  }

  ghost function Apply(above: Label, s: State, a: Action): State
    requires Enabled(s, a) && SaneFor(s, a)
  {
    match a
    case Step(i, b) => DoStep(s, i, b)
    case Barrier => DoBarrier(above, s)
  }

  ghost predicate Run(above: Label, parent: Segment, size: nat, acts: seq<Action>, s: State) {
    if acts == [] then s == Init(above, parent, size)
    else
      var n := |acts| - 1;
      exists s0 | Run(above, parent, size, acts[..n], s0) ::
        Enabled(s0, acts[n]) && SaneFor(s0, acts[n]) && s == Apply(above, s0, acts[n])
  }

  /** The team's enclosing task and size. */
  predicate TeamOf(parent: Segment, size: nat) {
    parent.kind.Implicit? && parent.span >= 1 && 2 <= size < FIELD16
  }

  // A course within the team's graph.

  /** The course is one of TaskSync under the epoch's prefix, and every event but the first
      follows another. */
  ghost predicate OnCourse(above: Label, parent: Segment, m: Member) {
    && (exists acts :: TaskSync.Run(above + [parent], m.own, acts, m.course))
    && (forall e | 0 < e < |m.course.graph| :: m.course.graph[e] != {})
  }

  ghost predicate Embedded(g: Graph, start: nat, m: Member) {
    && |m.at| == |m.course.graph| >= 1 && m.at[0] == start < |g| && WellFormed(m.course.graph)
    && (forall e, f | 0 <= e < f < |m.at| :: m.at[e] < m.at[f])
    && (forall e | 0 < e < |m.at| :: m.at[e] < |g| && g[m.at[e]] == Image(m.course.graph[e], m.at))
  }

  predicate IsMember(size: nat, i: nat, m: Member) {
    TaskVerdicts.Begins(m.own) && m.own.offset == i && m.own.span == size && m.own.groupId < FIELD16
  }

  ghost predicate Disjoint(m: Member, m': Member) {
    forall e, f | 0 < e < |m.at| && 0 < f < |m'.at| :: m.at[e] != m'.at[f]
  }

  ghost predicate EpochRight(above: Label, size: nat, g: Graph, ep: Epoch) {
    && |ep.members| == size && ep.start < |g|
    && (forall i | 0 <= i < size ::
         OnCourse(above, ep.parent, ep.members[i]) && Embedded(g, ep.start, ep.members[i]) && IsMember(size, i, ep.members[i]))
    && (forall i, j | 0 <= i < j < size :: Disjoint(ep.members[i], ep.members[j]))
  }

  /** `p'` is `p` after one or more barriers. */
  predicate Advanced(p: Segment, p': Segment) {
    && p.kind.Implicit? && p'.kind.Implicit? && p.span == p'.span && p.span >= 1
    && p.offset % p.span == p'.offset % p.span && p.offset < p'.offset
  }

  /** Everything of an epoch is before the next one starts. */
  ghost predicate Closed(ep: Epoch, next: nat) {
    && ep.start < next
    && forall i, e | 0 <= i < |ep.members| && 0 < e < |ep.members[i].at| :: ep.members[i].at[e] < next
  }

  ghost predicate EpochsRight(above: Label, size: nat, s: State) {
    forall k | 0 <= k < |s.epochs| :: EpochRight(above, size, s.graph, s.epochs[k])
  }

  ghost predicate EpochsFollow(s: State) {
    && (forall k | 0 <= k < |s.epochs| - 1 :: Closed(s.epochs[k], s.epochs[k + 1].start))
    && (forall k, l | 0 <= k < l < |s.epochs| ::
         Advanced(s.epochs[k].parent, s.epochs[l].parent) && s.epochs[k].start < s.epochs[l].start &&
         Truth(s.graph, s.epochs[k].start, s.epochs[l].start) == Ordered)
  }

  predicate SpotRight(s: State, h: nat) {
    h in s.accesses ==>
      var p := s.accesses[h];
      p.epoch < |s.epochs| && p.member < |s.epochs[p.epoch].members| &&
      var m := s.epochs[p.epoch].members[p.member];
      0 < p.event < |m.at| && m.at[p.event] == h && p.event in m.course.accesses
  }

  /** Every access of an epoch is waited for by the barrier that ends it. */
  ghost predicate Waited(s: State, h: nat) {
    h in s.accesses && s.accesses[h].epoch + 1 < |s.epochs| ==>
      Truth(s.graph, h, s.epochs[s.accesses[h].epoch + 1].start) == Ordered
  }

  ghost predicate Inv(above: Label, size: nat, s: State) {
    && WellFormed(s.graph) && s.epochs != [] && Now(s).parent.kind.Implicit? && Now(s).parent.span >= 1
    && EpochsRight(above, size, s) && EpochsFollow(s)
    && (forall h: nat :: SpotRight(s, h)) && (forall h: nat :: Waited(s, h))
  }

  lemma InitInv(above: Label, parent: Segment, size: nat)
    requires TeamOf(parent, size)
    ensures Inv(above, size, Init(above, parent, size))
  {
    var s := Init(above, parent, size);
    forall i | 0 <= i < size ensures OnCourse(above, parent, s.epochs[0].members[i]) {
      var m := s.epochs[0].members[i];
      assert TaskSync.Run(above + [parent], m.own, [], m.course);
    }
  }

  // What is reachable within an epoch.

  /** Between events of one course the team's graph is the course's own. */
  lemma {:induction false} CourseReaches(g: Graph, start: nat, m: Member, x: nat, y: nat)
    requires WellFormed(g) && Embedded(g, start, m) && x < |m.at| && y < |m.at|
    ensures m.at[x] < |g| && m.at[y] < |g|
    ensures Reaches(g, m.at[x], m.at[y]) <==> Reaches(m.course.graph, x, y)
    decreases y
  {
    if y == 0 {
      if x > 0 {
        if Reaches(g, m.at[x], m.at[0]) { ReachesForward(g, m.at[x], m.at[0]); }
      }
    } else if x != y {
      assert m.at[x] != m.at[y];
      forall p: nat | p in m.course.graph[y] ensures p < y && m.at[p] in g[m.at[y]] && (Reaches(g, m.at[x], m.at[p]) <==> Reaches(m.course.graph, x, p)) {
        CourseReaches(g, start, m, x, p);
      }
      if Reaches(g, m.at[x], m.at[y]) {
        var q: nat :| q in g[m.at[y]] && Reaches(g, m.at[x], q);
        var p :| p in m.course.graph[y] && p < |m.at| && m.at[p] == q;
      }
    }
  }

  /** Nothing leads from one member's course to another's. */
  lemma {:induction false} CoursesApart(g: Graph, start: nat, m: Member, m': Member, x: nat, y: nat)
    requires WellFormed(g) && Embedded(g, start, m) && Embedded(g, start, m') && (Disjoint(m, m') || Disjoint(m', m))
    requires 0 < x < |m.at| && y < |m'.at|
    ensures m.at[x] < |g| && m'.at[y] < |g| && !Reaches(g, m.at[x], m'.at[y])
    decreases y
  {
    if y == 0 {
      if Reaches(g, m.at[x], m'.at[0]) { ReachesForward(g, m.at[x], m'.at[0]); }
    } else if Reaches(g, m.at[x], m'.at[y]) {
      assert m.at[x] != m'.at[y];
      var q: nat :| q in g[m'.at[y]] && Reaches(g, m.at[x], q);
      var p :| p in m'.course.graph[y] && p < |m'.at| && m'.at[p] == q;
      CoursesApart(g, start, m, m', x, p);
    }
  }

  /** An epoch's start leads to all its events. */
  lemma {:induction false} StartReaches(g: Graph, start: nat, m: Member, y: nat)
    requires WellFormed(g) && Embedded(g, start, m) && y < |m.at|
    requires forall e | 0 < e < |m.course.graph| :: m.course.graph[e] != {}
    ensures m.at[y] < |g| && Reaches(g, start, m.at[y])
    decreases y
  {
    if y > 0 {
      var p :| p in m.course.graph[y];
      StartReaches(g, start, m, p);
      assert m.at[p] in g[m.at[y]];
    }
  }

  // The graph grows.

  lemma EmbeddedGrows(g: Graph, preds: set<nat>, start: nat, m: Member)
    requires Embedded(g, start, m)
    ensures Embedded(g + [preds], start, m)
  {
    forall e | 0 < e < |m.at| ensures (g + [preds])[m.at[e]] == g[m.at[e]] {}
  }

  lemma EpochGrows(above: Label, size: nat, g: Graph, preds: set<nat>, ep: Epoch)
    requires EpochRight(above, size, g, ep)
    ensures EpochRight(above, size, g + [preds], ep)
  {
    forall i | 0 <= i < size ensures Embedded(g + [preds], ep.start, ep.members[i]) {
      EmbeddedGrows(g, preds, ep.start, ep.members[i]);
    }
  }

  lemma ImageGrows(es: set<nat>, at: seq<nat>, x: nat)
    requires forall e | e in es :: e < |at|
    ensures Image(es, at + [x]) == Image(es, at)
  {
    assert forall e: nat | e < |at| :: (at + [x])[e] == at[e];
  }

  /** A member's event joins the graph. */
  lemma EmbeddedJoins(g: Graph, start: nat, m: Member, c: TaskSync.State, preds: set<nat>)
    requires Embedded(g, start, m) && c.graph == m.course.graph + [preds] && forall p | p in preds :: p < |m.at|
    ensures Embedded(g + [Image(preds, m.at)], start, Member(m.own, c, m.at + [|g|]))
  {
    var g', at' := g + [Image(preds, m.at)], m.at + [|g|];
    forall e | 0 < e < |at'| ensures at'[e] < |g'| && g'[at'[e]] == Image(c.graph[e], at') {
      forall p | p in c.graph[e] ensures p < |m.at| {
        if e < |m.at| { assert c.graph[e] == m.course.graph[e]; }
      }
      ImageGrows(c.graph[e], m.at, |g|);
    }
    assert forall e, f | 0 <= e < f < |m.at| :: m.at[e] < m.at[f];
  }

  /** What a step of a course does to its graph and accesses. */
  lemma CourseStep(c: TaskSync.State, a: TaskSync.Action)
    requires TaskSync.Sane(c) && TaskSync.Enabled(c, a)
    ensures var c' := TaskSync.Apply(c, a);
      && (c'.graph == c.graph ==> c'.accesses == c.accesses && !IsAccess(a))
      && (c'.graph != c.graph ==>
           && |c'.graph| == |c.graph| + 1 && c'.graph == c.graph + [c'.graph[|c.graph|]] && c'.graph[|c.graph|] != {}
           && (forall p | p in c'.graph[|c.graph|] :: p < |c.graph|)
           && c'.accesses.Keys == c.accesses.Keys + if IsAccess(a) then {|c.graph|} else {})
  {
    match a
    case TaskWaitEnd => TaskSync.PredsInGraph(c, 0);
    case GroupEnd => TaskSync.PredsInGraph(c, TaskSync.GroupStart(c));
    case ChildAccess(i) => assert TaskSync.SaneChild(c, c.children[i]);
    case _ =>
  }

  lemma CourseSane(above: Label, parent: Segment, m: Member)
    requires OnCourse(above, parent, m)
    ensures TaskSync.Inv(m.course) && TaskSync.Sane(m.course) && m.course.above == above + [parent]
  {
    var acts :| TaskSync.Run(above + [parent], m.own, acts, m.course);
    TaskSync.RunInv(above + [parent], m.own, acts, m.course);
  }

  lemma CourseGoesOn(above: Label, parent: Segment, m: Member, a: TaskSync.Action, m': Member)
    requires OnCourse(above, parent, m) && TaskSync.Enabled(m.course, a) && TaskSync.Sane(m.course)
    requires m'.own == m.own && m'.course == TaskSync.Apply(m.course, a)
    ensures OnCourse(above, parent, m')
  {
    var acts :| TaskSync.Run(above + [parent], m.own, acts, m.course);
    TaskSync.EnabledStepsRun(above + [parent], m.own, acts, m.course, a);
    CourseStep(m.course, a);
  }

  lemma ReplaceMember(above: Label, size: nat, g: Graph, ep: Epoch, i: nat, m: Member)
    requires EpochRight(above, size, g, ep) && i < size
    requires OnCourse(above, ep.parent, m) && Embedded(g, ep.start, m) && IsMember(size, i, m)
    requires forall j | 0 <= j < size && j != i :: Disjoint(m, ep.members[j]) && Disjoint(ep.members[j], m)
    ensures EpochRight(above, size, g, ep.(members := ep.members[i := m]))
  {
  }

  lemma StillDisjoint(g: Graph, start: nat, m: Member, m': Member, other: Member)
    requires Embedded(g, start, other) && (Disjoint(m, other) || Disjoint(other, m))
    requires m'.at == m.at || m'.at == m.at + [|g|]
    ensures Disjoint(m', other) && Disjoint(other, m')
  {
  }

  lemma FollowGrows(s: State, s': State, preds: set<nat>)
    requires WellFormed(s.graph) && EpochsFollow(s) && (forall p | p in preds :: p < |s.graph|)
    requires s'.graph == s.graph || s'.graph == s.graph + [preds]
    requires |s'.epochs| >= |s.epochs| && (forall k | 0 <= k < |s.epochs| :: s.epochs[k].start < |s.graph|)
    requires forall k | 0 <= k < |s.epochs| :: s'.epochs[k].start == s.epochs[k].start && s'.epochs[k].parent == s.epochs[k].parent
    requires forall k | 0 <= k < |s.epochs| - 1 :: s'.epochs[k] == s.epochs[k]
    ensures forall k | 0 <= k < |s.epochs| - 1 :: Closed(s'.epochs[k], s'.epochs[k + 1].start)
    ensures forall k, l | 0 <= k < l < |s.epochs| ::
      Advanced(s'.epochs[k].parent, s'.epochs[l].parent) && s'.epochs[k].start < s'.epochs[l].start &&
      Truth(s'.graph, s'.epochs[k].start, s'.epochs[l].start) == Ordered
  {
    Grow(s.graph, preds);
  }

  // A step of a member.

  /** The member that moves, and what the graph gains. */
  ghost predicate Moves(s: State, i: nat, a: TaskSync.Action, m: Member, m': Member, s': State, preds: set<nat>) {
    && s.epochs != [] && i < |Now(s).members| && m == Now(s).members[i]
    && m'.own == m.own && TaskSync.Sane(m.course) && TaskSync.Enabled(m.course, a) && m'.course == TaskSync.Apply(m.course, a)
    && s'.epochs == s.epochs[|s.epochs| - 1 := Now(s).(members := Now(s).members[i := m'])]
    && (forall p | p in preds :: p < |s.graph|)
    && ((s'.graph == s.graph && m'.at == m.at && m'.course.graph == m.course.graph && s'.accesses == s.accesses) ||
        (s'.graph == s.graph + [preds] && m'.at == m.at + [|s.graph|] && m'.course.graph != m.course.graph &&
         s'.accesses == if IsAccess(a) then s.accesses[|s.graph| := Spot(|s.epochs| - 1, i, |m.course.graph|)] else s.accesses))
  }

  lemma StepMoves(above: Label, size: nat, s: State, i: nat, a: TaskSync.Action) returns (m: Member, m': Member, preds: set<nat>)
    requires Inv(above, size, s) && Enabled(s, Step(i, a)) && SaneFor(s, Step(i, a))
    ensures Moves(s, i, a, m, m', DoStep(s, i, a), preds) && Embedded(DoStep(s, i, a).graph, Now(s).start, m')
  {
    var ep := Now(s);
    m := ep.members[i];
    var c, e := TaskSync.Apply(m.course, a), |m.course.graph|;
    assert EpochRight(above, size, s.graph, ep);
    assert Embedded(s.graph, ep.start, m);
    CourseStep(m.course, a);
    if c.graph == m.course.graph {
      m', preds := m.(course := c), {};
    } else {
      m', preds := Member(m.own, c, m.at + [|s.graph|]), Image(c.graph[e], m.at);
      EmbeddedJoins(s.graph, ep.start, m, c, c.graph[e]);
    }
  }

  lemma StepEpochs(above: Label, size: nat, s: State, i: nat, a: TaskSync.Action, m: Member, m': Member, s': State, preds: set<nat>)
    requires EpochsRight(above, size, s) && Moves(s, i, a, m, m', s', preds) && Embedded(s'.graph, Now(s).start, m')
    ensures EpochsRight(above, size, s')
  {
    var k := |s.epochs| - 1;
    forall l | 0 <= l < |s.epochs| ensures EpochRight(above, size, s'.graph, s.epochs[l]) {
      assert EpochRight(above, size, s.graph, s.epochs[l]);
      if s'.graph != s.graph { EpochGrows(above, size, s.graph, preds, s.epochs[l]); }
    }
    assert EpochRight(above, size, s.graph, s.epochs[k]);
    CourseGoesOn(above, s.epochs[k].parent, m, a, m');
    forall j | 0 <= j < size && j != i ensures Disjoint(m', s.epochs[k].members[j]) && Disjoint(s.epochs[k].members[j], m') {
      StillDisjoint(s.graph, s.epochs[k].start, m, m', s.epochs[k].members[j]);
    }
    ReplaceMember(above, size, s'.graph, s.epochs[k], i, m');
  }

  /** A spot that is there stays right. */
  lemma OldSpot(s: State, i: nat, m: Member, m': Member, s': State, h: nat)
    requires SpotRight(s, h) && h in s.accesses && h in s'.accesses && s'.accesses[h] == s.accesses[h]
    requires s.epochs != [] && i < |Now(s).members| && m == Now(s).members[i]
    requires s'.epochs == s.epochs[|s.epochs| - 1 := Now(s).(members := Now(s).members[i := m'])]
    requires m.at <= m'.at && m.course.accesses.Keys <= m'.course.accesses.Keys
    ensures SpotRight(s', h)
  {
    var p := s.accesses[h];
    MovedMember(s, i, m, m', s', p);
    if p.epoch == |s.epochs| - 1 && p.member == i { assert m'.at[p.event] == m.at[p.event]; }
  }

  lemma MovedMember(s: State, i: nat, m: Member, m': Member, s': State, p: Spot)
    requires s.epochs != [] && i < |Now(s).members| && m == Now(s).members[i]
    requires s'.epochs == s.epochs[|s.epochs| - 1 := Now(s).(members := Now(s).members[i := m'])]
    requires p.epoch < |s.epochs| && p.member < |s.epochs[p.epoch].members|
    ensures p.epoch < |s'.epochs| && p.member < |s'.epochs[p.epoch].members|
    ensures s'.epochs[p.epoch].members[p.member] ==
      if p.epoch == |s.epochs| - 1 && p.member == i then m' else s.epochs[p.epoch].members[p.member]
  {
  }

  lemma NewSpot(s: State, i: nat, a: TaskSync.Action, m: Member, m': Member, s': State, preds: set<nat>)
    requires Moves(s, i, a, m, m', s', preds) && s'.graph != s.graph && IsAccess(a) && |m.at| == |m.course.graph| >= 1
    requires |m.course.graph| in m'.course.accesses
    ensures SpotRight(s', |s.graph|)
  {
  }

  lemma StepSpots(above: Label, size: nat, s: State, i: nat, a: TaskSync.Action, m: Member, m': Member, s': State, preds: set<nat>, h: nat)
    requires EpochsRight(above, size, s) && Moves(s, i, a, m, m', s', preds) && SpotRight(s, h)
    requires |m.at| == |m.course.graph| >= 1 && (h in s.accesses ==> h < |s.graph|) && h in s'.accesses
    ensures SpotRight(s', h)
  {
    CourseStep(m.course, a);
    if h in s.accesses {
      OldSpot(s, i, m, m', s', h);
    } else {
      NewSpot(s, i, a, m, m', s', preds);
    }
  }

  lemma StepInv(above: Label, size: nat, s: State, i: nat, a: TaskSync.Action)
    requires Inv(above, size, s) && Enabled(s, Step(i, a)) && SaneFor(s, Step(i, a))
    ensures Inv(above, size, DoStep(s, i, a))
  {
    var s' := DoStep(s, i, a);
    var m, m', preds := StepMoves(above, size, s, i, a);
    Grow(s.graph, preds);
    StepEpochs(above, size, s, i, a, m, m', s', preds);
    assert forall k | 0 <= k < |s.epochs| :: EpochRight(above, size, s.graph, s.epochs[k]);
    FollowGrows(s, s', preds);
    forall h: nat ensures SpotRight(s', h) && Waited(s', h) {
      StepSpot(above, size, s, i, a, m, m', s', preds, h);
    }
  }

  lemma StepSpot(above: Label, size: nat, s: State, i: nat, a: TaskSync.Action, m: Member, m': Member, s': State, preds: set<nat>, h: nat)
    requires Inv(above, size, s) && Moves(s, i, a, m, m', s', preds)
    ensures SpotRight(s', h) && Waited(s', h)
  {
    assert SpotRight(s, h) && Waited(s, h);
    assert EpochRight(above, size, s.graph, Now(s)) && Embedded(s.graph, Now(s).start, m);
    SpotInGraph(above, size, s, h);
    if h in s'.accesses { StepSpots(above, size, s, i, a, m, m', s', preds, h); }
    StartsInGraph(above, size, s);
    StepWaited(s, i, a, m, m', s', preds, h);
  }

  lemma StepWaited(s: State, i: nat, a: TaskSync.Action, m: Member, m': Member, s': State, preds: set<nat>, h: nat)
    requires WellFormed(s.graph) && Waited(s, h) && Moves(s, i, a, m, m', s', preds)
    requires forall k | 0 <= k < |s.epochs| :: s.epochs[k].start < |s.graph|
    requires h in s.accesses ==> h < |s.graph|
    ensures Waited(s', h)
  {
    Grow(s.graph, preds);
  }

  lemma SpotInGraph(above: Label, size: nat, s: State, h: nat)
    requires EpochsRight(above, size, s) && SpotRight(s, h)
    ensures h in s.accesses ==> h < |s.graph|
  {
    if h in s.accesses {
      assert EpochRight(above, size, s.graph, s.epochs[s.accesses[h].epoch]);
    }
  }

  // A barrier.

  lemma BumpAdvances(p: Segment)
    requires p.kind.Implicit? && p.span >= 1 && p.offset + p.span < FIELD16
    ensures Advanced(p, Labels.Bump(p)) && Labels.Bump(p).offset == p.offset + p.span
  {
    var q, r := p.offset / p.span, p.offset % p.span;
    assert p.offset + p.span == p.span * (q + 1) + r;
    RemainderIsUnique(p.offset + p.span, p.span, q + 1, r);
  }

  lemma OwnGoesOn(above: Label, parent: Segment, size: nat, i: nat, m: Member)
    requires OnCourse(above, parent, m) && IsMember(size, i, m) && MayWait(m)
    ensures IsMember(size, i, m.(own := OwnNow(m)))
  {
    var acts :| TaskSync.Run(above + [parent], m.own, acts, m.course);
    TaskSync.RunInv(above + [parent], m.own, acts, m.course);
    TaskVerdicts.RunLabels(above + [parent], m.own, acts, m.course);
    TaskVerdicts.IdsFit(above + [parent], m.own, acts, m.course);
    TaskVerdicts.SegmentFields(m.own, m.course.ops, TaskSync.Now(m.course), OwnNow(m));
    TaskGroups.Counters(m.own, m.course.ops, |m.course.ops|);
  }

  function WaitedFor(ep: Epoch): set<nat> {
    set i, p | 0 <= i < |ep.members| && p in LastEvents(ep.members[i]) :: p
  }

  lemma LastsInGraph(above: Label, g: Graph, start: nat, parent: Segment, m: Member)
    requires OnCourse(above, parent, m) && Embedded(g, start, m)
    ensures forall p | p in LastEvents(m) :: p < |g|
    ensures forall e | e == m.course.last || e in TaskSync.LastEvents(m.course, 0) :: e < |m.at| && m.at[e] in LastEvents(m)
  {
    CourseSane(above, parent, m);
    TaskSync.PredsInGraph(m.course, 0);
    forall e: nat | e < |m.at| ensures m.at[e] < |g| { assert e == 0 || 0 < e; }
  }

  lemma WaitedInGraph(above: Label, size: nat, g: Graph, ep: Epoch)
    requires EpochRight(above, size, g, ep)
    ensures forall p | p in WaitedFor(ep) :: p < |g|
  {
    forall i | 0 <= i < size ensures forall p | p in LastEvents(ep.members[i]) :: p < |g| {
      LastsInGraph(above, g, ep.start, ep.parent, ep.members[i]);
    }
  }

  /** The barrier is after every access of the epoch. */
  lemma BarrierAfterAccess(above: Label, size: nat, g: Graph, ep: Epoch, i: nat, e: nat)
    requires WellFormed(g) && EpochRight(above, size, g, ep) && i < size
    requires e in ep.members[i].course.accesses && e < |ep.members[i].at|
    ensures ep.members[i].at[e] < |g| && exists p | p in WaitedFor(ep) :: Truth(g, ep.members[i].at[e], p) == Ordered
  {
    var m := ep.members[i];
    CourseSane(above, ep.parent, m);
    TaskSync.TaskWaitAfterAll(m.course, e);
    var p :| p in {m.course.last} + TaskSync.LastEvents(m.course, 0) && Truth(m.course.graph, e, p) == Ordered;
    LastsInGraph(above, g, ep.start, ep.parent, m);
    CourseReaches(g, ep.start, m, e, p);
    assert m.at[p] in WaitedFor(ep);
  }

  /** And after the barrier before it. */
  lemma BarrierAfterStart(above: Label, size: nat, g: Graph, ep: Epoch)
    requires WellFormed(g) && EpochRight(above, size, g, ep) && size >= 1
    ensures exists p | p in WaitedFor(ep) :: Truth(g, ep.start, p) == Ordered
  {
    var m := ep.members[0];
    LastsInGraph(above, g, ep.start, ep.parent, m);
    StartReaches(g, ep.start, m, m.course.last);
    assert m.at[m.course.last] in WaitedFor(ep);
  }

  lemma NewEpochRight(above: Label, size: nat, s: State)
    requires EpochsRight(above, size, s) && Enabled(s, Barrier)
    ensures EpochRight(above, size, DoBarrier(above, s).graph, DoBarrier(above, s).epochs[|s.epochs|])
  {
    var s', ep := DoBarrier(above, s), Now(s);
    var next := s'.epochs[|s.epochs|];
    assert EpochRight(above, size, s.graph, ep);
    forall i | 0 <= i < size
      ensures OnCourse(above, next.parent, next.members[i]) && IsMember(size, i, next.members[i])
      ensures Embedded(s'.graph, next.start, next.members[i])
    {
      OwnGoesOn(above, ep.parent, size, i, ep.members[i]);
      assert TaskSync.Run(above + [next.parent], next.members[i].own, [], next.members[i].course);
    }
  }

  lemma AdvancedTwice(p: Segment, q: Segment, r: Segment)
    requires (p == q || Advanced(p, q)) && Advanced(q, r)
    ensures Advanced(p, r)
  {
  }

  lemma NewEpochFollows(above: Label, size: nat, s: State, k: nat)
    requires Inv(above, size, s) && Enabled(s, Barrier) && size >= 1 && k < |s.epochs|
    ensures var s', l := DoBarrier(above, s), |s.epochs|;
      && Advanced(s.epochs[k].parent, s'.epochs[l].parent) && s.epochs[k].start < s'.epochs[l].start
      && Truth(s'.graph, s.epochs[k].start, s'.epochs[l].start) == Ordered
  {
    var ep, s' := Now(s), DoBarrier(above, s);
    assert EpochRight(above, size, s.graph, ep) && EpochRight(above, size, s.graph, s.epochs[k]);
    BumpAdvances(ep.parent);
    AdvancedTwice(s.epochs[k].parent, ep.parent, Labels.Bump(ep.parent));
    WaitedInGraph(above, size, s.graph, ep);
    Grow(s.graph, WaitedFor(ep));
    BarrierAfterStart(above, size, s.graph, ep);
    var p :| p in WaitedFor(ep) && Truth(s.graph, ep.start, p) == Ordered;
    if k < |s.epochs| - 1 { ReachesTransitive(s.graph, s.epochs[k].start, ep.start, p); }
    assert Truth(s.graph, s.epochs[k].start, p) == Ordered;
  }

  lemma BarrierWaits(above: Label, size: nat, s: State, h: nat)
    requires Inv(above, size, s) && Enabled(s, Barrier)
    ensures SpotRight(DoBarrier(above, s), h) && Waited(DoBarrier(above, s), h)
  {
    var ep := Now(s);
    assert SpotRight(s, h) && Waited(s, h) && EpochRight(above, size, s.graph, ep);
    SpotInGraph(above, size, s, h);
    WaitedInGraph(above, size, s.graph, ep);
    Grow(s.graph, WaitedFor(ep));
    if h in s.accesses {
      var p := s.accesses[h];
      if p.epoch == |s.epochs| - 1 {
        BarrierAfterAccess(above, size, s.graph, ep, p.member, p.event);
      } else {
        assert EpochRight(above, size, s.graph, s.epochs[p.epoch + 1]);
      }
    }
  }

  lemma BarrierInv(above: Label, size: nat, s: State)
    requires Inv(above, size, s) && Enabled(s, Barrier) && size >= 1
    ensures Inv(above, size, DoBarrier(above, s))
  {
    var s', ep := DoBarrier(above, s), Now(s);
    assert forall k | 0 <= k < |s.epochs| :: EpochRight(above, size, s.graph, s.epochs[k]);
    WaitedInGraph(above, size, s.graph, ep);
    Grow(s.graph, WaitedFor(ep));
    forall k | 0 <= k < |s'.epochs| ensures EpochRight(above, size, s'.graph, s'.epochs[k]) {
      if k < |s.epochs| {
        EpochGrows(above, size, s.graph, WaitedFor(ep), s.epochs[k]);
      } else {
        NewEpochRight(above, size, s);
      }
    }
    BarrierFollows(above, size, s);
    BumpAdvances(ep.parent);
    forall h: nat ensures SpotRight(s', h) && Waited(s', h) { BarrierWaits(above, size, s, h); }
  }

  lemma BarrierCloses(above: Label, size: nat, g: Graph, ep: Epoch)
    requires EpochRight(above, size, g, ep)
    ensures Closed(ep, |g|)
  {
  }

  lemma StartsInGraph(above: Label, size: nat, s: State)
    requires EpochsRight(above, size, s)
    ensures forall k | 0 <= k < |s.epochs| :: s.epochs[k].start < |s.graph| && EpochRight(above, size, s.graph, s.epochs[k])
  {
  }

  lemma BarrierFollows(above: Label, size: nat, s: State)
    requires Inv(above, size, s) && Enabled(s, Barrier) && size >= 1
    ensures EpochsFollow(DoBarrier(above, s))
  {
    var s', ep := DoBarrier(above, s), Now(s);
    StartsInGraph(above, size, s);
    WaitedInGraph(above, size, s.graph, ep);
    FollowGrows(s, s', WaitedFor(ep));
    BarrierCloses(above, size, s.graph, ep);
    forall k | 0 <= k < |s.epochs|
      ensures Advanced(s.epochs[k].parent, s'.epochs[|s.epochs|].parent) && s.epochs[k].start < s'.epochs[|s.epochs|].start
      ensures Truth(s'.graph, s.epochs[k].start, s'.epochs[|s.epochs|].start) == Ordered
    {
      NewEpochFollows(above, size, s, k);
    }
  }

  lemma {:induction false} RunInv(above: Label, parent: Segment, size: nat, acts: seq<Action>, s: State)
    requires Run(above, parent, size, acts, s) && TeamOf(parent, size)
    ensures Inv(above, size, s)
  {
    if acts == [] {
      InitInv(above, parent, size);
    } else {
      var n := |acts| - 1;
      var s0 :| Run(above, parent, size, acts[..n], s0) && Enabled(s0, acts[n]) && SaneFor(s0, acts[n]) &&
        s == Apply(above, s0, acts[n]);
      RunInv(above, parent, size, acts[..n], s0);
      match acts[n]
      case Step(i, a) => StepInv(above, size, s0, i, a);
      case Barrier => BarrierInv(above, size, s0);
    }
  }

  /** Every enabled step continues a run. */
  lemma EnabledStepsRun(above: Label, parent: Segment, size: nat, acts: seq<Action>, s: State, a: Action)
    requires Run(above, parent, size, acts, s) && TeamOf(parent, size) && Enabled(s, a)
    ensures SaneFor(s, a) && Run(above, parent, size, acts + [a], Apply(above, s, a))
  {
    RunInv(above, parent, size, acts, s);
    if a.Step? {
      assert EpochRight(above, size, s.graph, Now(s));
      CourseSane(above, Now(s).parent, Now(s).members[a.i]);
    }
    RunExtends(above, parent, size, acts, s, a);
  }

  lemma RunExtends(above: Label, parent: Segment, size: nat, acts: seq<Action>, s: State, a: Action)
    requires Run(above, parent, size, acts, s) && Enabled(s, a) && SaneFor(s, a)
    ensures Run(above, parent, size, acts + [a], Apply(above, s, a))
  {
    assert (acts + [a])[..|acts|] == acts;
  }

  // The theorem.

  /** The member and the access of a spot. */
  function MemberAt(s: State, p: Spot): Member
    requires p.epoch < |s.epochs| && p.member < |s.epochs[p.epoch].members|
  {
    s.epochs[p.epoch].members[p.member]
  }

  function AccessAt(s: State, p: Spot): TaskSync.Access
    requires p.epoch < |s.epochs| && p.member < |s.epochs[p.epoch].members| && p.event in MemberAt(s, p).course.accesses
  {
    MemberAt(s, p).course.accesses[p.event]
  }

  /** The label an access was made with, read through a store of its member in which marks may
      have been made since. */
  function LabelAt(s: State, p: Spot, st: seq<Segment>): Label
    requires p.epoch < |s.epochs| && p.member < |s.epochs[p.epoch].members| && p.event in MemberAt(s, p).course.accesses
  {
    TaskVerdicts.LabelOf(MemberAt(s, p).course.(store := st), AccessAt(s, p))
  }

  lemma SpotFacts(above: Label, size: nat, s: State, h: nat)
    requires Inv(above, size, s) && h in s.accesses
    ensures var p := s.accesses[h];
      && p.epoch < |s.epochs| && |s.epochs[p.epoch].members| == size && p.member < size
      && h < |s.graph| && EpochRight(above, size, s.graph, s.epochs[p.epoch])
      && 0 < p.event < |MemberAt(s, p).at| && MemberAt(s, p).at[p.event] == h && p.event in MemberAt(s, p).course.accesses
  {
    assert SpotRight(s, h);
    assert EpochRight(above, size, s.graph, s.epochs[s.accesses[h].epoch]);
  }

  lemma SpotBounds(above: Label, size: nat, s: State, h: nat)
    requires Inv(above, size, s) && h in s.accesses
    ensures var k := s.accesses[h].epoch;
      k < |s.epochs| && s.epochs[k].start < h && (k + 1 < |s.epochs| ==> h < s.epochs[k + 1].start)
  {
    SpotFacts(above, size, s, h);
    var k := s.accesses[h].epoch;
    assert Embedded(s.graph, s.epochs[k].start, MemberAt(s, s.accesses[h]));
    if k + 1 < |s.epochs| { assert Closed(s.epochs[k], s.epochs[k + 1].start); }
  }

  lemma StartsInOrder(s: State)
    requires EpochsFollow(s)
    ensures forall k, l | 0 <= k <= l < |s.epochs| :: s.epochs[k].start <= s.epochs[l].start
  {
  }

  /** Of two accesses the later is in no earlier epoch. */
  lemma EpochsInOrder(above: Label, size: nat, s: State, h: nat, c: nat)
    requires Inv(above, size, s) && h in s.accesses && c in s.accesses && h < c
    ensures s.accesses[h].epoch <= s.accesses[c].epoch
  {
    SpotBounds(above, size, s, h);
    SpotBounds(above, size, s, c);
    StartsInOrder(s);
  }

  lemma StartsReach(s: State, k: nat, l: nat)
    requires WellFormed(s.graph) && EpochsFollow(s) && k <= l < |s.epochs| && s.epochs[k].start < |s.graph|
    ensures s.epochs[l].start < |s.graph| && Reaches(s.graph, s.epochs[k].start, s.epochs[l].start)
  {
  }

  lemma WaitedReaches(above: Label, size: nat, s: State, h: nat)
    requires Inv(above, size, s) && h in s.accesses && s.accesses[h].epoch + 1 < |s.epochs|
    ensures var next := s.epochs[s.accesses[h].epoch + 1].start;
      h < |s.graph| && next < |s.graph| && Reaches(s.graph, h, next)
  {
    assert Waited(s, h);
  }

  lemma StartReachesSpot(above: Label, size: nat, s: State, c: nat)
    requires Inv(above, size, s) && c in s.accesses
    ensures var k := s.accesses[c].epoch;
      k < |s.epochs| && s.epochs[k].start < |s.graph| && c < |s.graph| && Reaches(s.graph, s.epochs[k].start, c)
  {
    SpotFacts(above, size, s, c);
    var q := s.accesses[c];
    StartReaches(s.graph, s.epochs[q.epoch].start, MemberAt(s, q), q.event);
  }

  lemma EarlierEpochReaches(above: Label, size: nat, s: State, h: nat, c: nat)
    requires Inv(above, size, s) && h in s.accesses && c in s.accesses && s.accesses[h].epoch < s.accesses[c].epoch
    ensures h < |s.graph| && c < |s.graph| && Reaches(s.graph, h, c)
  {
    StartReachesSpot(above, size, s, c);
    WaitedReaches(above, size, s, h);
    var k, l := s.accesses[h].epoch, s.accesses[c].epoch;
    StartsReach(s, k + 1, l);
    ReachesTransitive(s.graph, s.epochs[k + 1].start, s.epochs[l].start, c);
    ReachesTransitive(s.graph, h, s.epochs[k + 1].start, c);
  }

  /** In every run, an access reaches a later one exactly when a barrier is between them, or they
      are of one member and its taskwaits, taskgroups and program order relate them. */
  lemma TeamReachability(above: Label, parent: Segment, size: nat, acts: seq<Action>, s: State, h: nat, c: nat)
    requires Run(above, parent, size, acts, s) && TeamOf(parent, size) && h in s.accesses && c in s.accesses && h < c
    ensures Inv(above, size, s) && c < |s.graph|
    ensures var p, q := s.accesses[h], s.accesses[c];
      && p.epoch < |s.epochs| && p.member < |s.epochs[p.epoch].members|
      && (p.epoch == q.epoch && p.member == q.member ==>
           WellFormed(MemberAt(s, p).course.graph) && p.event < q.event < |MemberAt(s, p).course.graph|)
      && (Reaches(s.graph, h, c) <==>
           p.epoch < q.epoch ||
           (p.epoch == q.epoch && p.member == q.member && Reaches(MemberAt(s, p).course.graph, p.event, q.event)))
  {
    RunInv(above, parent, size, acts, s);
    SpotFacts(above, size, s, h);
    SpotFacts(above, size, s, c);
    EpochsInOrder(above, size, s, h, c);
    var p, q := s.accesses[h], s.accesses[c];
    var start := s.epochs[p.epoch].start;
    if p.epoch < q.epoch {
      EarlierEpochReaches(above, size, s, h, c);
    } else if p.member == q.member {
      CourseReaches(s.graph, start, MemberAt(s, p), p.event, q.event);
    } else {
      CoursesApart(s.graph, start, MemberAt(s, p), MemberAt(s, q), p.event, q.event);
    }
  }

  lemma CourseTail(above: Label, parent: Segment, m: Member, e: nat, st: seq<Segment>) returns (x: Segment, tail: Label)
    requires OnCourse(above, parent, m) && TaskVerdicts.Begins(m.own) && e in m.course.accesses
    requires TaskVerdicts.Remarked(m.course, st)
    ensures TaskVerdicts.LabelOf(m.course.(store := st), m.course.accesses[e]) == above + [parent] + ([x] + tail)
    ensures x.kind.Implicit? && x.span == m.own.span && x.offset == m.own.offset && (tail == [] || tail[0].kind.Explicit?)
  {
    var acts :| TaskSync.Run(above + [parent], m.own, acts, m.course);
    TaskSync.RunInv(above + [parent], m.own, acts, m.course);
    TaskVerdicts.RunLabels(above + [parent], m.own, acts, m.course);
    TaskVerdicts.RemarkedInv(m.course, m.own, st);
    var c, a := m.course.(store := st), m.course.accesses[e];
    assert TaskSync.AccessRight(c, a) && TaskVerdicts.AccessHolds(c, m.own, a);
    TaskVerdicts.TailHolds(c, m.own, a);
    var t := TaskVerdicts.Tail(c, a);
    TaskVerdicts.SegmentFields(m.own, c.ops, a.at, t[0]);
    x, tail := t[0], t[1..];
    assert t == [x] + tail;
  }

  /** What a label of a run begins with, after the labels of the enclosing tasks. */
  lemma LabelBegins(above: Label, size: nat, s: State, h: nat, st: seq<Segment>) returns (x: Segment, tail: Label)
    requires Inv(above, size, s) && h in s.accesses
    requires SpotRight(s, h) && TaskVerdicts.Remarked(MemberAt(s, s.accesses[h]).course, st)
    ensures LabelAt(s, s.accesses[h], st) == above + [s.epochs[s.accesses[h].epoch].parent, x] + tail
    ensures x.kind.Implicit? && x.span == size && x.offset == s.accesses[h].member && (tail == [] || tail[0].kind.Explicit?)
  {
    SpotFacts(above, size, s, h);
    var p := s.accesses[h];
    var parent := s.epochs[p.epoch].parent;
    x, tail := CourseTail(above, parent, MemberAt(s, p), p.event, st);
    assert above + [parent] + ([x] + tail) == above + [parent, x] + tail;
  }

  /** The verdict on any two accesses of a team: across a barrier ordered, between members
      concurrent, within one member's epoch as module TaskVerdicts tells. It never aborts. */
  lemma TeamVerdict(above: Label, parent: Segment, size: nat, acts: seq<Action>, s: State, h: nat, c: nat,
    st: seq<Segment>, st': seq<Segment>)
    requires Run(above, parent, size, acts, s) && TeamOf(parent, size) && h in s.accesses && c in s.accesses && h < c
    requires SpotRight(s, h) && TaskVerdicts.Remarked(MemberAt(s, s.accesses[h]).course, st)
    requires SpotRight(s, c) && TaskVerdicts.Remarked(MemberAt(s, s.accesses[c]).course, st')
    requires s.accesses[h].epoch == s.accesses[c].epoch && s.accesses[h].member == s.accesses[c].member ==> st == st'
    ensures var p, q := s.accesses[h], s.accesses[c];
      HappensBefore(LabelAt(s, p, st), LabelAt(s, q, st')) ==
        if p.epoch != q.epoch then Ordered
        else if p.member != q.member then Concurrent
        else TaskVerdicts.LabelVerdict(MemberAt(s, p).own, MemberAt(s, p).course.ops, AccessAt(s, p), AccessAt(s, q))
  {
    RunInv(above, parent, size, acts, s);
    EpochsInOrder(above, size, s, h, c);
    SpotFacts(above, size, s, h);
    SpotFacts(above, size, s, c);
    var p, q := s.accesses[h], s.accesses[c];
    if p.epoch == q.epoch && p.member == q.member {
      var m := MemberAt(s, p);
      var courseActs :| TaskSync.Run(above + [s.epochs[p.epoch].parent], m.own, courseActs, m.course);
      TeamReachability(above, parent, size, acts, s, h, c);
      TaskVerdicts.PairVerdictRemarked(above + [s.epochs[p.epoch].parent], m.own, courseActs, m.course, st, p.event, q.event);
    } else {
      var x, t := LabelBegins(above, size, s, h, st);
      var y, u := LabelBegins(above, size, s, c, st');
      PartedVerdict(above, s.epochs[p.epoch].parent, s.epochs[q.epoch].parent, x, y, t, u, size);
    }
  }

  lemma PartedVerdict(above: Label, v: Segment, w: Segment, x: Segment, y: Segment, t: Label, u: Label, size: nat)
    requires v == w || Advanced(v, w)
    requires x.kind.Implicit? && y.kind.Implicit? && x.span == size && y.span == size && size >= 2
    requires x.offset < size && y.offset < size && (v == w ==> x.offset != y.offset)
    requires (t == [] || t[0].kind.Explicit?) && (u == [] || u[0].kind.Explicit?)
    ensures HappensBefore(above + [v, x] + t, above + [w, y] + u) == if v == w then Concurrent else Ordered
  {
    if v == w {
      assert above + [v, x] + t == (above + [v]) + ([x] + t) && above + [w, y] + u == (above + [v]) + ([y] + u);
      ResiduesDiffer(x.offset, y.offset, size);
      MembersPart(above + [v], [x] + t, [y] + u);
    } else {
      assert above + [v, x] + t == above + ([v, x] + t) && above + [w, y] + u == above + ([w, y] + u);
      AcrossBarrier(above, [v, x] + t, [w, y] + u);
    }
  }

  lemma ResiduesDiffer(i: nat, j: nat, n: nat)
    requires i < n && j < n && i != j
    ensures i % n != j % n
  {
    RemainderIsUnique(i, n, 0, i);
    RemainderIsUnique(j, n, 0, j);
  }

  lemma AcrossBarrier(above: Label, h: Label, c: Label)
    requires h != [] && c != [] && Advanced(h[0], c[0])
    ensures HappensBefore(above + h, above + c) == Ordered
  {
    SameMeans(h[0], c[0]);
    if h[0].span == 1 { AlonePart(above, h, c); } else { MembersPart(above, h, c); }
  }

  /** The verdict is what the event graph says, for whatever marks have been made since. */
  ghost predicate RightlyOrdered(s: State, h: nat, c: nat, st: seq<Segment>, st': seq<Segment>)
    requires SpotRight(s, h) && SpotRight(s, c) && h in s.accesses && c in s.accesses
  {
    HappensBefore(LabelAt(s, s.accesses[h], st), LabelAt(s, s.accesses[c], st')) == Truth(s.graph, h, c)
  }

  /** Across members and barriers the verdict on explicit and implicit tasks is always right;
      within one member's epoch it is right exactly when that of module TaskVerdicts is. */
  lemma TeamExactness(above: Label, parent: Segment, size: nat, acts: seq<Action>, s: State, h: nat, c: nat,
    st: seq<Segment>, st': seq<Segment>)
    requires Run(above, parent, size, acts, s) && TeamOf(parent, size) && h in s.accesses && c in s.accesses && h < c
    requires SpotRight(s, h) && TaskVerdicts.Remarked(MemberAt(s, s.accesses[h]).course, st)
    requires SpotRight(s, c) && TaskVerdicts.Remarked(MemberAt(s, s.accesses[c]).course, st')
    requires s.accesses[h].epoch == s.accesses[c].epoch && s.accesses[h].member == s.accesses[c].member ==> st == st'
    ensures var p, q := s.accesses[h], s.accesses[c];
      if p.epoch != q.epoch || p.member != q.member then RightlyOrdered(s, h, c, st, st')
      else RightlyOrdered(s, h, c, st, st') <==> TaskVerdicts.RightlyOrdered(MemberAt(s, p).course, p.event, q.event)
  {
    TeamVerdict(above, parent, size, acts, s, h, c, st, st');
    TeamReachability(above, parent, size, acts, s, h, c);
    var p, q := s.accesses[h], s.accesses[c];
    EpochsInOrder(above, size, s, h, c);
    if p.epoch == q.epoch && p.member == q.member {
      SpotFacts(above, size, s, h);
      var m := MemberAt(s, p);
      var courseActs :| TaskSync.Run(above + [s.epochs[p.epoch].parent], m.own, courseActs, m.course);
      TaskVerdicts.PairVerdict(above + [s.epochs[p.epoch].parent], m.own, courseActs, m.course, p.event, q.event);
    }
  }

  /** A barrier makes of every member's label what the transition of Label.cpp makes of it. */
  lemma BarrierIsTransition(above: Label, s: State, i: nat)
    requires Enabled(s, Barrier) && i < |Now(s).members|
    requires var m := Now(s).members[i]; m.course.above == above + [Now(s).parent] && m.course.seg < |m.course.store|
    ensures TaskVerdicts.ParentLabel(Now(DoBarrier(above, s)).members[i].course) ==
      Labels.BarrierEnd(TaskVerdicts.ParentLabel(Now(s).members[i].course))
  {
    var m := Now(s).members[i];
    var l := TaskVerdicts.ParentLabel(m.course);
    assert l == above + [Now(s).parent, OwnNow(m)];
    assert l[|l| - 2 := Labels.Bump(Now(s).parent)] == above + [Labels.Bump(Now(s).parent), OwnNow(m)];
    assert above + [Labels.Bump(Now(s).parent)] + [OwnNow(m)] == above + [Labels.Bump(Now(s).parent), OwnNow(m)];
  }

  // Two members each create a task, and both tasks access one location.

  /** A member that has created nothing yet, and one that has created one task. */
  predicate HasNone(m: Member) {
    && |m.course.graph| == 1 && |m.at| == 1 && m.course.children == []
    && m.course.seg < |m.course.store| && m.course.store[m.course.seg].taskcreate == 0
  }

  predicate HasOne(m: Member) {
    |m.course.graph| == 2 && |m.at| == 2 && |m.course.children| == 1 && !m.course.children[0].done
  }

  ghost predicate Pair(s: State, n: nat) {
    |s.epochs| == 1 && |Now(s).members| == 2 && |s.graph| == n
  }

  lemma Creates(s: State, n: nat, i: nat, s': State)
    requires Pair(s, n) && i < 2 && HasNone(Now(s).members[i]) && TaskSync.Sane(Now(s).members[i].course)
    requires Enabled(s, Step(i, TaskSync.Create)) && s' == DoStep(s, i, TaskSync.Create)
    ensures Pair(s', n + 1) && HasOne(Now(s').members[i]) && Now(s').members[1 - i] == Now(s).members[1 - i]
    ensures s'.accesses == s.accesses
  {
    CourseStep(Now(s).members[i].course, TaskSync.Create);
  }

  lemma Accesses(s: State, n: nat, i: nat, s': State)
    requires Pair(s, n) && i < 2 && HasOne(Now(s).members[i]) && TaskSync.Sane(Now(s).members[i].course)
    requires Enabled(s, Step(i, TaskSync.ChildAccess(0))) && s' == DoStep(s, i, TaskSync.ChildAccess(0))
    ensures Pair(s', n + 1) && Now(s').members[1 - i] == Now(s).members[1 - i]
    ensures s'.accesses == s.accesses[n := Spot(0, i, 2)]
  {
    CourseStep(Now(s).members[i].course, TaskSync.ChildAccess(0));
  }

  lemma MemberStep(above: Label, parent: Segment, acts: seq<Action>, s: State, n: nat, i: nat, a: TaskSync.Action)
    returns (acts': seq<Action>, s': State)
    requires Run(above, parent, 2, acts, s) && TeamOf(parent, 2) && Pair(s, n) && i < 2
    requires (a == TaskSync.Create && HasNone(Now(s).members[i])) || (a == TaskSync.ChildAccess(0) && HasOne(Now(s).members[i]))
    ensures Run(above, parent, 2, acts', s') && Pair(s', n + 1) && Now(s').members[1 - i] == Now(s).members[1 - i]
    ensures a.Create? ==> HasOne(Now(s').members[i]) && s'.accesses == s.accesses
    ensures a.ChildAccess? ==> s'.accesses == s.accesses[n := Spot(0, i, 2)]
  {
    EnabledStepsRun(above, parent, 2, acts, s, Step(i, a));
    s' := Apply(above, s, Step(i, a));
    acts' := acts + [Step(i, a)];
    if a.Create? { Creates(s, n, i, s'); } else { Accesses(s, n, i, s'); }
  }

  lemma InitPair(above: Label, parent: Segment)
    ensures var s := Init(above, parent, 2);
      Pair(s, 1) && HasNone(Now(s).members[0]) && HasNone(Now(s).members[1]) && s.accesses == map[]
  {
  }

  lemma BothCreate(above: Label, parent: Segment) returns (acts: seq<Action>, s: State)
    requires TeamOf(parent, 2)
    ensures Run(above, parent, 2, acts, s) && Pair(s, 3) && s.accesses == map[]
    ensures HasOne(Now(s).members[0]) && HasOne(Now(s).members[1])
  {
    InitPair(above, parent);
    acts, s := [], Init(above, parent, 2);
    acts, s := MemberStep(above, parent, acts, s, 1, 0, TaskSync.Create);
    acts, s := MemberStep(above, parent, acts, s, 2, 1, TaskSync.Create);
  }

  lemma OneAccesses(above: Label, parent: Segment) returns (acts: seq<Action>, s: State)
    requires TeamOf(parent, 2)
    ensures Run(above, parent, 2, acts, s) && Pair(s, 4) && HasOne(Now(s).members[1])
    ensures s.accesses == map[][3 := Spot(0, 0, 2)]
  {
    var acts0, s0 := BothCreate(above, parent);
    acts, s := MemberStep(above, parent, acts0, s0, 3, 0, TaskSync.ChildAccess(0));
  }

  lemma TasksOfTwoMembers(above: Label, parent: Segment) returns (acts: seq<Action>, s: State)
    requires TeamOf(parent, 2)
    ensures Run(above, parent, 2, acts, s) && |s.epochs| == 1 && s.accesses == map[][3 := Spot(0, 0, 2)][4 := Spot(0, 1, 2)]
  {
    acts, s := OneAccesses(above, parent);
    acts, s := MemberStep(above, parent, acts, s, 4, 1, TaskSync.ChildAccess(0));
  }

  /** Their accesses are concurrent, and judged so. */
  lemma TasksOfMembersRace(above: Label, parent: Segment) returns (acts: seq<Action>, s: State)
    requires TeamOf(parent, 2)
    ensures Run(above, parent, 2, acts, s) && Inv(above, 2, s) && s.accesses == map[3 := Spot(0, 0, 2), 4 := Spot(0, 1, 2)]
    ensures SpotRight(s, 3) && SpotRight(s, 4) && Truth(s.graph, 3, 4) == Concurrent
    ensures HappensBefore(LabelAt(s, Spot(0, 0, 2), MemberAt(s, Spot(0, 0, 2)).course.store),
                          LabelAt(s, Spot(0, 1, 2), MemberAt(s, Spot(0, 1, 2)).course.store)) == Concurrent
  {
    acts, s := TasksOfTwoMembers(above, parent);
    RunInv(above, parent, 2, acts, s);
    assert SpotRight(s, 3) && SpotRight(s, 4);
    TeamReachability(above, parent, 2, acts, s, 3, 4);
    TeamVerdict(above, parent, 2, acts, s, 3, 4,
      MemberAt(s, Spot(0, 0, 2)).course.store, MemberAt(s, Spot(0, 1, 2)).course.store);
  }

  /** With nothing to wait for, a team may meet at a barrier, which advances its enclosing task. */
  lemma TeamMeets(above: Label, parent: Segment, size: nat)
    requires TeamOf(parent, size) && parent.offset + parent.span < FIELD16
    ensures var s0 := Init(above, parent, size);
      var s := DoBarrier(above, s0);
      && Run(above, parent, size, [Barrier], s) && |s.epochs| == 2
      && Now(s).parent == parent.(offset := parent.offset + parent.span)
      && forall i | 0 <= i < size :: i < |Now(s).members| &&
           TaskVerdicts.ParentLabel(Now(s).members[i].course) == above + [Now(s).parent] + [NewSegment(Implicit, i, size)]
  {
    var s0 := Init(above, parent, size);
    assert Run(above, parent, size, [], s0);
    EnabledStepsRun(above, parent, size, [], s0, Barrier);
    assert [] + [Barrier] == [Barrier];
  }
}
