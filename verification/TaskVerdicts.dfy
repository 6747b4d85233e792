/** The labels of the runs of module TaskSync: what their shared segments hold after marks
    and clones, what the comparison makes of two of them, and exactly when that verdict is
    what is reachable. */
module TaskVerdicts {
  import opened Segments
  import opened Core
  import opened EventVerdict
  import opened TaskGroups
  import opened TaskSync
  import opened VerdictShapes
  import Labels

  // What the segments hold.

  /** The fields no step writes in place. */
  function Fixed(seg: Segment): Segment {
    seg.(taskwaited := false, groupSync := false, orderSecVal := 0)
  }

  /** The implicit task's segment at a point of its course, when it began the epoch as `own`. */
  function SegmentAt(own: Segment, ops: seq<GroupOp>, p: Point): Segment {
    After(own, ops, p.ops).(taskwait := own.taskwait + p.waits, taskcreate := own.taskcreate + p.made)
  }

  predicate Holds(s: State, own: Segment, r: Ref, p: Point) {
    r < |s.store| && p.ops <= |s.ops| && Fixed(s.store[r]) == Fixed(SegmentAt(own, s.ops, p))
  }

  /** A child's own segment is never marked. */
  predicate ChildHolds(s: State, own: Segment, i: nat) {
    i < |s.children| ==>
      var c := s.children[i];
      Holds(s, own, c.seg, c.at) && c.exp < |s.store| && s.store[c.exp] == NewSegment(Explicit, 0, 1)
  }

  predicate AccessHolds(s: State, own: Segment, a: Access) {
    a.actor.Parent? ==> Holds(s, own, a.seg, a.at)
  }

  ghost predicate LabelInv(s: State, own: Segment) {
    && Holds(s, own, s.seg, Now(s))
    && (forall i: nat :: ChildHolds(s, own, i))
    && (forall h | h in s.accesses :: AccessHolds(s, own, s.accesses[h]))
  }

  lemma HoldsFrame(s: State, s': State, own: Segment, r: Ref, p: Point)
    requires Holds(s, own, r, p) && r < |s'.store| && Fixed(s'.store[r]) == Fixed(s.store[r])
    requires s'.ops == s.ops || exists x :: s'.ops == s.ops + [x]
    ensures Holds(s', own, r, p)
  {
    if s'.ops != s.ops {
      var x :| s'.ops == s.ops + [x];
      AfterGrows(own, s.ops, x, p.ops);
    }
  }

  /** A step's store keeps the old segments up to the marks, and children's own ones entirely. */
  ghost predicate StoreKept(s: State, s': State) {
    && |s.store| <= |s'.store| && (s'.ops == s.ops || exists x :: s'.ops == s.ops + [x])
    && (forall r: nat | r < |s.store| :: Fixed(s'.store[r]) == Fixed(s.store[r]))
    && (forall i: nat | i < |s.children| && s.children[i].exp < |s.store| ::
         s'.store[s.children[i].exp] == s.store[s.children[i].exp])
  }

  lemma ChildHoldsFrame(s: State, s': State, own: Segment, i: nat)
    requires ChildHolds(s, own, i) && StoreKept(s, s') && i < |s.children| && i < |s'.children|
    requires s'.children[i].seg == s.children[i].seg && s'.children[i].exp == s.children[i].exp && s'.children[i].at == s.children[i].at
    ensures ChildHolds(s', own, i)
  {
    HoldsFrame(s, s', own, s.children[i].seg, s.children[i].at);
  }

  lemma AccessHoldsFrame(s: State, s': State, own: Segment)
    requires LabelInv(s, own) && StoreKept(s, s')
    ensures forall h | h in s.accesses :: AccessHolds(s', own, s.accesses[h])
  {
    forall h | h in s.accesses && s.accesses[h].actor.Parent? ensures AccessHolds(s', own, s.accesses[h]) {
      assert AccessHolds(s, own, s.accesses[h]);
      HoldsFrame(s, s', own, s.accesses[h].seg, s.accesses[h].at);
    }
  }

  /** The marks of both kinds land on segments of the implicit task, which completed
      children's labels share. */
  lemma MarkedIsShared(s: State, own: Segment, i: nat, j: nat)
    requires LabelInv(s, own) && own.kind.Implicit?
    requires i < |s.children| && s.children[i].done && j < |s.children|
    ensures LastRef(s.children[i]) == s.children[i].seg != s.children[j].exp
  {
    assert ChildHolds(s, own, i) && ChildHolds(s, own, j);
    AfterKeeps(own, s.ops, s.children[i].at.ops);
    assert Fixed(s.store[s.children[i].seg]).kind == s.store[s.children[i].seg].kind;
  }

  lemma WaitStore(s: State, own: Segment)
    requires Sane(s) && Enabled(s, TaskWaitEnd) && LabelInv(s, own) && own.kind.Implicit?
    ensures StoreKept(s, DoTaskWait(s))
  {
    var s' := DoTaskWait(s);
    forall r: nat | r < |s.store| ensures s'.store[r] == MarkWaited(s)[r] && Fixed(s'.store[r]) == Fixed(s.store[r]) {}
    forall j: nat | j < |s.children| && s.children[j].exp < |s.store|
      ensures s'.store[s.children[j].exp] == s.store[s.children[j].exp]
    {
      var r := s.children[j].exp;
      if WaitMarks(s, r) {
        var i :| i in s.pending && i < |s.children| && LastRef(s.children[i]) == r;
        MarkedIsShared(s, own, i, j);
      }
      assert s'.store[r] == MarkWaited(s)[r];
    }
  }

  lemma GroupStore(s: State, own: Segment)
    requires Sane(s) && Enabled(s, GroupEnd) && LabelInv(s, own) && own.kind.Implicit?
    ensures StoreKept(s, DoGroupEnd(s))
  {
    var s' := DoGroupEnd(s);
    forall r: nat | r < |s.store| ensures s'.store[r] == MarkGroup(s)[r] && Fixed(s'.store[r]) == Fixed(s.store[r]) {}
    forall j: nat | j < |s.children| && s.children[j].exp < |s.store|
      ensures s'.store[s.children[j].exp] == s.store[s.children[j].exp]
    {
      var r := s.children[j].exp;
      if GroupMarks(s, r) {
        var i :| i in s.pending && i < |s.children| && GroupMatches(s, s.children[i]) && LastRef(s.children[i]) == r;
        MarkedIsShared(s, own, i, j);
      }
      assert s'.store[r] == MarkGroup(s)[r];
    }
  }

  /** The children and accesses a step leaves alone keep their labels. */
  lemma LabelsKeep(s: State, s': State, own: Segment)
    requires LabelInv(s, own) && StoreKept(s, s') && |s.children| <= |s'.children|
    requires forall i: nat | i < |s.children| ::
      s'.children[i].seg == s.children[i].seg && s'.children[i].exp == s.children[i].exp && s'.children[i].at == s.children[i].at
    ensures forall i: nat | i < |s.children| :: ChildHolds(s', own, i)
    ensures forall h | h in s.accesses :: AccessHolds(s', own, s.accesses[h])
  {
    forall i: nat | i < |s.children| ensures ChildHolds(s', own, i) {
      assert ChildHolds(s, own, i);
      ChildHoldsFrame(s, s', own, i);
    }
    AccessHoldsFrame(s, s', own);
  }

  lemma NextSegment(s: State, s': State, own: Segment, a: Action)
    requires Sane(s) && Enabled(s, a) && s' == Apply(s, a) && LabelInv(s, own)
    ensures Holds(s', own, s'.seg, Now(s'))
  {
    match a
    case GroupBegin => AfterGrows(own, s.ops, Begin, |s.ops|);
    case GroupEnd => AfterGrows(own, s.ops, End, |s.ops|);
    case _ =>
  }

  lemma StepStore(s: State, own: Segment, a: Action)
    requires Sane(s) && Enabled(s, a) && LabelInv(s, own) && own.kind.Implicit?
    ensures StoreKept(s, Apply(s, a))
  {
    match a
    case TaskWaitEnd => WaitStore(s, own);
    case GroupEnd => GroupStore(s, own);
    case _ =>
  }

  lemma StepLabels(s: State, own: Segment, a: Action)
    requires Sane(s) && Enabled(s, a) && LabelInv(s, own) && own.kind.Implicit?
    ensures LabelInv(Apply(s, a), own)
  {
    var s' := Apply(s, a);
    NextSegment(s, s', own, a);
    StepStore(s, own, a);
    LabelsKeep(s, s', own);
    if a.Create? {
      HoldsFrame(s, s', own, s.seg, Now(s));
      assert ChildHolds(s', own, |s.children|);
    }
  }

  lemma {:induction false} RunLabels(above: Label, own: Segment, acts: seq<Action>, s: State)
    requires Run(above, own, acts, s) && own.kind.Implicit?
    ensures LabelInv(s, own)
  {
    if acts != [] {
      var n := |acts| - 1;
      var s0 :| Run(above, own, acts[..n], s0) && Sane(s0) && Enabled(s0, acts[n]) && s == Apply(s0, acts[n]);
      RunLabels(above, own, acts[..n], s0);
      StepLabels(s0, own, acts[n]);
    }
  }

  /** In every run, a step writes nothing in an existing segment but the two marks and the
      recorded phase, and nothing at all in a child's own segment. */
  lemma StepKeepsSegments(above: Label, own: Segment, acts: seq<Action>, s: State, a: Action)
    requires Run(above, own, acts, s) && own.kind.Implicit? && Enabled(s, a)
    ensures Sane(s) && StoreKept(s, Apply(s, a))
    ensures forall i: nat | i < |s.children| :: ChildHolds(s, own, i)
  {
    TaskSync.RunInv(above, own, acts, s);
    RunLabels(above, own, acts, s);
    StepStore(s, own, a);
  }

  // The comparison of two labels.

  /** The label of an access, read through the store as it is now. */
  function LabelOf(s: State, a: Access): Label {
    s.above + Tail(s, a)
  }

  /** Its segments after those of the enclosing tasks. */
  function Tail(s: State, a: Access): Label {
    if a.seg < |s.store| && a.exp < |s.store| then
      if a.actor.Parent? then [s.store[a.seg]] else [s.store[a.seg], s.store[a.exp]]
    else []
  }

  /** Two segments of one implicit task that are not the same to the comparison. */
  predicate Siblings(x: Segment, y: Segment) {
    x.kind.Implicit? && y.kind.Implicit? && x.span == y.span && x.offset == y.offset && !SameSegment(x, y)
  }

  /** What the program makes of two such labels: a leaf of the implicit task is ordered before
      everything; a child before its parent by the taskwait counts and the mark on the child's
      own segment; a child before a sibling by the group counters and the taskwait counts. */
  lemma SiblingVerdict(above: Label, h: Label, c: Label)
    requires h != [] && c != [] && Siblings(h[0], c[0]) && h[0].span >= 2
    requires |h| <= 2 && |c| <= 2 && (|h| == 2 ==> h[1].kind.Explicit?) && (|c| == 2 ==> c[1].kind.Explicit?)
    ensures HappensBefore(above + h, above + c) ==
      if |h| == 1 then Ordered
      else if |c| == 2 && TaskGroupSync(h[0], c[0]) then Ordered
      else if c[0].taskwait < h[0].taskwait then Fatal
      else if h[0].taskwait < c[0].taskwait then Ordered
      else FromBool(|c| == 1 && h[0].groupLevel > 0 && h[1].groupSync)
  {
    PartsAt(above, h, c);
    if |h| == 2 { assert (above + h)[|above| + 1] == h[1]; }
    if |c| == 2 { assert (above + c)[|above| + 1] == c[1]; }
  }

  /** In a team of one, two different segments of the task abort the program. */
  lemma SpanOneAborts(above: Label, h: Label, c: Label)
    requires h != [] && c != [] && Siblings(h[0], c[0]) && h[0].span == 1
    ensures HappensBefore(above + h, above + c) == Fatal
  {
    PartsAt(above, h, c);
  }

  // The steps of a run on labels.

  /** The implicit task's label. */
  function ParentLabel(s: State): Label {
    s.above + if s.seg < |s.store| then [s.store[s.seg]] else []
  }

  function ChildLabel(s: State, i: nat): Label {
    s.above +
      if i >= |s.children| || s.children[i].seg >= |s.store| || s.children[i].exp >= |s.store| then []
      else if s.children[i].done then [s.store[s.children[i].seg]]
      else [s.store[s.children[i].seg], s.store[s.children[i].exp]]
  }

  lemma LastChanges(above: Label, x: Segment, y: Segment)
    ensures Labels.WithLast(above + [x], y) == above + [y] && Labels.Last(above + [x]) == x
    ensures Labels.DropLast(above + [x, y]) == above + [x] && above + [x] + [y] == above + [x, y]
  {
  }

  /** Each step makes of the labels what the transitions of Label.cpp make of them: of the
      implicit task's label, */
  lemma ParentTransition(s: State, a: Action)
    requires Sane(s) && Enabled(s, a)
    ensures var l, l' := ParentLabel(s), ParentLabel(Apply(s, a));
      match a
      case Create => l' == Labels.ParentTaskCreate(l)
      case TaskWaitEnd => l' == Labels.TaskWait(l)
      case GroupBegin => l' == Labels.TaskGroupBegin(l)
      case GroupEnd => l' == Labels.TaskGroupEnd(l)
      case _ => l' == l
  {
    var s' := Apply(s, a);
    LastChanges(s.above, s.store[s.seg], s'.store[s'.seg]);
  }

  /** of a child's when it is created and when it completes, */
  lemma ChildTransition(s: State, a: Action)
    requires Sane(s) && Enabled(s, a)
    ensures a.Create? ==> ChildLabel(Apply(s, a), |s.children|) == Labels.ExpTask(ParentLabel(s))
    ensures a.Complete? ==> ChildLabel(Apply(s, a), a.i) == Labels.DropLast(ChildLabel(s, a.i))
  {
    if a.Create? {
      LastChanges(s.above, s.store[s.seg], NewSegment(Explicit, 0, 1));
    } else if a.Complete? {
      assert SaneChild(s, s.children[a.i]);
      LastChanges(s.above, s.store[s.children[a.i].seg], s.store[s.children[a.i].exp]);
    }
  }

  /** and an access is made with the label its task has. */
  lemma AccessLabel(s: State, a: Action)
    requires Sane(s) && Enabled(s, a) && (a.ParentAccess? || a.ChildAccess?)
    ensures var s' := Apply(s, a);
      |s.graph| in s'.accesses &&
      LabelOf(s', s'.accesses[|s.graph|]) == if a.ParentAccess? then ParentLabel(s) else ChildLabel(s, a.i)
  {
    if a.ChildAccess? { assert SaneChild(s, s.children[a.i]); }
  }

  // The comparison on the labels of a run.

  /** The task as it began the epoch: outside any taskgroup. */
  predicate Begins(own: Segment) {
    own.kind.Implicit? && own.groupLevel == 0
  }

  /** The segment a label of a run begins with, and the child's own. */
  lemma TailHolds(s: State, own: Segment, a: Access)
    requires Sane(s) && LabelInv(s, own) && AccessRight(s, a) && AccessHolds(s, own, a) && Begins(own)
    ensures var t := Tail(s, a);
      && t != [] && |t| == (if a.actor.Parent? then 1 else 2) && t[0] == s.store[a.seg]
      && Fixed(t[0]) == Fixed(SegmentAt(own, s.ops, a.at))
      && (|t| == 2 ==> t[1] == NewSegment(Explicit, 0, 1))
  {
    if a.actor.Task? { assert ChildHolds(s, own, a.actor.i); }
  }

  /** The fields of such a segment that the verdict reads. */
  lemma SegmentFields(own: Segment, ops: seq<GroupOp>, p: Point, x: Segment)
    requires Fixed(x) == Fixed(SegmentAt(own, ops, p))
    ensures x.kind == own.kind && x.span == own.span && x.offset == own.offset
    ensures x.taskwait == own.taskwait + p.waits && x.taskcreate == own.taskcreate + p.made
    ensures x.groupId == After(own, ops, p.ops).groupId && x.groupLevel == After(own, ops, p.ops).groupLevel
  {
    var y := SegmentAt(own, ops, p);
    AfterKeeps(own, ops, p.ops);
    assert Fixed(x).kind == x.kind && Fixed(x).span == x.span && Fixed(x).offset == x.offset;
    assert Fixed(x).taskwait == x.taskwait && Fixed(x).taskcreate == x.taskcreate;
    assert Fixed(x).groupId == x.groupId && Fixed(x).groupLevel == x.groupLevel;
    assert Fixed(y).taskwait == y.taskwait && Fixed(y).taskcreate == y.taskcreate;
  }

  lemma DifferentCounts(x: Segment, y: Segment)
    requires x.taskcreate != y.taskcreate
    ensures !SameSegment(x, y)
  {
    assert Value(x).taskcreate == x.taskcreate && Value(y).taskcreate == y.taskcreate;
  }

  /** The verdict on an access and a later one, from the points they were made at. */
  function LabelVerdict(own: Segment, ops: seq<GroupOp>, h: Access, c: Access): Verdict {
    if h.actor.Parent? || h.actor == c.actor || h.at.waits < c.at.waits then Ordered
    else if c.actor.Task? && GroupVerdict(own, ops, h.at.ops, c.at.ops) then Ordered
    else Concurrent
  }

  lemma ParentPairVerdict(s: State, own: Segment, ah: Access, ac: Access)
    requires Sane(s) && LabelInv(s, own) && Begins(own) && own.span >= 2
    requires AccessRight(s, ah) && AccessHolds(s, own, ah) && AccessRight(s, ac) && AccessHolds(s, own, ac)
    requires ah.actor.Parent?
    ensures HappensBefore(LabelOf(s, ah), LabelOf(s, ac)) == Ordered
  {
    TailHolds(s, own, ah);
    TailHolds(s, own, ac);
    var h, c := Tail(s, ah), Tail(s, ac);
    SegmentFields(own, s.ops, ah.at, h[0]);
    SegmentFields(own, s.ops, ac.at, c[0]);
    if SameSegment(h[0], c[0]) { SameSegments(s.above, h, c); } else { SiblingVerdict(s.above, h, c); }
  }

  lemma ChildPairVerdict(s: State, own: Segment, ah: Access, ac: Access)
    requires Sane(s) && LabelInv(s, own) && Begins(own) && own.span >= 2
    requires AccessRight(s, ah) && AccessHolds(s, own, ah) && AccessRight(s, ac) && AccessHolds(s, own, ac)
    requires ah.actor.Task? && ah.at.made != ac.at.made && ah.at.waits <= ac.at.waits && ah.actor != ac.actor
    ensures HappensBefore(LabelOf(s, ah), LabelOf(s, ac)) == LabelVerdict(own, s.ops, ah, ac)
  {
    TailHolds(s, own, ah);
    TailHolds(s, own, ac);
    var h, c := Tail(s, ah), Tail(s, ac);
    SegmentFields(own, s.ops, ah.at, h[0]);
    SegmentFields(own, s.ops, ac.at, c[0]);
    DifferentCounts(h[0], c[0]);
    SiblingVerdict(s.above, h, c);
  }

  lemma PairVerdictOf(s: State, own: Segment, h: nat, c: nat)
    requires TaskSync.Inv(s) && LabelInv(s, own) && Begins(own) && own.span >= 2
    requires h in s.accesses && c in s.accesses && h < c
    ensures HappensBefore(LabelOf(s, s.accesses[h]), LabelOf(s, s.accesses[c])) ==
      LabelVerdict(own, s.ops, s.accesses[h], s.accesses[c])
  {
    var ah, ac := s.accesses[h], s.accesses[c];
    assert AccessRight(s, ah) && AccessRight(s, ac) && AccessHolds(s, own, ah) && AccessHolds(s, own, ac);
    assert PairRight(s, h, c);
    if ah.actor.Parent? {
      ParentPairVerdict(s, own, ah, ac);
    } else if ah.actor == ac.actor {
      SameSegments(s.above, Tail(s, ah), Tail(s, ac));
    } else {
      assert ChildRight(s, ah.actor.i) && (ac.actor.Task? ==> ChildRight(s, ac.actor.i));
      ChildPairVerdict(s, own, ah, ac);
    }
  }

  /** The verdict on any two accesses of a run: it never aborts. */
  lemma PairVerdict(above: Label, own: Segment, acts: seq<Action>, s: State, h: nat, c: nat)
    requires Run(above, own, acts, s) && Begins(own) && own.span >= 2
    requires h in s.accesses && c in s.accesses && h < c
    ensures HappensBefore(LabelOf(s, s.accesses[h]), LabelOf(s, s.accesses[c])) ==
      LabelVerdict(own, s.ops, s.accesses[h], s.accesses[c])
  {
    TaskSync.RunInv(above, own, acts, s);
    RunLabels(above, own, acts, s);
    PairVerdictOf(s, own, h, c);
  }

  /** A store that differs in marks and recorded phases only, and not in children's own segments. */
  ghost predicate Remarked(s: State, st: seq<Segment>) {
    StoreKept(s, s.(store := st))
  }

  lemma RemarkedInv(s: State, own: Segment, st: seq<Segment>)
    requires TaskSync.Inv(s) && LabelInv(s, own) && Remarked(s, st)
    ensures TaskSync.Inv(s.(store := st)) && LabelInv(s.(store := st), own)
  {
    var s' := s.(store := st);
    assert Sane(s') by { assert forall i | 0 <= i < |s.children| :: SaneChild(s, s.children[i]); }
    forall i: nat ensures ChildRight(s', i) && Held(s', i) { assert ChildRight(s, i) && Held(s, i); }
    forall h | h in s.accesses ensures AccessRight(s', s.accesses[h]) { assert AccessRight(s, s.accesses[h]); }
    forall h: nat ensures JudgedParent(s', h) { assert JudgedParent(s, h); }
    forall h: nat, j: nat ensures JudgedChild(s', h, j) { assert JudgedChild(s, h, j); }
    forall h: nat, c: nat ensures PairRight(s', h, c) { assert PairRight(s, h, c); }
    LabelsKeep(s, s', own);
    HoldsFrame(s, s', own, s.seg, Now(s));
  }

  /** Marks made later change no verdict. */
  lemma PairVerdictRemarked(above: Label, own: Segment, acts: seq<Action>, s: State, st: seq<Segment>, h: nat, c: nat)
    requires Run(above, own, acts, s) && Begins(own) && own.span >= 2 && Remarked(s, st)
    requires h in s.accesses && c in s.accesses && h < c
    ensures HappensBefore(LabelOf(s.(store := st), s.accesses[h]), LabelOf(s.(store := st), s.accesses[c])) ==
      LabelVerdict(own, s.ops, s.accesses[h], s.accesses[c])
  {
    TaskSync.RunInv(above, own, acts, s);
    RunLabels(above, own, acts, s);
    RemarkedInv(s, own, st);
    PairVerdictOf(s.(store := st), own, h, c);
  }

  /** The current group id counts the operations. */
  lemma IdNow(s: State, own: Segment)
    requires TaskSync.Inv(s) && LabelInv(s, own) && Begins(own) && own.groupId + |s.ops| < FIELD16
    ensures s.seg < |s.store| && s.store[s.seg].groupId == own.groupId + |s.ops|
  {
    SegmentFields(own, s.ops, Now(s), s.store[s.seg]);
    Counters(own, s.ops, |s.ops|);
  }

  lemma IdsFit(above: Label, own: Segment, acts: seq<Action>, s: State)
    requires Run(above, own, acts, s) && Begins(own) && own.groupId < FIELD16
    ensures own.groupId + |s.ops| < FIELD16
  {
    if acts != [] {
      var n := |acts| - 1;
      var s0 :| Run(above, own, acts[..n], s0) && Sane(s0) && Enabled(s0, acts[n]) && s == Apply(s0, acts[n]);
      IdsFit(above, own, acts[..n], s0);
      TaskSync.RunInv(above, own, acts[..n], s0);
      RunLabels(above, own, acts[..n], s0);
      IdNow(s0, own);
    }
  }

  // When the verdict is right.

  /** The verdict on a pair is what the event graph says. */
  ghost predicate RightlyOrdered(s: State, h: nat, c: nat) {
    h in s.accesses && c in s.accesses &&
    HappensBefore(LabelOf(s, s.accesses[h]), LabelOf(s, s.accesses[c])) == Truth(s.graph, h, c)
  }

  /** A run of one implicit task, outside any group at the start, in a team of at least two. */
  ghost predicate TeamRun(above: Label, own: Segment, acts: seq<Action>, s: State) {
    Run(above, own, acts, s) && Begins(own) && own.span >= 2 && own.groupId < FIELD16
  }

  /** The verdict on two accesses of different actors, and what it should be. */
  lemma ChildExactness(above: Label, own: Segment, acts: seq<Action>, s: State, h: nat, c: nat)
    requires TeamRun(above, own, acts, s) && h in s.accesses && c in s.accesses && h < c
    requires s.accesses[h].actor.Task? && s.accesses[h].actor != s.accesses[c].actor
    ensures var ah, ac := s.accesses[h], s.accesses[c];
      && own.groupId + |s.ops| < FIELD16 && Nested(s.ops) && ah.at.ops <= |s.ops| && ac.at.ops <= |s.ops|
      && (RightlyOrdered(s, h, c) <==>
           ah.at.waits < ac.at.waits ||
           ((ac.actor.Task? && GroupVerdict(own, s.ops, ah.at.ops, ac.at.ops)) <==> GroupEnded(s.ops, ah.at.ops, ac.at.ops)))
  {
    TaskSync.RunInv(above, own, acts, s);
    PairVerdict(above, own, acts, s, h, c);
    IdsFit(above, own, acts, s);
    assert PairRight(s, h, c);
    AccessFacts(s, h);
    AccessFacts(s, c);
  }

  /** With no group begun or ended since the child was created, its access is judged ordered
      before a later access of its parent or a sibling exactly when it is in the event graph,
      which is exactly when the parent has finished a taskwait in between. */
  lemma TaskwaitIsExact(above: Label, own: Segment, acts: seq<Action>, s: State, h: nat, c: nat)
    requires TeamRun(above, own, acts, s) && h in s.accesses && c in s.accesses && h < c
    requires s.accesses[h].actor.Task? && s.accesses[c].at.ops <= s.accesses[h].at.ops
    ensures RightlyOrdered(s, h, c)
    ensures s.accesses[h].actor != s.accesses[c].actor ==>
      (Truth(s.graph, h, c) == Ordered <==> s.accesses[h].at.waits < s.accesses[c].at.waits)
  {
    TaskSync.RunInv(above, own, acts, s);
    PairVerdict(above, own, acts, s, h, c);
    assert PairRight(s, h, c);
    if s.accesses[h].actor != s.accesses[c].actor {
      ChildExactness(above, own, acts, s, h, c);
      VerdictByDepth(own, s.ops, s.accesses[h].at.ops, s.accesses[c].at.ops);
    }
  }

  /** A child's access is judged rightly against a later one of its parent exactly when a
      taskwait has ended in between, or no group that holds the child has. */
  lemma ParentAfterGroup(above: Label, own: Segment, acts: seq<Action>, s: State, h: nat, c: nat)
    requires TeamRun(above, own, acts, s) && h in s.accesses && c in s.accesses && h < c
    requires s.accesses[h].actor.Task? && s.accesses[c].actor.Parent?
    ensures RightlyOrdered(s, h, c) <==>
      s.accesses[h].at.waits < s.accesses[c].at.waits || !GroupEnded(s.ops, s.accesses[h].at.ops, s.accesses[c].at.ops)
  {
    ChildExactness(above, own, acts, s, h, c);
  }

  /** Against a later access of a sibling: always rightly where a taskwait has ended or groups
      have not nested deeper since; a child created outside any group is misjudged exactly
      when the sibling was too and a group has come and gone. */
  lemma SiblingAfterGroup(above: Label, own: Segment, acts: seq<Action>, s: State, h: nat, c: nat)
    requires TeamRun(above, own, acts, s) && h in s.accesses && c in s.accesses && h < c
    requires s.accesses[h].actor.Task? && s.accesses[c].actor.Task? && s.accesses[h].actor != s.accesses[c].actor
    ensures var i, j := s.accesses[h].at.ops, s.accesses[c].at.ops;
      && (Depth(s.ops, i) == 0 ==> (RightlyOrdered(s, h, c) <==>
           s.accesses[h].at.waits < s.accesses[c].at.waits || i >= j || Depth(s.ops, j) > 0))
      && (Depth(s.ops, i) >= 1 && (NeverDeeper(s.ops, i) || StaysDeeper(s.ops, i)) ==> RightlyOrdered(s, h, c))
  {
    var i, j := s.accesses[h].at.ops, s.accesses[c].at.ops;
    ChildExactness(above, own, acts, s, h, c);
    VerdictByDepth(own, s.ops, i, j);
    if i <= j {
      if Depth(s.ops, i) == 0 {
        OutsideGroups(own, s.ops, i, j);
      } else if NeverDeeper(s.ops, i) || StaysDeeper(s.ops, i) {
        assert Depth(s.ops, i) >= 1;
        RightlyJudged(own, s.ops, i, j);
      }
    }
  }

  /** An access of the implicit task is always judged ordered before later ones. That is
      right unless the later access is of a child created before it. */
  lemma ParentVerdictExactness(above: Label, own: Segment, acts: seq<Action>, s: State, h: nat, c: nat)
    requires TeamRun(above, own, acts, s) && h in s.accesses && c in s.accesses && h < c
    requires s.accesses[h].actor.Parent?
    ensures var ac := s.accesses[c];
      && HappensBefore(LabelOf(s, s.accesses[h]), LabelOf(s, ac)) == Ordered
      && (ac.actor.Task? ==> ac.actor.i < |s.children|)
      && (RightlyOrdered(s, h, c) <==> ac.actor.Parent? || h < s.children[ac.actor.i].created)
  {
    TaskSync.RunInv(above, own, acts, s);
    PairVerdict(above, own, acts, s, h, c);
    assert PairRight(s, h, c) && AccessRight(s, s.accesses[c]);
  }

  /** The mark that would order a child before its parent's access after a group is read from
      the child's own segment. In every run it is made on the segment the child's label shares
      with its parent, and the own segment stays unmarked. */
  lemma GroupMarkMissesChild(above: Label, own: Segment, acts: seq<Action>, s: State, i: nat)
    requires Run(above, own, acts, s) && own.kind.Implicit? && Enabled(s, GroupEnd)
    requires i in s.pending && i < |s.children| && s.children[i].done
    ensures Sane(s) && s.children[i].seg < |s.store| && s.children[i].exp < |s.store|
    ensures s.store[s.children[i].seg].groupId == s.store[s.seg].groupId ==>
      i !in DoGroupEnd(s).pending && DoGroupEnd(s).store[s.children[i].seg].groupSync
    ensures !DoGroupEnd(s).store[s.children[i].exp].groupSync
  {
    StepKeepsSegments(above, own, acts, s, GroupEnd);
    assert ChildHolds(s, own, i);
    var s', c := DoGroupEnd(s), s.children[i];
    assert s'.store[c.seg] == MarkGroup(s)[c.seg];
    if s.store[c.seg].groupId == s.store[s.seg].groupId {
      assert GroupMatches(s, c);
      assert GroupMarks(s, c.seg);
    }
  }

  lemma ChildrenApart(s: State, own: Segment, i: nat, j: nat)
    requires TaskSync.Inv(s) && LabelInv(s, own) && own.kind.Implicit? && i < |s.children| && j < |s.children| && i != j
    ensures s.children[i].seg != s.children[j].seg && s.children[i].seg != s.children[j].exp
  {
    assert ChildHolds(s, own, i) && ChildHolds(s, own, j) && ChildRight(s, i) && ChildRight(s, j);
    var x := s.store[s.children[i].seg];
    SegmentFields(own, s.ops, s.children[i].at, x);
    if s.children[i].seg == s.children[j].seg { SegmentFields(own, s.ops, s.children[j].at, x); }
  }

  /** Children that are still running, or were created under another group id, stay on the list
      and keep the shared segment as it is. */
  lemma GroupSparesOthers(above: Label, own: Segment, acts: seq<Action>, s: State, i: nat)
    requires Run(above, own, acts, s) && own.kind.Implicit? && Enabled(s, GroupEnd) && i in s.pending && i < |s.children|
    requires s.seg < |s.store| && s.children[i].seg < |s.store|
    requires !s.children[i].done || s.store[s.children[i].seg].groupId != s.store[s.seg].groupId
    ensures Sane(s) && i in DoGroupEnd(s).pending
    ensures DoGroupEnd(s).store[s.children[i].seg] == s.store[s.children[i].seg]
  {
    TaskSync.RunInv(above, own, acts, s);
    RunLabels(above, own, acts, s);
    var r := s.children[i].seg;
    assert ChildHolds(s, own, i);
    if GroupMarks(s, r) {
      var j :| j in s.pending && j < |s.children| && GroupMatches(s, s.children[j]) && LastRef(s.children[j]) == r;
      if i != j { ChildrenApart(s, own, i, j); }
    }
    assert DoGroupEnd(s).store[r] == MarkGroup(s)[r];
  }

  /** In every run the end of a taskwait marks the segment each listed child shares with its
      parent, and empties the list. */
  lemma TaskwaitMarks(above: Label, own: Segment, acts: seq<Action>, s: State, i: nat)
    requires Run(above, own, acts, s) && own.kind.Implicit? && Enabled(s, TaskWaitEnd) && i in s.pending && i < |s.children|
    ensures Sane(s) && s.children[i].seg < |s.store|
    ensures var s' := DoTaskWait(s);
      && s'.pending == {} && s'.store[s.children[i].seg].taskwaited
      && s'.store[s.children[i].seg].orderSecVal ==
           Or(s.store[s.children[i].seg].orderSecVal % 0x1_0000, s.store[s.seg].phase % 0x1_0000)
  {
    StepKeepsSegments(above, own, acts, s, TaskWaitEnd);
    assert ChildHolds(s, own, i);
    var r := s.children[i].seg;
    assert LastRef(s.children[i]) == r;
    assert WaitMarks(s, r);
    assert DoTaskWait(s).store[r] == MarkWaited(s)[r];
  }

  lemma Step(above: Label, own: Segment, acts: seq<Action>, s: State, a: Action) returns (s': State)
    requires Run(above, own, acts, s) && Enabled(s, a)
    ensures Sane(s) && s' == Apply(s, a) && Run(above, own, acts + [a], s')
  {
    TaskSync.EnabledStepsRun(above, own, acts, s, a);
    s' := Apply(s, a);
  }

  /** A group with one child. */
  lemma ChildInGroup(above: Label, own: Segment) returns (acts: seq<Action>, s: State)
    requires own.groupId + 2 < FIELD16 && own.taskcreate + 1 < MAX_TASKCREATE
    ensures Run(above, own, acts, s) && s.ops == [Begin] && s.open == [0] && s.waits == 0 && s.accesses == map[]
    ensures |s.graph| == 2 && |s.children| == 1 && !s.children[0].done && s.children[0].at == Point(0, 1, 0)
    ensures s.seg < |s.store| && s.store[s.seg].groupId == own.groupId + 1
  {
    acts, s := [], Init(above, own);
    s := Step(above, own, acts, s, GroupBegin);
    acts := acts + [GroupBegin];
    s := Step(above, own, acts, s, Create);
    acts := acts + [Create];
  }

  /** The child makes an access and is done. */
  lemma ChildRuns(above: Label, own: Segment, acts: seq<Action>, s: State) returns (acts': seq<Action>, s': State)
    requires Run(above, own, acts, s) && |s.graph| == 2 && |s.children| == 1 && !s.children[0].done
    ensures Run(above, own, acts', s') && |s'.graph| == 3 && |s'.children| == 1 && s'.children[0].done
    ensures s'.ops == s.ops && s'.open == s.open && s'.store == s.store && s'.seg == s.seg && s'.waits == s.waits
    ensures 2 in s'.accesses && s'.accesses[2].actor == Task(0) && s'.accesses[2].at == s.children[0].at
  {
    s' := Step(above, own, acts, s, ChildAccess(0));
    acts' := acts + [ChildAccess(0)];
    s' := Step(above, own, acts', s', Complete(0));
    acts' := acts' + [Complete(0)];
  }

  lemma GroupCloses(above: Label, own: Segment, acts: seq<Action>, s: State) returns (acts': seq<Action>, s': State)
    requires Run(above, own, acts, s) && |s.graph| == 3 && s.open == [0] && |s.children| == 1 && s.children[0].done
    requires s.seg < |s.store| && s.store[s.seg].groupId + 1 < FIELD16
    ensures Run(above, own, acts', s') && |s'.graph| == 4 && s'.ops == s.ops + [End] && |s'.children| == 1
    ensures s'.waits == s.waits && s'.accesses == s.accesses
  {
    s' := Step(above, own, acts, s, GroupEnd);
    acts' := acts + [GroupEnd];
  }

  lemma ParentFollows(above: Label, own: Segment, acts: seq<Action>, s: State) returns (acts': seq<Action>, s': State)
    requires Run(above, own, acts, s) && |s.graph| == 4
    ensures Run(above, own, acts', s') && s'.ops == s.ops
    ensures s'.accesses == s.accesses[4 := Access(Parent, s.seg, 0, Now(s))]
  {
    s' := Step(above, own, acts, s, ParentAccess);
    acts' := acts + [ParentAccess];
  }

  /** An access of a child held by a group that has ended, and one of its parent after that. */
  lemma MisjudgedPair(above: Label, own: Segment, acts: seq<Action>, s: State, h: nat, c: nat)
    requires TeamRun(above, own, acts, s) && h in s.accesses && c in s.accesses && h < c && s.ops == [Begin, End]
    requires s.accesses[h].actor.Task? && s.accesses[h].at.ops == 1
    requires s.accesses[c].actor.Parent? && s.accesses[c].at.ops == 2 && s.accesses[c].at.waits == s.accesses[h].at.waits
    ensures Truth(s.graph, h, c) == Ordered
    ensures HappensBefore(LabelOf(s, s.accesses[h]), LabelOf(s, s.accesses[c])) == Concurrent
  {
    OneGroup();
    TaskSync.RunInv(above, own, acts, s);
    assert PairRight(s, h, c);
    PairVerdict(above, own, acts, s, h, c);
  }

  /** The smallest run in which the missing mark matters: a group holds one child, the child
      makes an access and is done, the group ends, and the parent's access is judged
      concurrent with the child's although the group orders them. */
  lemma ParentMisjudgedAfterGroup(above: Label, own: Segment) returns (acts: seq<Action>, s: State)
    requires Begins(own) && own.span >= 2 && own.groupId + 2 < FIELD16 && own.taskcreate + 1 < MAX_TASKCREATE
    ensures TeamRun(above, own, acts, s) && 2 in s.accesses && 4 in s.accesses
    ensures Truth(s.graph, 2, 4) == Ordered
    ensures HappensBefore(LabelOf(s, s.accesses[2]), LabelOf(s, s.accesses[4])) == Concurrent
  {
    acts, s := ChildInGroup(above, own);
    acts, s := ChildRuns(above, own, acts, s);
    acts, s := GroupCloses(above, own, acts, s);
    acts, s := ParentFollows(above, own, acts, s);
    assert [Begin] + [End] == [Begin, End];
    MisjudgedPair(above, own, acts, s, 2, 4);
  }

  lemma WaitCloses(above: Label, own: Segment, acts: seq<Action>, s: State) returns (acts': seq<Action>, s': State)
    requires Run(above, own, acts, s) && |s.graph| == 3 && |s.children| == 1 && s.children[0].done
    requires s.seg < |s.store| && s.store[s.seg].taskwait + 1 < MAX_TASKWAIT
    ensures Run(above, own, acts', s') && |s'.graph| == 4 && s'.waits == s.waits + 1 && s'.accesses == s.accesses
  {
    s' := Step(above, own, acts, s, TaskWaitEnd);
    acts' := acts + [TaskWaitEnd];
  }

  lemma ChildMade(above: Label, own: Segment) returns (acts: seq<Action>, s: State)
    requires own.taskcreate + 1 < MAX_TASKCREATE
    ensures Run(above, own, acts, s) && s.waits == 0 && |s.graph| == 2 && s.seg < |s.store|
    ensures s.store[s.seg].taskwait == own.taskwait
    ensures |s.children| == 1 && !s.children[0].done && s.children[0].at == Point(0, 0, 0)
  {
    acts, s := [], Init(above, own);
    s := Step(above, own, acts, s, Create);
    acts := acts + [Create];
  }

  /** A child's access, a taskwait and an access of the parent: ordered, and judged so. */
  lemma ParentAfterTaskwait(above: Label, own: Segment) returns (acts: seq<Action>, s: State)
    requires Begins(own) && own.span >= 2 && own.taskwait + 1 < 16 && own.taskcreate + 1 < 0x8000 && own.groupId < FIELD16
    ensures TeamRun(above, own, acts, s) && 2 in s.accesses && 4 in s.accesses
    ensures s.accesses[2].actor == Task(0) && s.accesses[4].actor == Parent && Truth(s.graph, 2, 4) == Ordered
    ensures HappensBefore(LabelOf(s, s.accesses[2]), LabelOf(s, s.accesses[4])) == Ordered
  {
    acts, s := ChildMade(above, own);
    acts, s := ChildRuns(above, own, acts, s);
    acts, s := WaitCloses(above, own, acts, s);
    acts, s := ParentFollows(above, own, acts, s);
    TaskSync.RunInv(above, own, acts, s);
    assert PairRight(s, 2, 4);
    PairVerdict(above, own, acts, s, 2, 4);
  }
}
