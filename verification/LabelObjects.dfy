/** Labels as the program holds them (Label.cpp): sequences of shared segment objects.
    A transition copies the label, replaces segments of the copy by changed clones, and
    writes no existing segment; only the sync marks are made in place. */
module LabelObjects {
  import opened Segments
  import opened Core
  import Labels

  /** A segment object, seen through the fields of its packed words (module PackedSegments). */
  class SharedSegment {
    var fields: Segment

    constructor (fields: Segment)
      ensures this.fields == fields
    {
      this.fields := fields;
    }
  }

  class LabelObject {
    var segments: seq<SharedSegment>

    /** The label as a value. */
    ghost function View(): (l: Label)
      reads this, segments
      ensures |l| == |segments|
      ensures forall i | 0 <= i < |l| :: l[i] == segments[i].fields
    {
      seq(|segments|, i requires 0 <= i < |segments| reads this, segments => segments[i].fields)
    }

    constructor ()
      ensures segments == []
    {
      segments := [];
    }

    /** The copy shares the segments. */
    constructor Copy(l: LabelObject)
      ensures segments == l.segments
    {
      segments := l.segments;
    }

    method Append(s: SharedSegment)
      modifies this
      ensures segments == old(segments) + [s]
    {
      segments := segments + [s];
    }

    method Pop() returns (s: SharedSegment)
      requires segments != []
      modifies this
      ensures old(segments) == segments + [s]
    {
      s := segments[|segments| - 1];
      segments := segments[..|segments| - 1];
    }

    method LastKth(k: nat) returns (s: SharedSegment)
      requires 1 <= k <= |segments|
      ensures s == segments[|segments| - k]
    {
      s := segments[|segments| - k];
    }

    method SetLastKth(k: nat, s: SharedSegment)
      requires 1 <= k <= |segments|
      modifies this
      ensures segments == old(segments)[|old(segments)| - k := s]
    {
      segments := segments[|segments| - k := s];
    }
  }

  method Compare(left: LabelObject, right: LabelObject) returns (r: int)
    ensures r == CompareLabels(left.View(), right.View())
  {
    var n := if |left.segments| < |right.segments| then |left.segments| else |right.segments|;
    for i := 0 to n
      invariant CompareLabels(left.View(), right.View()) == CompareFrom(left.View(), right.View(), i)
    {
      if !SameSegment(left.segments[i].fields, right.segments[i].fields) { return i; }
    }
    if |left.segments| == |right.segments| { return SAME_LABEL; }
    if n == |left.segments| { return LEFT_IS_PREFIX; }
    return RIGHT_IS_PREFIX;
  }

  /** `analyzeSyncChain` */
  method AnalyzeSyncChain(l: LabelObject, start: nat) returns (r: bool)
    requires start < |l.segments|
    ensures r == SyncChain(l.View(), start)
  {
    if start == |l.segments| - 1 { return true; }
    ghost var h := l.View();
    for i := start to |l.segments|
      invariant SyncChainFrom(h, start) == SyncChainFrom(h, i)
    {
      var s := l.segments[i].fields;
      if s.kind.Implicit? { return true; }
      if s.kind.Explicit? {
        if s.groupLevel > 0 { return true; }
        if !s.taskwaited { return false; }
      }
    }
    return true;
  }

  // The transitions.

  method InitTask() returns (m: LabelObject)
    ensures fresh(m) && fresh(m.segments) && m.View() == Labels.InitTask()
  {
    m := new LabelObject();
    var s := new SharedSegment(NewSegment(Implicit, 0, 1));
    m.Append(s);
  }

  method ImpTask(parent: LabelObject, index: nat, parallelism: nat) returns (m: LabelObject)
    requires parallelism < FIELD16
    ensures fresh(m) && m.View() == Labels.ImpTask(parent.View(), index, parallelism)
    ensures forall s | s in m.segments :: s in parent.segments || fresh(s)
  {
    m := new LabelObject.Copy(parent);
    var s := new SharedSegment(NewSegment(Implicit, index % FIELD16, parallelism));
    m.Append(s);
  }

  method ExpTask(parent: LabelObject) returns (m: LabelObject)
    ensures fresh(m) && m.View() == Labels.ExpTask(parent.View())
    ensures forall s | s in m.segments :: s in parent.segments || fresh(s)
  {
    m := new LabelObject.Copy(parent);
    var s := new SharedSegment(NewSegment(Explicit, 0, 1));
    m.Append(s);
  }

  /** `mutateParentImpEnd`, `mutateTaskComplete` and `mutateSingleEnd` drop the last segment. */
  method DropLast(l: LabelObject) returns (m: LabelObject)
    requires l.segments != []
    ensures fresh(m) && m.View() == Labels.DropLast(l.View())
    ensures forall s | s in m.segments :: s in l.segments || fresh(s)
  {
    m := new LabelObject.Copy(l);
    var _ := m.Pop();
  }

  /** Pop the last segment, change a clone of it and append that. */
  method ReplaceLast(l: LabelObject) returns (m: LabelObject, clone: SharedSegment)
    requires l.segments != []
    ensures fresh(m) && fresh(clone) && clone.fields == l.segments[|l.segments| - 1].fields
    ensures m.segments == l.segments[..|l.segments| - 1] + [clone]
  {
    m := new LabelObject.Copy(l);
    var last := m.Pop();
    clone := new SharedSegment(last.fields);
    m.Append(clone);
  }

  method ParentTaskCreate(l: LabelObject) returns (m: LabelObject)
    requires l.segments != [] && Labels.Last(l.View()).taskcreate + 1 < 0x8000
    ensures fresh(m) && m.View() == Labels.ParentTaskCreate(l.View())
    ensures forall s | s in m.segments :: s in l.segments || fresh(s)
  {
    var s;
    m, s := ReplaceLast(l);
    s.fields := s.fields.(taskcreate := s.fields.taskcreate + 1);
  }

  method BarrierEnd(l: LabelObject) returns (m: LabelObject)
    requires |l.segments| >= 2
    ensures fresh(m) && m.View() == Labels.BarrierEnd(l.View())
    ensures forall s | s in m.segments :: s in l.segments || fresh(s)
  {
    m := new LabelObject.Copy(l);
    var s := m.LastKth(2);
    var clone := new SharedSegment(s.fields);
    clone.fields := clone.fields.(offset := (clone.fields.offset + clone.fields.span) % FIELD16);
    m.SetLastKth(2, clone);
  }

  method TaskWait(l: LabelObject) returns (m: LabelObject)
    requires l.segments != [] && Labels.Last(l.View()).taskwait + 1 < 16
    ensures fresh(m) && m.View() == Labels.TaskWait(l.View())
    ensures forall s | s in m.segments :: s in l.segments || fresh(s)
  {
    var s;
    m, s := ReplaceLast(l);
    s.fields := s.fields.(taskwait := s.fields.taskwait + 1);
  }

  method TaskGroupBegin(l: LabelObject) returns (m: LabelObject)
    requires l.segments != []
    ensures fresh(m) && m.View() == Labels.TaskGroupBegin(l.View())
    ensures forall s | s in m.segments :: s in l.segments || fresh(s)
  {
    var s;
    m, s := ReplaceLast(l);
    s.fields := Labels.GroupBegin(s.fields);
  }

  method TaskGroupEnd(l: LabelObject) returns (m: LabelObject)
    requires l.segments != []
    ensures fresh(m) && m.View() == Labels.TaskGroupEnd(l.View())
    ensures forall s | s in m.segments :: s in l.segments || fresh(s)
  {
    var s;
    m, s := ReplaceLast(l);
    s.fields := Labels.GroupEnd(s.fields);
  }

  method LoopBegin(l: LabelObject) returns (m: LabelObject)
    ensures fresh(m) && m.View() == Labels.LoopBegin(l.View())
    ensures forall s | s in m.segments :: s in l.segments || fresh(s)
  {
    m := new LabelObject.Copy(l);
    var s := new SharedSegment(NewSegment(WorkShare, 0, 1));
    s.fields := s.fields.(flag2 := true);
    m.Append(s);
  }

  method LoopEnd(l: LabelObject) returns (m: LabelObject)
    requires |l.segments| >= 2 && Labels.Last(Labels.DropLast(l.View())).loopCount + 1 < 16
    ensures fresh(m) && m.View() == Labels.LoopEnd(l.View())
    ensures forall s | s in m.segments :: s in l.segments || fresh(s)
  {
    m := new LabelObject.Copy(l);
    var _ := m.Pop();
    var s := m.Pop();
    var clone := new SharedSegment(s.fields.(loopCount := s.fields.loopCount + 1));
    m.Append(clone);
  }

  method OrderSection(l: LabelObject) returns (m: LabelObject)
    requires l.segments != [] && Labels.Last(l.View()).phase + 1 < 16
    ensures fresh(m) && m.View() == Labels.OrderSection(l.View())
    ensures forall s | s in m.segments :: s in l.segments || fresh(s)
  {
    var s;
    m, s := ReplaceLast(l);
    s.fields := s.fields.(phase := s.fields.phase + 1);
  }

  /** `mutateSingleExecBegin` and `mutateSingleOtherBegin`. */
  method SingleBegin(l: LabelObject, executor: bool) returns (m: LabelObject)
    ensures fresh(m) && m.View() == Labels.SingleBegin(l.View(), executor)
    ensures forall s | s in m.segments :: s in l.segments || fresh(s)
  {
    m := new LabelObject.Copy(l);
    var s := new SharedSegment(NewSegment(WorkShare, 0, 1));
    s.fields := s.fields.(workShareId := if executor then SINGLE_EXEC else SINGLE_OTHER);
    m.Append(s);
  }

  method WorkShareDispatch(l: LabelObject, id: nat, isSection: bool) returns (m: LabelObject)
    requires l.segments != []
    ensures fresh(m) && m.View() == Labels.WorkShareDispatch(l.View(), id, isSection)
    ensures forall s | s in m.segments :: s in l.segments || fresh(s)
  {
    m := new LabelObject.Copy(l);
    var _ := m.Pop();
    var s := new SharedSegment(NewSegment(WorkShare, 0, 1).(workShareId := id, flag2 := isSection));
    m.Append(s);
  }

  /** The taskwait mark of `markExpChildSyncTaskwait`, made in place on a shared segment. */
  method MarkTaskwaited(l: LabelObject, phase: nat)
    requires l.segments != []
    modifies l.segments[|l.segments| - 1]
    ensures var s := l.segments[|l.segments| - 1]; s.fields == SetTaskwaitPhase(SetTaskwaited(old(s.fields)), phase)
  {
    var s := l.segments[|l.segments| - 1];
    s.fields := SetTaskwaitPhase(SetTaskwaited(s.fields), phase);
  }

  /** `mutateTaskGroupSyncChild`: the copy shares the marked segment. */
  method TaskGroupSyncChild(l: LabelObject) returns (m: LabelObject)
    requires l.segments != []
    modifies l.segments[|l.segments| - 1]
    ensures fresh(m) && m.segments == l.segments
    ensures var s := l.segments[|l.segments| - 1]; s.fields == SetTaskGroupSync(old(s.fields))
  {
    m := new LabelObject.Copy(l);
    var s := m.LastKth(1);
    s.fields := SetTaskGroupSync(s.fields);
  }

  // Whole runs of transitions over all labels made so far.

  datatype Op =
    | DoImpTask(src: nat, index: nat, parallelism: nat)
    | DoExpTask(src: nat)
    | DoDropLast(src: nat)
    | DoTaskCreate(src: nat)
    | DoBarrierEnd(src: nat)
    | DoTaskWait(src: nat)
    | DoGroupBegin(src: nat)
    | DoGroupEnd(src: nat)
    | DoLoopBegin(src: nat)
    | DoLoopEnd(src: nat)
    | DoOrderSection(src: nat)
    | DoSingleBegin(src: nat, executor: bool)
    | DoDispatch(src: nat, id: nat, isSection: bool)
    | DoMarkTaskwaited(src: nat, phase: nat)
    | DoGroupSync(src: nat)

  /** A segment without what may be written in place: the two marks and the recorded phase. */
  function Frozen(s: Segment): Segment {
    s.(taskwaited := false, groupSync := false, orderSecVal := 0)
  }

  function FrozenLabel(l: Label): (f: Label)
    ensures |f| == |l| && forall i | 0 <= i < |l| :: f[i] == Frozen(l[i])
  {
    seq(|l|, i requires 0 <= i < |l| => Frozen(l[i]))
  }

  datatype Made = Nothing | New(tag: Label)

  /** What a transition makes of a label value; nothing where the program would abort. */
  function Make(l: Label, op: Op): Made {
    match op
    case DoImpTask(_, index, n) => if n < FIELD16 then New(Labels.ImpTask(l, index, n)) else Nothing
    case DoExpTask(_) => New(Labels.ExpTask(l))
    case DoDropLast(_) => if l != [] then New(Labels.DropLast(l)) else Nothing
    case DoTaskCreate(_) => if l != [] && Labels.Last(l).taskcreate + 1 < 0x8000 then New(Labels.ParentTaskCreate(l)) else Nothing
    case DoBarrierEnd(_) => if |l| >= 2 then New(Labels.BarrierEnd(l)) else Nothing
    case DoTaskWait(_) => if l != [] && Labels.Last(l).taskwait + 1 < 16 then New(Labels.TaskWait(l)) else Nothing
    case DoGroupBegin(_) => if l != [] then New(Labels.TaskGroupBegin(l)) else Nothing
    case DoGroupEnd(_) => if l != [] then New(Labels.TaskGroupEnd(l)) else Nothing
    case DoLoopBegin(_) => New(Labels.LoopBegin(l))
    case DoLoopEnd(_) =>
      if |l| >= 2 && l[|l| - 2].loopCount + 1 < 16 then New(Labels.LoopEnd(l)) else Nothing
    case DoOrderSection(_) => if l != [] && Labels.Last(l).phase + 1 < 16 then New(Labels.OrderSection(l)) else Nothing
    case DoSingleBegin(_, executor) => New(Labels.SingleBegin(l, executor))
    case DoDispatch(_, id, isSection) => if l != [] then New(Labels.WorkShareDispatch(l, id, isSection)) else Nothing
    case DoMarkTaskwaited(_, _) => Nothing
    case DoGroupSync(_) => if l != [] then New(l) else Nothing
  }

  /** The labels a run makes, were nothing ever written in place. */
  function AllLabels(ops: seq<Op>): seq<Label> {
    if ops == [] then [Labels.InitTask()]
    else
      var n := |ops| - 1;
      var made, op := AllLabels(ops[..n]), ops[n];
      if op.src >= |made| then made
      else match Make(made[op.src], op)
        case Nothing => made
        case New(l) => made + [l]
  }

  predicate AllFit(l: Label) {
    forall s | s in l :: Fits(s)
  }

  predicate IdFits(op: Op) {
    op.DoDispatch? ==> op.id < 0x1_0000_0000_0000_0000
  }

  /** The checks on counters and spans are what keeps every segment within its fields. */
  lemma MakeFits(l: Label, op: Op)
    requires AllFit(l) && IdFits(op) && Make(l, op).New?
    ensures AllFit(Make(l, op).tag)
  {
    var m := Make(l, op).tag;
    forall i | 0 <= i < |m| ensures Fits(m[i]) {
      if i < |l| { assert l[i] in l; }
      if 0 < |l| { assert Labels.Last(l) in l; }
      if 1 < |l| { assert l[|l| - 2] in l; }
    }
  }

  /** In every run, every label fits its packed words. */
  lemma {:induction false} LabelsFit(ops: seq<Op>)
    requires forall op | op in ops :: IdFits(op)
    ensures forall l | l in AllLabels(ops) :: AllFit(l)
  {
    if ops != [] {
      var n := |ops| - 1;
      LabelsFit(ops[..n]);
      var made := AllLabels(ops[..n]);
      if ops[n].src < |made| && Make(made[ops[n].src], ops[n]).New? {
        assert made[ops[n].src] in made;
        MakeFits(made[ops[n].src], ops[n]);
      }
    }
  }

  /** Just beyond, the program aborts instead. */
  lemma CountersAbort(base: Label, x: Segment, src: nat)
    ensures x.taskwait == 15 ==> Make(base + [x], DoTaskWait(src)) == Nothing
    ensures x.taskwait < 15 ==> Make(base + [x], DoTaskWait(src)) == New(base + [x.(taskwait := x.taskwait + 1)])
    ensures x.taskcreate == 0x7fff ==> Make(base + [x], DoTaskCreate(src)) == Nothing
    ensures x.taskcreate < 0x7fff ==> Make(base + [x], DoTaskCreate(src)) == New(base + [x.(taskcreate := x.taskcreate + 1)])
    ensures x.phase == 15 ==> Make(base + [x], DoOrderSection(src)) == Nothing
    ensures x.phase < 15 ==> Make(base + [x], DoOrderSection(src)) == New(base + [x.(phase := x.phase + 1)])
  {
    assert Labels.DropLast(base + [x]) == base;
  }

  /** Transitions neither read nor write what is frozen away. */
  lemma MakeFrozen(l: Label, op: Op)
    ensures Make(FrozenLabel(l), op).New? == Make(l, op).New?
    ensures Make(l, op).New? ==> FrozenLabel(Make(l, op).tag) == FrozenLabel(Make(FrozenLabel(l), op).tag)
  {
  }

  /** The transitions of tasks and barriers; no existing object is written. */
  method TaskTransition(l: LabelObject, op: Op) returns (m: LabelObject?)
    requires op.DoImpTask? || op.DoExpTask? || op.DoDropLast? || op.DoTaskCreate? || op.DoBarrierEnd? || op.DoTaskWait?
    ensures (m != null) == Make(l.View(), op).New?
    ensures m != null ==> fresh(m) && m.View() == Make(l.View(), op).tag
    ensures m != null ==> forall s | s in m.segments :: s in l.segments || fresh(s)
  {
    m := null;
    var n := |l.segments|;
    match op {
      case DoImpTask(_, index, k) => if k < FIELD16 { m := ImpTask(l, index, k); }
      case DoExpTask(_) => m := ExpTask(l);
      case DoDropLast(_) => if n > 0 { m := DropLast(l); }
      case DoTaskCreate(_) => if n > 0 && l.segments[n - 1].fields.taskcreate + 1 < 0x8000 { m := ParentTaskCreate(l); }
      case DoBarrierEnd(_) => if n >= 2 { m := BarrierEnd(l); }
      case DoTaskWait(_) => if n > 0 && l.segments[n - 1].fields.taskwait + 1 < 16 { m := TaskWait(l); }
    }
  }

  /** The transitions of taskgroups. */
  method GroupTransition(l: LabelObject, op: Op) returns (m: LabelObject?)
    requires op.DoGroupBegin? || op.DoGroupEnd?
    ensures (m != null) == Make(l.View(), op).New?
    ensures m != null ==> fresh(m) && m.View() == Make(l.View(), op).tag
    ensures m != null ==> forall s | s in m.segments :: s in l.segments || fresh(s)
  {
    m := null;
    if l.segments != [] {
      if op.DoGroupBegin? { m := TaskGroupBegin(l); } else { m := TaskGroupEnd(l); }
    }
  }

  /** The transitions of work sharing. */
  method WorkTransition(l: LabelObject, op: Op) returns (m: LabelObject?)
    requires op.DoLoopBegin? || op.DoLoopEnd? || op.DoOrderSection? || op.DoSingleBegin? || op.DoDispatch?
    ensures (m != null) == Make(l.View(), op).New?
    ensures m != null ==> fresh(m) && m.View() == Make(l.View(), op).tag
    ensures m != null ==> forall s | s in m.segments :: s in l.segments || fresh(s)
  {
    m := null;
    var n := |l.segments|;
    match op {
      case DoLoopBegin(_) => m := LoopBegin(l);
      case DoLoopEnd(_) => if n >= 2 && l.segments[n - 2].fields.loopCount + 1 < 16 { m := LoopEnd(l); }
      case DoOrderSection(_) => if n > 0 && l.segments[n - 1].fields.phase + 1 < 16 { m := OrderSection(l); }
      case DoSingleBegin(_, executor) => m := SingleBegin(l, executor);
      case DoDispatch(_, id, isSection) => if n > 0 { m := WorkShareDispatch(l, id, isSection); }
    }
  }

  predicate WritesInPlace(op: Op) {
    op.DoMarkTaskwaited? || op.DoGroupSync?
  }

  method PureTransition(l: LabelObject, op: Op) returns (m: LabelObject?)
    requires !WritesInPlace(op)
    ensures (m != null) == Make(l.View(), op).New?
    ensures m != null ==> fresh(m) && m.View() == Make(l.View(), op).tag
    ensures m != null ==> forall s | s in m.segments :: s in l.segments || fresh(s)
  {
    if op.DoGroupBegin? || op.DoGroupEnd? {
      m := GroupTransition(l, op);
    } else if op.DoLoopBegin? || op.DoLoopEnd? || op.DoOrderSection? || op.DoSingleBegin? || op.DoDispatch? {
      m := WorkTransition(l, op);
    } else {
      m := TaskTransition(l, op);
    }
  }

  method MarkTransition(l: LabelObject, op: Op) returns (m: LabelObject?)
    requires WritesInPlace(op)
    modifies l.segments
    ensures (m != null) == Make(old(l.View()), op).New?
    ensures m != null ==> fresh(m) && m.segments == l.segments && Make(old(l.View()), op) == New(old(l.View()))
    ensures forall s | s in l.segments :: Frozen(s.fields) == old(Frozen(s.fields))
  {
    m := null;
    if l.segments == [] { return; }
    match op {
      case DoMarkTaskwaited(_, phase) => MarkTaskwaited(l, phase);
      case DoGroupSync(_) => m := TaskGroupSyncChild(l);
    }
  }

  /** The label objects are, up to what is frozen away, the label values of the run. */
  ghost predicate Matches(labels: seq<LabelObject>, segs: set<SharedSegment>, made: seq<Label>)
    reads labels, segs
  {
    && |labels| == |made|
    && (forall i | 0 <= i < |labels| :: forall s | s in labels[i].segments :: s in segs)
    && (forall i | 0 <= i < |labels| :: FrozenLabel(labels[i].View()) == FrozenLabel(made[i]))
  }

  /** Marks leave all labels matching. */
  method MarkStep(labels: seq<LabelObject>, ghost segs: set<SharedSegment>, ghost made: seq<Label>, op: Op)
    returns (m: LabelObject?)
    requires WritesInPlace(op) && Matches(labels, segs, made) && op.src < |labels|
    modifies segs
    ensures Matches(labels, segs, made) && (m != null) == Make(made[op.src], op).New?
    ensures m != null ==> fresh(m) && m.segments == labels[op.src].segments && Make(made[op.src], op) == New(made[op.src])
  {
    assert |made[op.src]| == |FrozenLabel(made[op.src])|;
    m := MarkTransition(labels[op.src], op);
    forall i | 0 <= i < |labels| ensures FrozenLabel(labels[i].View()) == FrozenLabel(made[i]) {
      assert FrozenLabel(labels[i].View()) == old(FrozenLabel(labels[i].View()));
    }
  }

  /** A new label from one that matches. */
  method PureStep(labels: seq<LabelObject>, ghost segs: set<SharedSegment>, ghost made: seq<Label>, op: Op)
    returns (m: LabelObject?)
    requires !WritesInPlace(op) && Matches(labels, segs, made) && op.src < |labels|
    ensures (m != null) == Make(made[op.src], op).New?
    ensures m != null ==> fresh(m) && FrozenLabel(m.View()) == FrozenLabel(Make(made[op.src], op).tag)
    ensures m != null ==> forall s | s in m.segments :: s in segs || fresh(s)
  {
    MakeFrozen(labels[op.src].View(), op);
    MakeFrozen(made[op.src], op);
    m := PureTransition(labels[op.src], op);
  }

  method RunStep(ops: seq<Op>, n: nat, labels: seq<LabelObject>, ghost segs: set<SharedSegment>)
    returns (labels': seq<LabelObject>, ghost segs': set<SharedSegment>)
    requires n < |ops| && Matches(labels, segs, AllLabels(ops[..n]))
    modifies segs
    ensures labels <= labels' && segs <= segs' && Matches(labels', segs', AllLabels(ops[..n + 1]))
    ensures forall i | |labels| <= i < |labels'| :: fresh(labels'[i])
    ensures fresh(segs' - segs)
  {
    ghost var made := AllLabels(ops[..n]);
    var op := ops[n];
    assert ops[..n + 1][..n] == ops[..n];
    labels', segs' := labels, segs;
    if op.src >= |labels| { return; }
    var m: LabelObject?;
    if WritesInPlace(op) {
      m := MarkStep(labels, segs, made, op);
    } else {
      m := PureStep(labels, segs, made, op);
    }
    if m != null {
      MatchesGrows(labels, segs, made, m, Make(made[op.src], op).tag);
      labels', segs' := labels + [m], segs + set s | s in m.segments;
    }
  }

  lemma MatchesGrows(labels: seq<LabelObject>, segs: set<SharedSegment>, made: seq<Label>, m: LabelObject, l: Label)
    requires Matches(labels, segs, made) && FrozenLabel(m.View()) == FrozenLabel(l)
    ensures Matches(labels + [m], segs + (set s | s in m.segments), made + [l])
  {
  }

  /** Snapshots are stable: after any run, every label object still has the length and,
      in each segment, the type, offset, span and counters it was made with, although the
      segments are shared; only the sync marks and the recorded phase may have changed. */
  method RunTransitions(ops: seq<Op>) returns (labels: seq<LabelObject>, ghost segs: set<SharedSegment>)
    ensures Matches(labels, segs, AllLabels(ops))
  {
    var first := InitTask();
    labels := [first];
    segs := set s | s in first.segments;
    for n := 0 to |ops|
      invariant Matches(labels, segs, AllLabels(ops[..n]))
      invariant fresh(segs) && forall i | 0 <= i < |labels| :: fresh(labels[i])
    {
      labels, segs := RunStep(ops, n, labels, segs);
    }
    assert ops[..|ops|] == ops;
  }
}
