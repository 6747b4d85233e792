/** What the label comparison answers, told from the shape of two labels: the prefix they
    share, the two segments at which they part, and what follows these. */
module VerdictShapes {
  import opened Segments
  import opened Core

  // Where two labels part.

  lemma {:induction false} CompareSkips(above: Label, h: Label, c: Label, i: nat)
    requires i <= |above|
    ensures CompareFrom(above + h, above + c, i) == CompareFrom(above + h, above + c, |above|)
    decreases |above| - i
  {
    if i < |above| {
      assert (above + h)[i] == above[i] == (above + c)[i];
      CompareSkips(above, h, c, i + 1);
    }
  }

  lemma {:induction false} CompareRest(l: Label, r: Label, i: nat)
    requires i <= |l| <= |r| && forall j | i <= j < |l| :: SameSegment(l[j], r[j])
    ensures CompareFrom(l, r, i) == if |l| == |r| then SAME_LABEL else LEFT_IS_PREFIX
    decreases |l| - i
  {
    if i < |l| { CompareRest(l, r, i + 1); }
  }

  /** The same segments so far, and no more in the first label: ordered. */
  lemma SameSegments(above: Label, h: Label, c: Label)
    requires |h| <= |c| && forall j | 0 <= j < |h| :: SameSegment(h[j], c[j])
    ensures HappensBefore(above + h, above + c) == Ordered
  {
    CompareSkips(above, h, c, 0);
    forall i | |above| <= i < |above + h| ensures SameSegment((above + h)[i], (above + c)[i]) {
      assert (above + h)[i] == h[i - |above|] && (above + c)[i] == c[i - |above|];
    }
    CompareRest(above + h, above + c, |above|);
  }

  lemma {:induction false} CompareLonger(l: Label, tail: Label, i: nat)
    requires i <= |l| && tail != []
    ensures CompareFrom(l + tail, l, i) == RIGHT_IS_PREFIX
    decreases |l| - i
  {
    if i < |l| {
      assert (l + tail)[i] == l[i];
      CompareLonger(l, tail, i + 1);
    }
  }

  /** A later access cannot be one of an ancestor as it was before. */
  lemma LongerAborts(l: Label, tail: Label)
    requires tail != []
    ensures HappensBefore(l + tail, l) == Fatal
  {
    CompareLonger(l, tail, 0);
  }

  lemma PartsAt(above: Label, h: Label, c: Label)
    requires h != [] && c != [] && !SameSegment(h[0], c[0])
    ensures CompareLabels(above + h, above + c) == |above|
    ensures HappensBefore(above + h, above + c) == JudgeAt(above + h, above + c, |above|)
    ensures (above + h)[|above|] == h[0] && (above + c)[|above|] == c[0]
    ensures |h| > 1 ==> (above + h)[|above| + 1] == h[1]
    ensures |c| > 1 ==> (above + c)[|above| + 1] == c[1]
  {
    CompareSkips(above, h, c, 0);
  }

  /** Two segments are the same to the comparison exactly when all fields of the packed word
      agree and, for work-share segments, the ids. */
  lemma SameMeans(x: Segment, y: Segment)
    ensures SameSegment(x, y) <==>
      && x.kind == y.kind && x.offset == y.offset && x.span == y.span && x.taskwait == y.taskwait
      && x.phase == y.phase && x.loopCount == y.loopCount && x.taskcreate == y.taskcreate
      && x.groupSync == y.groupSync && x.taskwaited == y.taskwaited && x.flag2 == y.flag2
      && (x.kind == WorkShare ==> x.workShareId == y.workShareId)
  {
    var v, w := Value(x), Value(y);
    assert v.kind == x.kind && v.offset == x.offset && v.span == x.span && v.taskwait == x.taskwait;
    assert v.phase == x.phase && v.loopCount == x.loopCount && v.taskcreate == x.taskcreate;
    assert v.groupSync == x.groupSync && v.taskwaited == x.taskwaited && v.flag2 == x.flag2;
    assert w.kind == y.kind && w.offset == y.offset && w.span == y.span && w.taskwait == y.taskwait;
    assert w.phase == y.phase && w.loopCount == y.loopCount && w.taskcreate == y.taskcreate;
    assert w.groupSync == y.groupSync && w.taskwaited == y.taskwaited && w.flag2 == y.flag2;
  }

  // Implicit tasks of one team.

  /** Two implicit tasks of one team, or two epochs of one: a later epoch of the same member is
      ordered, whatever both created; other members are concurrent, unless an ordered section
      of a loop both are in decides. */
  lemma MembersPart(above: Label, h: Label, c: Label)
    requires h != [] && c != [] && h[0].kind == Implicit && c[0].kind == Implicit
    requires h[0].span == c[0].span && h[0].span >= 2 && h[0].offset != c[0].offset
    ensures h[0].offset % h[0].span == c[0].offset % h[0].span ==>
      HappensBefore(above + h, above + c) == if h[0].offset < c[0].offset then Ordered else Fatal
    ensures h[0].offset % h[0].span != c[0].offset % h[0].span && !BothIterate(h, c) ==>
      HappensBefore(above + h, above + c) == Concurrent
    ensures h[0].offset % h[0].span != c[0].offset % h[0].span && BothIterate(h, c) ==>
      HappensBefore(above + h, above + c) ==
        if h[1].flag2 || c[1].flag2 || h[0].loopCount != c[0].loopCount || !RankedBefore(h[1], c[1]) then Concurrent
        else LeavesSection(h[1], h[2..])
  {
    SameMeans(h[0], c[0]);
    PartsAt(above, h, c);
    if BothIterate(h, c) { SectionsMean(above + h, above + c, |above| + 1, h[2..]); }
  }

  predicate BothIterate(h: Label, c: Label) {
    |h| > 1 && |c| > 1 && h[1].kind == WorkShare && c[1].kind == WorkShare
  }

  /** The ordered sections left by the one are fewer than those entered by the other. */
  predicate RankedBefore(x: Segment, y: Segment) {
    x.phase / 2 < (y.phase + 1) / 2
  }

  /** The verdict where the ranks do order: on the iteration itself, or on what is below it. */
  function LeavesSection(x: Segment, below: Label): Verdict {
    if below == [] then Ordered
    else match below[0].kind
      case Implicit => Ordered
      case WorkShare => Fatal
      case Explicit =>
        if x.groupLevel > 0 && (x.phase % 2 == 1 || (below[0].groupSync && below[0].groupId <= x.phase)) then Ordered
        else FromBool(below[0].taskwaited && below[0].orderSecVal % FIELD16 <= x.phase && ChainHolds(below))
  }

  /** Every explicit task below was waited for, or is at or below one that awaits its descendants. */
  predicate ChainHolds(below: Label) {
    |below| == 1 || forall i | 0 <= i < |below| && below[i].kind == Explicit && !below[i].taskwaited :: AwaitedWithin(below, 0, i)
  }

  lemma {:induction false} ChainShifts(front: Label, below: Label, i: nat)
    requires i <= |below|
    ensures SyncChainFrom(front + below, |front| + i) == SyncChainFrom(below, i)
    decreases |below| - i
  {
    if i < |below| {
      assert (front + below)[|front| + i] == below[i];
      ChainShifts(front, below, i + 1);
    }
  }

  lemma ChainMeans(l: Label, front: Label, below: Label)
    requires l == front + below && below != []
    ensures SyncChain(l, |front|) <==> ChainHolds(below)
  {
    ChainShifts(front, below, 0);
    SyncChainMeaning(below, 0);
  }

  lemma RanksMean(x: Segment, y: Segment)
    ensures ExitRank(x.phase) < EnterRank(y.phase) <==> RankedBefore(x, y)
  {
  }

  lemma SectionsMean(h: Label, c: Label, d: nat, below: Label)
    requires d < |h| && d < |c| && h[d + 1..] == below
    ensures OrderedSection(h, c, d) ==
      if h[d].flag2 || c[d].flag2 || !RankedBefore(h[d], c[d]) then Concurrent else LeavesSection(h[d], below)
  {
    RanksMean(h[d], c[d]);
    if below != [] {
      assert h == h[..d + 1] + below;
      assert h[d + 1] == below[0];
      ChainMeans(h, h[..d + 1], below);
    }
  }

  // One task at two points of its course.

  /** Labels that part at segments of one task, implicit or explicit: the task's own access is
      ordered; a descendant's access is ordered before the task's own or a later child's by the
      waits, groups and marks. */
  lemma TaskParts(above: Label, h: Label, c: Label)
    requires h != [] && c != [] && !SameSegment(h[0], c[0]) && SameTaskSegments(h[0], c[0])
    ensures HappensBefore(above + h, above + c) ==
      if |h| == 1 then Ordered
      else if |c| == 1 then BeforeOwn(h, c[0])
      else BeforeDescendant(h, c)
  {
    PartsAt(above, h, c);
    if |h| > 1 {
      assert above + h == (above + [h[0]]) + h[1..];
      ChainMeans(above + h, above + [h[0]], h[1..]);
    }
  }

  /** Segments at which the same task goes on. */
  predicate SameTaskSegments(x: Segment, y: Segment) {
    && x.span == y.span
    && ((x.span >= 2 && x.offset == y.offset) || (x.span == 1 && x.kind == Explicit && y.kind == Explicit) ||
        (x.span == 1 && x.kind == WorkShare && y.kind == WorkShare && BothExecute(x, y)))
  }

  /** Bit 63 marks the executor of a single construct. */
  predicate BothExecute(x: Segment, y: Segment) {
    && SINGLE_EXEC <= x.workShareId < 2 * SINGLE_EXEC
    && SINGLE_EXEC <= y.workShareId < 2 * SINGLE_EXEC
  }

  function BeforeOwn(h: Label, y: Segment): Verdict
    requires |h| > 1
  {
    match h[1].kind
    case Implicit => Fatal
    case WorkShare => FromBool(h[1].flag2)
    case Explicit =>
      if y.taskwait < h[0].taskwait then Fatal
      else if y.taskwait > h[0].taskwait then FromBool(ChainHolds(h[1..]))
      else FromBool(h[0].groupLevel > 0 && h[1].groupSync)
  }

  function BeforeDescendant(h: Label, c: Label): Verdict
    requires |h| > 1 && |c| > 1
  {
    if h[1].kind == Implicit && c[1].kind == Implicit then Fatal
    else if h[1].kind != Explicit || c[1].kind == Implicit then Concurrent
    else if h[0].groupId < c[0].groupId && h[0].groupLevel >= c[0].groupLevel then Ordered
    else if h[0].taskwait == c[0].taskwait then Concurrent
    else if h[0].taskwait > c[0].taskwait then Fatal
    else FromBool(ChainHolds(h[1..]))
  }

  // Work sharing.

  /** Two iterations or sections, or an executor and another: concurrent, unless both have left
      the place-holder behind and the ordered sections order them. */
  lemma IterationsPart(above: Label, h: Label, c: Label)
    requires h != [] && c != [] && !SameSegment(h[0], c[0])
    requires h[0].kind == WorkShare && c[0].kind == WorkShare && h[0].span == 1 && c[0].span == 1
    requires h[0].workShareId < 2 * SINGLE_EXEC && c[0].workShareId < 2 * SINGLE_EXEC && !BothExecute(h[0], c[0])
    ensures CompareLabels(above + h, above + c) == |above|
    ensures HappensBefore(above + h, above + c) ==
      if h[0].flag2 || c[0].flag2 || !RankedBefore(h[0], c[0]) then Concurrent else LeavesSection(h[0], h[1..])
  {
    PartsAt(above, h, c);
    SectionsMean(above + h, above + c, |above|, h[1..]);
  }

  /** Different work-share ids make different segments. */
  lemma DifferentIds(above: Label, h: Label, c: Label)
    requires h != [] && c != [] && h[0].kind == WorkShare && c[0].kind == WorkShare && h[0].workShareId != c[0].workShareId
    ensures CompareLabels(above + h, above + c) == |above|
  {
    SameMeans(h[0], c[0]);
    PartsAt(above, h, c);
  }

  // The initial task, and labels that cannot meet.

  /** The initial task, or the only member of a team, in two epochs. */
  lemma AlonePart(above: Label, h: Label, c: Label)
    requires h != [] && c != [] && !SameSegment(h[0], c[0])
    requires h[0].kind == Implicit && c[0].kind == Implicit && h[0].span == 1 && c[0].span == 1
    ensures HappensBefore(above + h, above + c) == if h[0].offset < c[0].offset then Ordered else Fatal
  {
    PartsAt(above, h, c);
  }

  /** Labels of one run never part at segments of different teams or of different kinds, nor at
      a span of zero, whose remainder is undefined. */
  lemma StrangersAbort(above: Label, h: Label, c: Label)
    requires h != [] && c != []
    requires h[0].span != c[0].span || (h[0].span == 1 && h[0].kind != c[0].kind) ||
             (h[0].span == 0 && h[0].offset != c[0].offset)
    ensures HappensBefore(above + h, above + c) == Fatal
  {
    SameMeans(h[0], c[0]);
    PartsAt(above, h, c);
  }
}
