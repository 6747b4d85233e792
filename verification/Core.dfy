/** The ordering verdict on two task labels (Core.cpp). */
module Core {
  import opened Segments

  type Label = seq<Segment>

  const SAME_LABEL: int := -3
  const LEFT_IS_PREFIX: int := -1
  const RIGHT_IS_PREFIX: int := -2

  /** `Fatal` stands for the branches that abort: RAW_LOG(FATAL) and failed RAW_CHECKs. */
  datatype Verdict = Ordered | Concurrent | Fatal

  function FromBool(b: bool): Verdict {
    if b then Ordered else Concurrent
  }

  /** First index at or after `i` where the labels differ, or one of the three codes. */
  function CompareFrom(left: Label, right: Label, i: nat): (r: int)
    requires i <= |left| && i <= |right|
    ensures r < 0 ==> r == SAME_LABEL || r == LEFT_IS_PREFIX || r == RIGHT_IS_PREFIX
    ensures r >= 0 ==> i <= r < |left| && r < |right| && !SameSegment(left[r], right[r])
    ensures r >= 0 ==> forall j | i <= j < r :: SameSegment(left[j], right[j])
    ensures r < 0 ==> forall j | i <= j < |left| && j < |right| :: SameSegment(left[j], right[j])
    ensures r == SAME_LABEL ==> |left| == |right|
    ensures r == LEFT_IS_PREFIX ==> |left| < |right|
    ensures r == RIGHT_IS_PREFIX ==> |right| < |left|
    decreases |left| - i
  {
    if i < |left| && i < |right| then
      if !SameSegment(left[i], right[i]) then i else CompareFrom(left, right, i + 1)
    else if |left| == |right| then SAME_LABEL
    else if i == |left| then LEFT_IS_PREFIX
    else RIGHT_IS_PREFIX
  }

  function CompareLabels(left: Label, right: Label): int {
    CompareFrom(left, right, 0)
  }

  /** `analyzeSyncChain`: does the completion of the task at `start` imply that of the label's task? */
  predicate SyncChainFrom(h: Label, i: nat)
    decreases |h| - i
  {
    if i >= |h| then true
    else if h[i].kind.Implicit? then true
    else if h[i].kind.Explicit? && h[i].groupLevel > 0 then true
    else if h[i].kind.Explicit? && !h[i].taskwaited then false
    else SyncChainFrom(h, i + 1)
  }

  predicate SyncChain(h: Label, start: nat) {
    start == |h| - 1 || SyncChainFrom(h, start)
  }

  /** An implicit task's barrier, or a group open in the task, awaits all its descendants. */
  predicate AwaitsAll(s: Segment) {
    s.kind.Implicit? || (s.kind.Explicit? && s.groupLevel > 0)
  }

  predicate AwaitedWithin(h: Label, start: nat, i: nat) {
    exists k: nat | start <= k <= i && k < |h| :: AwaitsAll(h[k])
  }

  /** The chain holds exactly when each explicit task from `start` on was waited for by its
      parent, or is at or below a task of the chain that awaits all its descendants. */
  lemma {:induction false} SyncChainMeaning(h: Label, start: nat)
    requires start < |h|
    ensures SyncChainFrom(h, start) <==>
      forall i | start <= i < |h| && h[i].kind.Explicit? && !h[i].taskwaited :: AwaitedWithin(h, start, i)
    decreases |h| - start
  {
    if !AwaitsAll(h[start]) && start + 1 < |h| {
      SyncChainMeaning(h, start + 1);
      forall i | start + 1 <= i < |h| ensures AwaitedWithin(h, start, i) == AwaitedWithin(h, start + 1, i) {
        if k: nat :| start <= k <= i && k < |h| && AwaitsAll(h[k]) { assert k != start; }
      }
    }
  }

  predicate TaskGroupSync(h: Segment, c: Segment) {
    h.groupId < c.groupId && h.groupLevel >= c.groupLevel
  }

  function NextExpExp(h: Label, c: Label, d: nat): Verdict
    requires d < |h| && d < |c|
  {
    if TaskGroupSync(h[d], c[d]) then Ordered
    else if h[d].taskwait == c[d].taskwait then Concurrent
    else if h[d].taskwait < c[d].taskwait then FromBool(SyncChain(h, d + 1))
    else Fatal
  }

  /** `dispatchAnalysis`: the nine cases of the two next segments' types. */
  function Dispatch(h: Label, c: Label, d: nat): Verdict
    requires d + 1 < |h| && d + 1 < |c|
  {
    match (h[d + 1].kind, c[d + 1].kind)
    case (Implicit, Implicit) => Fatal
    case (Explicit, Explicit) => NextExpExp(h, c, d)
    case (Explicit, WorkShare) => NextExpExp(h, c, d)
    case (_, _) => Concurrent
  }

  function SameTask(h: Label, c: Label, d: nat): Verdict
    requires d < |h| && d < |c|
  {
    if d == |h| - 1 then Ordered
    else if d == |c| - 1 then
      match h[d + 1].kind
      case Implicit => Fatal
      case Explicit =>
        if c[d].taskwait < h[d].taskwait then Fatal
        else if c[d].taskwait == h[d].taskwait then
          FromBool(h[d].groupLevel > 0 && h[d + 1].groupSync)
        else FromBool(SyncChain(h, d + 1))
      case WorkShare => FromBool(IsPlaceHolder(h[d + 1]))
    else Dispatch(h, c, d)
  }

  function ExitRank(phase: nat): nat { phase - phase % 2 }

  function EnterRank(phase: nat): nat { phase + phase % 2 }

  /** Is the label's task finished when the ordered section of the task at `start` is left? */
  function OrderedDescendents(h: Label, start: nat, histPhase: nat): Verdict
    requires start + 1 < |h|
  {
    var next := h[start + 1];
    match next.kind
    case Implicit => Ordered
    case WorkShare => Fatal
    case Explicit =>
      var seg := h[start];
      if seg.groupLevel > 0 && seg.phase % 2 == 0 && next.groupSync && TaskGroupPhase(next) <= histPhase then Ordered
      else if seg.groupLevel > 0 && seg.phase % 2 == 1 then Ordered
      else FromBool(next.taskwaited && TaskwaitPhase(next) <= histPhase && SyncChain(h, start + 1))
  }

  function OrderedSection(h: Label, c: Label, start: nat): Verdict
    requires start < |h| && start < |c|
  {
    if IsPlaceHolder(h[start]) || IsPlaceHolder(c[start]) then Concurrent
    else if ExitRank(h[start].phase) < EnterRank(c[start].phase) then
      if start == |h| - 1 then Ordered else OrderedDescendents(h, start, h[start].phase)
    else Concurrent
  }

  function SiblingImpTask(h: Label, c: Label, d: nat): Verdict
    requires d < |h| && d < |c|
  {
    if d == |h| - 1 || d == |c| - 1 then Concurrent
    else if h[d + 1].kind.WorkShare? && c[d + 1].kind.WorkShare? then
      if IsSection(h[d + 1]) || IsSection(c[d + 1]) then Concurrent
      else if h[d].loopCount == c[d].loopCount then OrderedSection(h, c, d + 1)
      else Concurrent
    else Concurrent
  }

  /** The verdict once the first differing pair is known to be at index `d`. */
  function JudgeAt(h: Label, c: Label, d: nat): Verdict
    requires d < |h| && d < |c|
  {
    var hs, cs := h[d], c[d];
    if hs.span != cs.span then Fatal
    else if hs.span == 1 then
      if hs.kind != cs.kind then Fatal
      else match hs.kind
        case Implicit => if hs.offset < cs.offset then Ordered else Fatal
        case WorkShare =>
          if IsSingleExecutor(hs) && IsSingleExecutor(cs) then SameTask(h, c, d)
          else OrderedSection(h, c, d)
        case Explicit => SameTask(h, c, d)
    else if hs.offset != cs.offset then
      if hs.span == 0 then Fatal // the remainder is undefined
      else if hs.offset % hs.span == cs.offset % hs.span then
        if hs.offset < cs.offset then Ordered else Fatal
      else SiblingImpTask(h, c, d)
    else SameTask(h, c, d)
  }

  /** `happensBefore`: is the task of label `h` ordered before the task of label `c`? */
  function HappensBefore(h: Label, c: Label): Verdict {
    var d := CompareLabels(h, c);
    if d == SAME_LABEL || d == LEFT_IS_PREFIX then Ordered
    else if d < 0 then Fatal
    else JudgeAt(h, c, d)
  }
}
