/** What each runtime event makes of a task label (Label.cpp), on label values. */
module Labels {
  import opened Segments
  import opened Core

  function InitTask(): Label {
    [NewSegment(Implicit, 0, 1)]
  }

  function ImpTask(parent: Label, index: nat, parallelism: nat): Label {
    parent + [NewSegment(Implicit, index % FIELD16, parallelism % FIELD16)]
  }

  function ExpTask(parent: Label): Label {
    parent + [NewSegment(Explicit, 0, 1)]
  }

  function Last(l: Label): Segment
    requires l != []
  {
    l[|l| - 1]
  }

  function DropLast(l: Label): Label
    requires l != []
  {
    l[..|l| - 1]
  }

  function WithLast(l: Label, s: Segment): Label
    requires l != []
  {
    DropLast(l) + [s]
  }

  function ParentImpEnd(child: Label): Label
    requires child != []
  {
    DropLast(child)
  }

  /** The span is added to the offset, whose field is 16 bits wide. */
  function Bump(s: Segment): Segment {
    s.(offset := (s.offset + s.span) % FIELD16)
  }

  /** A barrier advances the second last segment, the one of the enclosing task. */
  function BarrierEnd(l: Label): Label
    requires |l| >= 2
  {
    l[|l| - 2 := Bump(l[|l| - 2])]
  }

  function ParentTaskCreate(l: Label): Label
    requires l != []
  {
    WithLast(l, Last(l).(taskcreate := Last(l).taskcreate + 1))
  }

  function TaskWait(l: Label): Label
    requires l != []
  {
    WithLast(l, Last(l).(taskwait := Last(l).taskwait + 1))
  }

  function GroupBegin(s: Segment): Segment {
    s.(groupId := (s.groupId + 1) % FIELD16, groupLevel := (s.groupLevel + 1) % FIELD16)
  }

  /** The level is decremented in 16 bits. */
  function GroupEnd(s: Segment): Segment {
    s.(groupId := (s.groupId + 1) % FIELD16, groupLevel := (s.groupLevel + FIELD16 - 1) % FIELD16)
  }

  function TaskGroupBegin(l: Label): Label
    requires l != []
  {
    WithLast(l, GroupBegin(Last(l)))
  }

  function TaskGroupEnd(l: Label): Label
    requires l != []
  {
    WithLast(l, GroupEnd(Last(l)))
  }

  /** The begin or the end of an ordered section. */
  function OrderSection(l: Label): Label
    requires l != []
  {
    WithLast(l, Last(l).(phase := Last(l).phase + 1))
  }

  function SingleBegin(l: Label, executor: bool): Label {
    l + [NewSegment(WorkShare, 0, 1).(workShareId := if executor then SINGLE_EXEC else SINGLE_OTHER)]
  }

  /** An iteration or a section takes the place of the last work-share segment. */
  function WorkShareDispatch(l: Label, id: nat, isSection: bool): Label
    requires l != []
  {
    WithLast(l, NewSegment(WorkShare, 0, 1).(workShareId := id, flag2 := isSection))
  }

  /** A place-holder segment is appended when a worksharing loop begins. */
  function LoopBegin(l: Label): Label {
    l + [NewSegment(WorkShare, 0, 1).(flag2 := true)]
  }

  function LoopEnd(l: Label): Label
    requires |l| >= 2
  {
    var m := DropLast(l);
    WithLast(m, Last(m).(loopCount := Last(m).loopCount + 1))
  }
}
