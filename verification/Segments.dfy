/** Label segments as values (Segment.h, Segment.cpp). `PackedSegments` ties
    these fields to the packed 64-bit word the program stores. */
module Segments {
  datatype SegmentType = Implicit | Explicit | WorkShare

  /** `flag2` is bit 2, shared by the place-holder and the section marks. */
  datatype Segment = Segment(
    kind: SegmentType,
    offset: nat,
    span: nat,
    taskwait: nat,
    phase: nat,
    loopCount: nat,
    taskcreate: nat,
    groupSync: bool,
    taskwaited: bool,
    flag2: bool,
    groupId: nat,
    groupLevel: nat,
    orderSecVal: nat,
    workShareId: nat)

  const FIELD16: nat := 0x1_0000
  const SINGLE_EXEC: nat := 0x8000_0000_0000_0000
  const SINGLE_OTHER: nat := 0x4000_0000_0000_0000

  function NewSegment(kind: SegmentType, offset: nat, span: nat): Segment {
    Segment(kind, offset, span, 0, 0, 0, 0, false, false, false, 0, 0, 0, 0)
  }

  /** Every field fits the bits the program gives it. */
  predicate Fits(s: Segment) {
    && s.offset < 0x1_0000 && s.span < 0x1_0000 && s.taskwait < 16 && s.phase < 16 && s.loopCount < 16
    && s.taskcreate < 0x8000 && s.groupId < 0x1_0000 && s.groupLevel < 0x1_0000
    && s.orderSecVal < 0x1_0000_0000 && s.workShareId < 0x1_0000_0000_0000_0000
  }

  /** The part of a segment that lives in the packed word `_value`; task-group
      counters, recorded phases and the work-share id live elsewhere. */
  function Value(s: Segment): Segment {
    s.(groupId := 0, groupLevel := 0, orderSecVal := 0, workShareId := 0)
  }

  /** `operator==`: the packed words agree and, for work-share segments, so do the ids. */
  predicate SameSegment(a: Segment, b: Segment) {
    Value(a) == Value(b) && (a.kind.WorkShare? ==> a.workShareId == b.workShareId)
  }

  predicate IsSingleExecutor(s: Segment) {
    s.workShareId / SINGLE_EXEC == 1
  }

  /** Both marks read the same bit. */
  predicate IsPlaceHolder(s: Segment) {
    s.flag2
  }

  predicate IsSection(s: Segment) {
    s.flag2
  }

  /** Bitwise or. */
  function Or(x: nat, y: nat): nat
    decreases x + y
  {
    if x == 0 then y else if y == 0 then x
    else (if x % 2 == 1 || y % 2 == 1 then 1 else 0) + 2 * Or(x / 2, y / 2)
  }

  function SetTaskwaited(s: Segment): Segment {
    s.(taskwaited := true)
  }

  function SetTaskGroupSync(s: Segment): Segment {
    s.(groupSync := true)
  }

  /** `setTaskwaitPhase` keeps the half of the word it should clear and adds to it. */
  function SetTaskwaitPhase(s: Segment, phase: nat): Segment {
    s.(orderSecVal := Or(s.orderSecVal % FIELD16, phase % FIELD16))
  }

  function TaskwaitPhase(s: Segment): nat {
    s.orderSecVal % FIELD16
  }

  /** `getTaskGroupPhase` reads the upper half of `_taskGroup`, which holds the group id. */
  function TaskGroupPhase(s: Segment): nat {
    s.groupId
  }
}
