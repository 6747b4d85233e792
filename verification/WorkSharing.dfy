/** Work-sharing constructs: what their label transitions (Label.cpp) come to, and how the
    comparison judges iterations, sections and single constructs of one team. */
module WorkSharing {
  import opened Segments
  import opened Core
  import opened Labels
  import opened VerdictShapes

  /** A whole loop or sections construct counts one loop and leaves nothing else, however many
      iterations were dispatched in it. */
  lemma LoopCounts(base: Label, x: Segment, dispatched: seq<(nat, bool)>)
    ensures LoopEnd(Dispatches(LoopBegin(base + [x]), dispatched)) == base + [x.(loopCount := x.loopCount + 1)]
  {
    var l := base + [x];
    var m := Dispatches(LoopBegin(l), dispatched);
    DispatchesKeep(l, LoopBegin(l), dispatched);
    assert DropLast(m) == l && DropLast(l) == base;
  }

  function Dispatches(l: Label, dispatched: seq<(nat, bool)>): (m: Label)
    requires l != []
    ensures |m| == |l|
    decreases |dispatched|
  {
    if dispatched == [] then l
    else Dispatches(WorkShareDispatch(l, dispatched[0].0, dispatched[0].1), dispatched[1..])
  }

  /** Only the last dispatch shows. */
  lemma {:induction false} DispatchesKeep(base: Label, l: Label, dispatched: seq<(nat, bool)>)
    requires |l| == |base| + 1 && l[..|base|] == base
    ensures var m := Dispatches(l, dispatched);
      && |m| == |base| + 1 && m[..|base|] == base
      && m[|base|] == if dispatched == [] then l[|base|] else Work(dispatched[|dispatched| - 1].0, dispatched[|dispatched| - 1].1)
    decreases |dispatched|
  {
    if dispatched != [] {
      DispatchesKeep(base, WorkShareDispatch(l, dispatched[0].0, dispatched[0].1), dispatched[1..]);
    }
  }

  /** A work-share segment as the program builds it. */
  function Work(id: nat, mark: bool): Segment {
    Segment(WorkShare, 0, 1, 0, 0, 0, 0, false, false, mark, 0, 0, 0, id)
  }

  /** The labels of a member at the start of a loop, in an iteration, and in a single construct. */
  lemma WorkLabels(l: Label, id: nat, isSection: bool)
    ensures LoopBegin(l) == l + [Work(0, true)]
    ensures WorkShareDispatch(LoopBegin(l), id, isSection) == l + [Work(id, isSection)]
    ensures SingleBegin(l, true) == l + [Work(0x8000_0000_0000_0000, false)]
    ensures SingleBegin(l, false) == l + [Work(0x4000_0000_0000_0000, false)]
    ensures DropLast(SingleBegin(l, isSection)) == l
  {
    assert DropLast(l + [Work(0, true)]) == l;
  }

  /** Entering and leaving an ordered section counts two phases. */
  lemma OrderedPhases(l: Label, x: Segment)
    ensures OrderSection(l + [x]) == l + [x.(phase := x.phase + 1)]
    ensures OrderSection(OrderSection(l + [x])) == l + [x.(phase := x.phase + 2)]
  {
    assert DropLast(l + [x]) == l && DropLast(l + [x.(phase := x.phase + 1)]) == l;
  }

  /** Two iterations or sections run by one member are concurrent, though a thread runs them one
      after the other; one iteration is ordered with itself. */
  lemma OwnIterations(l: Label, a: nat, b: nat, section: bool)
    requires a < SINGLE_EXEC && b < SINGLE_EXEC
    ensures var x, y := WorkShareDispatch(LoopBegin(l), a, section), WorkShareDispatch(LoopBegin(l), b, section);
      && HappensBefore(x, y) == (if a == b then Ordered else Concurrent)
      && CompareLabels(x, y) == (if a == b then SAME_LABEL else |l|)
  {
    WorkLabels(l, a, section);
    WorkLabels(l, b, section);
    if a == b {
      SameSegments(l, [Work(a, section)], [Work(a, section)]);
      CompareRest(l + [Work(a, section)], l + [Work(a, section)], 0);
    } else {
      DifferentIds(l, [Work(a, section)], [Work(b, section)]);
      SameMeans(Work(a, section), Work(b, section));
      IterationsPart(l, [Work(a, section)], [Work(b, section)]);
    }
  }

  /** Two members of one team are concurrent wherever in work sharing they are, outside
      ordered sections: in iterations, sections, single constructs or none of them. */
  lemma MembersShareWork(above: Label, x: Segment, y: Segment, h: Label, c: Label)
    requires x.kind == Implicit && y.kind == Implicit && x.span == y.span && x.span >= 2
    requires x.offset % x.span != y.offset % x.span
    requires |h| <= 1 && |c| <= 1 && (forall s | s in h + c :: s.kind == WorkShare && s.phase == 0)
    ensures HappensBefore(above + [x] + h, above + [y] + c) == Concurrent
  {
    assert above + [x] + h == above + ([x] + h) && above + [y] + c == above + ([y] + c);
    if h != [] && c != [] { assert h[0] in h + c && c[0] in h + c; }
    MembersPart(above, [x] + h, [y] + c);
  }

  /** The executor's access in a single construct is ordered before its later ones in another. */
  lemma ExecutorAgain(l: Label)
    ensures HappensBefore(SingleBegin(l, true), SingleBegin(l, true)) == Ordered
  {
    WorkLabels(l, 0, true);
    SameSegments(l, [Work(SINGLE_EXEC, false)], [Work(SINGLE_EXEC, false)]);
  }

  /** After a loop without a barrier the member's own access is judged concurrent with its
      iterations and ordered after its sections, whose mark is also the place-holder's. */
  lemma AfterOwnLoop(base: Label, x: Segment, id: nat, section: bool)
    requires x.kind == Implicit && x.span >= 2
    ensures HappensBefore(WorkShareDispatch(LoopBegin(base + [x]), id, section),
                          LoopEnd(WorkShareDispatch(LoopBegin(base + [x]), id, section))) ==
      if section then Ordered else Concurrent
  {
    var y, w := x.(loopCount := x.loopCount + 1), Work(id, section);
    WorkLabels(base + [x], id, section);
    LoopCounts(base, x, [(id, section)]);
    assert Dispatches(LoopBegin(base + [x]), [(id, section)]) == base + [x] + [w];
    assert base + [x] + [w] == base + [x, w];
    SameMeans(x, y);
    TaskParts(base, [x, w], [y]);
  }

  /** With iterations of one loop on two members and ordered sections: judged ordered exactly when
      the first has left fewer sections than the second has entered, on the loop both are in. */
  lemma OrderedIterations(above: Label, x: Segment, y: Segment, v: Segment, w: Segment)
    requires x.kind == Implicit && y.kind == Implicit && x.span == y.span && x.span >= 2
    requires x.offset % x.span != y.offset % x.span && x.loopCount == y.loopCount
    requires v.kind == WorkShare && w.kind == WorkShare && !v.flag2 && !w.flag2
    ensures HappensBefore(above + [x, v], above + [y, w]) ==
      if v.phase / 2 < (w.phase + 1) / 2 then Ordered else Concurrent
  {
    MembersPart(above, [x, v], [y, w]);
  }
}
