/** A race the detector loses: a member reads without a lock before a barrier, after it both
    members write under one lock, and one of them then writes without it. */
module LostRace {
  import opened Core
  import opened LockSets
  import opened AccessHistories
  import opened Detector
  import opened RegionRuns
  import ForkJoin

  function Lost(): seq<AccessHistories.Access> {
    [AccessHistories.Access(AccessHistories.Record(false, MemberTag(0, 0), NoLocks, 1), false, 0, false),
     AccessHistories.Access(AccessHistories.Record(true, MemberTag(1, 0), Locks([7]), 1), false, 0, false),
     AccessHistories.Access(AccessHistories.Record(true, MemberTag(1, 1), Locks([7]), 2), false, 0, false),
     AccessHistories.Access(AccessHistories.Record(true, MemberTag(1, 1), Locks([]), 2), false, 0, false)]
  }

  lemma LostOrder()
    ensures forall i | 1 <= i < 4 :: LabelOrder()(Lost()[0].rec, Lost()[i].rec)
    ensures forall i | 2 <= i < 4 :: !LabelOrder()(Lost()[1].rec, Lost()[i].rec)
    ensures LabelOrder()(Lost()[2].rec, Lost()[3].rec)
    ensures forall i | 1 <= i < 4 :: CompareLabels(Lost()[0].rec.tag, Lost()[i].rec.tag) == 0
    ensures forall i | 2 <= i < 4 :: CompareLabels(Lost()[1].rec.tag, Lost()[i].rec.tag) == 1
    ensures CompareLabels(Lost()[2].rec.tag, Lost()[3].rec.tag) == SAME_LABEL
  {
    forall i | 0 <= i < 2 ensures CompareLabels(MemberTag(0, 0), MemberTag(1, i)) == 0 {}
    assert CompareLabels(MemberTag(1, 0), MemberTag(1, 1)) == 1;
    assert CompareLabels(MemberTag(1, 1), MemberTag(1, 1)) == SAME_LABEL;
  }

  lemma ScanOne(h: Record, a: Access, outs: Outs)
    ensures var (race, outs') := Analyze(LabelOrder(), h, a.rec, a.inReduction, outs);
      var d := Manage(h, a.rec, outs');
      Scan(LabelOrder(), [h], a.rec, a.inReduction, outs) == Scanned(if d.DelHist? then [] else [h], race, d.SkipAddCur?)
  {
    var (_, outs') := Analyze(LabelOrder(), h, a.rec, a.inReduction, outs);
    assert [h][1..] == [];
    assert Scan(LabelOrder(), [], a.rec, a.inReduction, outs') == Scanned([], false, false);
  }

  lemma ScanTwo(h0: Record, h1: Record, a: Access)
    ensures var outs := Outs(false, a.leftover);
      var (race0, outs0) := Analyze(LabelOrder(), h0, a.rec, a.inReduction, outs);
      var (race1, outs1) := Analyze(LabelOrder(), h1, a.rec, a.inReduction, outs0);
      var d0, d1 := Manage(h0, a.rec, outs0), Manage(h1, a.rec, outs1);
      Scan(LabelOrder(), [h0, h1], a.rec, a.inReduction, outs) ==
      Scanned((if d0.DelHist? then [] else [h0]) + (if d1.DelHist? then [] else [h1]),
        race0 || race1, d0.SkipAddCur? || d1.SkipAddCur?)
  {
    var outs := Outs(false, a.leftover);
    var (_, outs0) := Analyze(LabelOrder(), h0, a.rec, a.inReduction, outs);
    ScanOne(h1, a, outs0);
    assert [h0, h1][1..] == [h1];
  }

  /** The third access deletes the second record on the verdict left by the first. */
  lemma ThirdDeletesSecond()
    ensures AccessHistories.Run(LabelOrder(), Lost()[..2]) == History(false, false, [Lost()[0].rec, Lost()[1].rec])
    ensures AccessHistories.Run(LabelOrder(), Lost()[..3]) == History(false, false, [Lost()[0].rec, Lost()[2].rec])
  {
    var accs, before := Lost(), LabelOrder();
    LostOrder();
    var r0, r1, r2 := accs[0].rec, accs[1].rec, accs[2].rec;
    assert 7 in r1.locks.ids && 7 in r2.locks.ids;
    assert AccessHistories.Run(before, accs[..1]) == History(false, false, [r0]) by {
      assert accs[..1][..0] == [];
    }
    assert AccessHistories.Run(before, accs[..2]) == History(false, false, [r0, r1]) by {
      assert accs[..2][..1] == accs[..1];
      ScanOne(r0, accs[1], Outs(false, 0));
    }
    assert accs[..3][..2] == accs[..2];
    ScanTwo(r0, r1, accs[2]);
  }

  /** So the fourth access, which races with the second, goes unreported. */
  lemma StaleVerdictLosesRace()
    ensures RaceAt(LabelOrder(), Lost(), 3) && !AccessHistories.Run(LabelOrder(), Lost()).raceFound
    ensures !OwnVerdicts(LabelOrder(), Lost())
  {
    var accs, before := Lost(), LabelOrder();
    LostOrder();
    ThirdDeletesSecond();
    var r0, r1, r2, r3 := accs[0].rec, accs[1].rec, accs[2].rec, accs[3].rec;
    assert AccessHistories.Run(before, accs) == History(false, false, [r0, r3]) by {
      assert accs[..4] == accs && accs[..3] == accs[..|accs| - 1];
      ScanTwo(r0, r2, accs[3]);
    }
    assert Races(before, r1, r3, false);
    NotOwn();
  }

  lemma NotOwn()
    ensures !OwnVerdictAt(LabelOrder(), Lost(), 2)
  {
    var r0, r1, r2 := Lost()[0].rec, Lost()[1].rec, Lost()[2].rec;
    LostOrder();
    ThirdDeletesSecond();
    assert 7 in r1.locks.ids && 7 in r2.locks.ids;
    assert [r0, r1][1..] == [r1];
  }

  // The run in which these accesses are made.

  lemma LostRuns() returns (acts: seq<ForkJoin.Action>, s: ForkJoin.State)
    ensures ForkJoin.Run(acts, s)
    ensures s.accesses == map[2 := MemberTag(0, 0), 4 := MemberTag(1, 0), 5 := MemberTag(1, 1), 6 := MemberTag(1, 1)]
  {
    var early, late := Member(0, ForkJoin.Running), Member(1, ForkJoin.Running);
    var released := Member(0, ForkJoin.Released);
    acts, s := Forks();
    acts, s := MemberAccess(acts, s, 2, early, early, 1);
    acts, s := Arrives(acts, s, 3, early, early);
    acts, s := Releases(acts, s, 3, false);
    acts, s := Leaves(acts, s, 4, false, 1, released, released);
    acts, s := Leaves(acts, s, 4, false, 2, late, released);
    acts, s := MemberAccess(acts, s, 4, late, late, 1);
    acts, s := MemberAccess(acts, s, 5, late, late, 2);
    acts, s := MemberAccess(acts, s, 6, late, late, 2);
  }

  /** The lost race is a data race of a run, between the second and the fourth access. */
  lemma LostRaceIsReal() returns (acts: seq<ForkJoin.Action>, s: ForkJoin.State)
    ensures ForkJoin.Run(acts, s) && ForkJoin.Sane(s) && MadeAt(s, [2, 4, 5, 6], Lost())
    ensures DataRace(s, [2, 4, 5, 6], Lost(), 1, 3)
  {
    acts, s := LostRuns();
    LostOrder();
    OrderIsReachability(acts, s, [2, 4, 5, 6], Lost(), 1, 3);
  }
}
