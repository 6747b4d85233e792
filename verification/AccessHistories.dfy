/** The per-location detector (checkDataRace in RompLib.cpp) with its pruned record
    list (Core.cpp, AccessHistory.cpp), and what pruning preserves. */
module AccessHistories {
  import opened Core
  import opened LockSets

  datatype Record = Record(isWrite: bool, tag: Label, locks: LockSet, task: nat)

  /** Is the task of the first record ordered before that of the second? */
  type Order = (Record, Record) -> bool

  datatype Decision = NoOp | SkipAddCur | DelHist

  /** The two out-parameters of `analyzeRaceCondition`. */
  datatype Outs = Outs(isHistBefore: bool, diffIndex: int)

  predicate MutuallyExclusive(h: Record, c: Record) {
    h.locks.Locks? && c.locks.Locks? && HasCommonLock(h.locks.ids, c.locks.ids)
  }

  /** `analyzeRaceCondition`: on its two early exits the out-parameters keep the
      values they had for the previous record. */
  function Analyze(before: Order, h: Record, c: Record, inReduction: bool, outs: Outs): (bool, Outs) {
    if MutuallyExclusive(h, c) || inReduction then (false, outs)
    else
      var b := before(h, c);
      (!b && (h.isWrite || c.isWrite), Outs(b, CompareLabels(h.tag, c.tag)))
  }

  /** `manageAccessRecord` */
  function Manage(h: Record, c: Record, outs: Outs): Decision {
    if ((h.isWrite && c.isWrite) || !h.isWrite) && outs.isHistBefore && IsSubset(c.locks, h.locks) then DelHist
    else if outs.diffIndex == SAME_LABEL && ((!h.isWrite && !c.isWrite) || h.isWrite) && IsSubset(h.locks, c.locks) then SkipAddCur
    else NoOp
  }

  /** One access as the detector sees it. `leftover` is what the uninitialised
      `diffIndex` holds; `ignored` stands for hardware locks and thread-private data. */
  datatype Access = Access(rec: Record, inReduction: bool, leftover: int, ignored: bool)

  datatype Scanned = Scanned(kept: seq<Record>, race: bool, skip: bool)

  /** The loop over the record list. */
  function Scan(before: Order, records: seq<Record>, c: Record, inReduction: bool, outs: Outs): Scanned {
    if records == [] then Scanned([], false, false)
    else
      var (race, outs') := Analyze(before, records[0], c, inReduction, outs);
      var decision := Manage(records[0], c, outs');
      var rest := Scan(before, records[1..], c, inReduction, outs');
      Scanned(
        if decision.DelHist? then rest.kept else [records[0]] + rest.kept,
        race || rest.race,
        decision.SkipAddCur? || rest.skip)
  }

  datatype History = History(raceFound: bool, recycled: bool, records: seq<Record>)

  /** `checkDataRace` */
  function Check(before: Order, h: History, a: Access): History {
    if a.ignored then h
    else if h.raceFound then h.(records := [])
    else if h.recycled then History(false, false, [])
    else if h.records == [] then h.(records := [a.rec])
    else
      var s := Scan(before, h.records, a.rec, a.inReduction, Outs(false, a.leftover));
      History(s.race, false, if s.skip then s.kept else s.kept + [a.rec])
  }

  /** The outcome of a scan interrupted after some records. */
  function Resumed(kept: seq<Record>, race: bool, skip: bool, rest: Scanned): Scanned {
    Scanned(kept + rest.kept, race || rest.race, skip || rest.skip)
  }

  lemma ResumedOnce(kept: seq<Record>, race: bool, skip: bool, xs: seq<Record>, found: bool, skipped: bool, rest: Scanned)
    ensures Resumed(kept, race, skip, Resumed(xs, found, skipped, rest)) == Resumed(kept + xs, race || found, skip || skipped, rest)
  {
    assert kept + (xs + rest.kept) == kept + xs + rest.kept;
  }

  lemma EraseOrKeep(kept: seq<Record>, tail: seq<Record>, records: seq<Record>, it: nat)
    requires tail != [] && records == kept + tail && it == |kept|
    ensures records[it] == tail[0]
    ensures records[..it] + records[it + 1..] == kept + tail[1..]
    ensures records == kept + [tail[0]] + tail[1..]
  {
  }

  class AccessHistory {
    var raceFound: bool
    var recycled: bool
    var records: seq<Record>

    ghost function State(): History
      reads this
    {
      History(raceFound, recycled, records)
    }

    constructor ()
      ensures State() == History(false, false, [])
    {
      raceFound, recycled, records := false, false, [];
    }

    method CheckDataRace(before: Order, a: Access)
      modifies this
      ensures State() == Check(before, old(State()), a)
    {
      if a.ignored { return; }
      if raceFound {
        records := [];
        return;
      }
      if recycled {
        raceFound, recycled := false, false;
        records := [];
        return;
      }
      if records == [] {
        records := [a.rec];
        return;
      }
      ghost var all := Scan(before, records, a.rec, a.inReduction, Outs(false, a.leftover));
      ghost var kept: seq<Record>, tail := [], records;
      var outs := Outs(false, a.leftover);
      var skip, it := false, 0;
      while it < |records|
        invariant records == kept + tail && it == |kept| && !recycled
        invariant all == Resumed(kept, raceFound, skip, Scan(before, tail, a.rec, a.inReduction, outs))
        decreases |tail|
      {
        EraseOrKeep(kept, tail, records, it);
        var race, decision;
        race, decision, outs := JudgeRecord(before, records[it], a, outs, tail);
        ghost var xs := if decision.DelHist? then [] else [tail[0]];
        ResumedOnce(kept, raceFound, skip, xs, race, decision.SkipAddCur?, Scan(before, tail[1..], a.rec, a.inReduction, outs));
        if race { raceFound := true; }
        if decision.SkipAddCur? { skip := true; }
        if decision.DelHist? {
          records := records[..it] + records[it + 1..];
        } else {
          it := it + 1;
        }
        kept, tail := kept + xs, tail[1..];
      }
      if !skip { records := records + [a.rec]; }
    }
  }

  /** One turn of the loop: the verdict on a record and what becomes of it. */
  method JudgeRecord(before: Order, h: Record, a: Access, outs: Outs, ghost tail: seq<Record>)
    returns (race: bool, decision: Decision, outs': Outs)
    requires tail != [] && tail[0] == h
    ensures Scan(before, tail, a.rec, a.inReduction, outs) ==
      Resumed(if decision.DelHist? then [] else [h], race, decision.SkipAddCur?,
        Scan(before, tail[1..], a.rec, a.inReduction, outs'))
  {
    var (found, o) := Analyze(before, h, a.rec, a.inReduction, outs);
    race, outs' := found, o;
    decision := Manage(h, a.rec, outs');
  }

  /** The conflict a record and a later access would make, judged on their own. */
  predicate Races(before: Order, h: Record, c: Record, inReduction: bool) {
    !MutuallyExclusive(h, c) && !inReduction && !before(h, c) && (h.isWrite || c.isWrite)
  }

  /** At every early exit, what is decided on the values left by the previous record is
      also right for this one. */
  predicate LeftoversSound(before: Order, records: seq<Record>, c: Record, inReduction: bool, outs: Outs) {
    records == [] ||
    (var h := records[0];
     && (MutuallyExclusive(h, c) || inReduction ==>
          (Manage(h, c, outs).DelHist? ==> before(h, c)) &&
          (Manage(h, c, outs).SkipAddCur? ==> CompareLabels(h.tag, c.tag) == SAME_LABEL))
     && LeftoversSound(before, records[1..], c, inReduction, Analyze(before, h, c, inReduction, outs).1))
  }

  // A run over a whole sequence of accesses to one location.

  function Run(before: Order, accs: seq<Access>): History {
    if accs == [] then History(false, false, [])
    else Check(before, Run(before, accs[..|accs| - 1]), accs[|accs| - 1])
  }

  /** A detector that keeps every record finds a race at access `i`. */
  ghost predicate RaceAt(before: Order, accs: seq<Access>, i: nat)
    requires i < |accs|
  {
    !accs[i].ignored &&
    exists j | 0 <= j < i :: !accs[j].ignored && Races(before, accs[j].rec, accs[i].rec, accs[i].inReduction)
  }

  predicate TransitiveAt(before: Order, accs: seq<Access>, i: nat, j: nat, k: nat) {
    i < j < k < |accs| && before(accs[i].rec, accs[j].rec) && before(accs[j].rec, accs[k].rec) ==>
      before(accs[i].rec, accs[k].rec)
  }

  ghost predicate Transitive(before: Order, accs: seq<Access>) {
    forall i: nat, j: nat, k: nat :: TransitiveAt(before, accs, i, j, k)
  }

  /** Records with the same label are ordered alike against a later access. */
  predicate InterchangeableAt(before: Order, accs: seq<Access>, i: nat, j: nat, k: nat) {
    i < k < |accs| && j < k && CompareLabels(accs[i].rec.tag, accs[j].rec.tag) == SAME_LABEL ==>
      before(accs[i].rec, accs[k].rec) == before(accs[j].rec, accs[k].rec)
  }

  ghost predicate Interchangeable(before: Order, accs: seq<Access>) {
    forall i: nat, j: nat, k: nat :: InterchangeableAt(before, accs, i, j, k)
  }

  predicate OwnVerdictAt(before: Order, accs: seq<Access>, n: nat) {
    n < |accs| && !accs[n].ignored && !Run(before, accs[..n]).raceFound ==>
      LeftoversSound(before, Run(before, accs[..n]).records, accs[n].rec, accs[n].inReduction, Outs(false, accs[n].leftover))
  }

  /** No access that is scanned meets an early exit with a wrong leftover. */
  ghost predicate OwnVerdicts(before: Order, accs: seq<Access>) {
    forall n: nat :: OwnVerdictAt(before, accs, n)
  }

  // What one scan does.

  predicate DeletedBy(before: Order, h: Record, c: Record) {
    (h.isWrite ==> c.isWrite) && before(h, c) && IsSubset(c.locks, h.locks)
  }

  predicate SkippedFor(h: Record, c: Record) {
    CompareLabels(h.tag, c.tag) == SAME_LABEL && (c.isWrite ==> h.isWrite) && IsSubset(h.locks, c.locks)
  }

  lemma {:induction false} ScanEffect(before: Order, records: seq<Record>, c: Record, inReduction: bool, outs: Outs)
    requires LeftoversSound(before, records, c, inReduction, outs)
    ensures var s := Scan(before, records, c, inReduction, outs);
      && (forall r | r in s.kept :: r in records)
      && (forall r | r in records :: r in s.kept || DeletedBy(before, r, c))
      && (s.race <==> exists r | r in records :: Races(before, r, c, inReduction))
      && (s.skip ==> exists r | r in s.kept :: SkippedFor(r, c))
  {
    if records != [] {
      var h, tail := records[0], records[1..];
      var (race, outs') := Analyze(before, h, c, inReduction, outs);
      ScanEffect(before, tail, c, inReduction, outs');
      var s := Scan(before, records, c, inReduction, outs);
      var rest := Scan(before, tail, c, inReduction, outs');
      assert forall r :: r in records <==> r == h || r in tail;
      assert race <==> Races(before, h, c, inReduction);
      if rest.skip {
        var r :| r in rest.kept && SkippedFor(r, c);
        assert r in s.kept;
      } else if s.skip {
        assert h in s.kept && SkippedFor(h, c);
      }
    }
  }

  lemma ExclusionGrows(a: Record, b: Record, d: Record)
    requires IsSubset(a.locks, b.locks) && MutuallyExclusive(a, d)
    ensures MutuallyExclusive(b, d)
  {
    SubsetIsIncluded(a.locks, b.locks);
    var x :| x in a.locks.ids && x in d.locks.ids;
    assert x in Ids(b.locks);
  }

  /** A deleted record is dominated by the access that deleted it. */
  lemma DeletedIsDominated(before: Order, h: Record, c: Record, d: Record, inReduction: bool)
    requires DeletedBy(before, h, c) && Races(before, h, d, inReduction)
    requires before(h, c) && before(c, d) ==> before(h, d)
    ensures Races(before, c, d, inReduction)
  {
    if MutuallyExclusive(c, d) { ExclusionGrows(c, h, d); }
  }

  /** A skipped access is dominated by the record it was skipped for. */
  lemma SkippedIsDominated(before: Order, r: Record, c: Record, d: Record, inReduction: bool)
    requires SkippedFor(r, c) && Races(before, c, d, inReduction)
    requires before(r, d) == before(c, d)
    ensures Races(before, r, d, inReduction)
  {
    if MutuallyExclusive(r, d) { ExclusionGrows(r, c, d); }
  }

  ghost predicate Past(accs: seq<Access>, n: nat, r: Record) {
    exists j | 0 <= j < n && j < |accs| :: !accs[j].ignored && accs[j].rec == r
  }

  ghost predicate RacesWithPast(before: Order, accs: seq<Access>, n: nat, d: nat)
    requires d < |accs|
  {
    exists j | 0 <= j < n && j < |accs| :: !accs[j].ignored && Races(before, accs[j].rec, accs[d].rec, accs[d].inReduction)
  }

  ghost predicate RacesWithKept(before: Order, records: seq<Record>, a: Access) {
    exists r | r in records :: Races(before, r, a.rec, a.inReduction)
  }

  /** The kept records are past accesses, and no race of a later access with a past one is missed among them. */
  ghost predicate Covers(before: Order, accs: seq<Access>, n: nat, records: seq<Record>) {
    && (forall r | r in records :: Past(accs, n, r))
    && (forall d | n <= d < |accs| && RacesWithPast(before, accs, n, d) :: RacesWithKept(before, records, accs[d]))
  }

  lemma KeptAreReal(before: Order, accs: seq<Access>, n: nat, records: seq<Record>, d: nat)
    requires Covers(before, accs, n, records) && n <= d < |accs|
    ensures RacesWithKept(before, records, accs[d]) <==> RacesWithPast(before, accs, n, d)
  {
    if r :| r in records && Races(before, r, accs[d].rec, accs[d].inReduction) {
      assert Past(accs, n, r);
    }
  }

  /** A race of a later access with the new one survives in the pruned list. */
  lemma NewStaysCovered(before: Order, accs: seq<Access>, n: nat, s: Scanned, records': seq<Record>, d: nat)
    requires Interchangeable(before, accs) && n < d < |accs|
    requires forall r | r in s.kept :: Past(accs, n, r)
    requires s.skip ==> exists r | r in s.kept :: SkippedFor(r, accs[n].rec)
    requires records' == if s.skip then s.kept else s.kept + [accs[n].rec]
    requires Races(before, accs[n].rec, accs[d].rec, accs[d].inReduction)
    ensures RacesWithKept(before, records', accs[d])
  {
    if s.skip {
      var r :| r in s.kept && SkippedFor(r, accs[n].rec);
      assert Past(accs, n, r);
      var j: nat :| j < n && accs[j].rec == r;
      assert InterchangeableAt(before, accs, j, n, d);
      SkippedIsDominated(before, r, accs[n].rec, accs[d].rec, accs[d].inReduction);
    } else {
      assert accs[n].rec in records';
    }
  }

  lemma ScanCovers(before: Order, accs: seq<Access>, n: nat, records: seq<Record>, s: Scanned, records': seq<Record>)
    requires n < |accs| && !accs[n].ignored
    requires Transitive(before, accs) && Interchangeable(before, accs) && Covers(before, accs, n, records)
    requires var a := accs[n];
      && LeftoversSound(before, records, a.rec, a.inReduction, Outs(false, a.leftover))
      && s == Scan(before, records, a.rec, a.inReduction, Outs(false, a.leftover))
    requires records' == if s.skip then s.kept else s.kept + [accs[n].rec]
    ensures s.race <==> RacesWithPast(before, accs, n, n)
    ensures Covers(before, accs, n + 1, records')
  {
    var a := accs[n];
    ScanEffect(before, records, a.rec, a.inReduction, Outs(false, a.leftover));
    KeptAreReal(before, accs, n, records, n);
    forall r | r in records' ensures Past(accs, n + 1, r) {
      if r in s.kept { assert Past(accs, n, r); }
    }
    forall d | n + 1 <= d < |accs| && RacesWithPast(before, accs, n + 1, d)
      ensures RacesWithKept(before, records', accs[d])
    {
      var c := accs[d];
      if Races(before, a.rec, c.rec, c.inReduction) {
        NewStaysCovered(before, accs, n, s, records', d);
      } else {
        assert RacesWithPast(before, accs, n, d);
        var r :| r in records && Races(before, r, c.rec, c.inReduction);
        if r !in s.kept {
          assert Past(accs, n, r);
          var j: nat :| j < n && accs[j].rec == r;
          assert TransitiveAt(before, accs, j, n, d);
          DeletedIsDominated(before, r, a.rec, c.rec, c.inReduction);
        }
      }
    }
  }

  lemma IgnoredCovers(before: Order, accs: seq<Access>, n: nat, records: seq<Record>)
    requires n < |accs| && accs[n].ignored && Covers(before, accs, n, records)
    ensures Covers(before, accs, n + 1, records)
  {
    forall r | r in records ensures Past(accs, n + 1, r) {
      assert Past(accs, n, r);
    }
  }

  ghost predicate RaceBefore(before: Order, accs: seq<Access>, n: nat)
    requires n <= |accs|
  {
    exists i | 0 <= i < n :: RaceAt(before, accs, i)
  }

  /** The pruned history has the same verdict as one that keeps every record. */
  ghost predicate Faithful(before: Order, accs: seq<Access>, n: nat, h: History)
    requires n <= |accs|
  {
    && !h.recycled
    && (h.raceFound <==> RaceBefore(before, accs, n))
    && (!h.raceFound ==> Covers(before, accs, n, h.records))
  }

  lemma RaceBeforeNext(before: Order, accs: seq<Access>, n: nat)
    requires n < |accs|
    ensures RaceBefore(before, accs, n + 1) <==> RaceBefore(before, accs, n) || RaceAt(before, accs, n)
    ensures RaceAt(before, accs, n) <==> !accs[n].ignored && RacesWithPast(before, accs, n, n)
  {
  }

  lemma CheckIsFaithful(before: Order, accs: seq<Access>, n: nat, h: History)
    requires n < |accs| && Faithful(before, accs, n, h)
    requires Transitive(before, accs) && Interchangeable(before, accs)
    requires var a := accs[n]; a.ignored || h.raceFound || LeftoversSound(before, h.records, a.rec, a.inReduction, Outs(false, a.leftover))
    ensures Faithful(before, accs, n + 1, Check(before, h, accs[n]))
  {
    var a := accs[n];
    RaceBeforeNext(before, accs, n);
    if !h.raceFound {
      if a.ignored {
        IgnoredCovers(before, accs, n, h.records);
      } else {
        var s := Scan(before, h.records, a.rec, a.inReduction, Outs(false, a.leftover));
        ScanCovers(before, accs, n, h.records, s, if s.skip then s.kept else s.kept + [a.rec]);
        assert h.records == [] ==> [a.rec] == s.kept + [a.rec];
      }
    }
  }

  lemma EmptyIsFaithful(before: Order, accs: seq<Access>)
    ensures Faithful(before, accs, 0, History(false, false, []))
  {
  }

  lemma RunUnfolds(before: Order, accs: seq<Access>, n: nat)
    requires n < |accs|
    ensures Run(before, accs[..n + 1]) == Check(before, Run(before, accs[..n]), accs[n])
  {
    assert accs[..n + 1][..n] == accs[..n];
  }

  /** Pruning loses nothing: after any number of accesses the flag is set exactly when
      a history that keeps every record has found a race. */
  lemma {:induction false} PruningLosesNothing(before: Order, accs: seq<Access>, n: nat)
    requires n <= |accs|
    requires Transitive(before, accs) && Interchangeable(before, accs) && OwnVerdicts(before, accs)
    ensures Faithful(before, accs, n, Run(before, accs[..n]))
  {
    if n == 0 {
      EmptyIsFaithful(before, accs);
    } else {
      PruningLosesNothing(before, accs, n - 1);
      assert OwnVerdictAt(before, accs, n - 1);
      CheckIsFaithful(before, accs, n - 1, Run(before, accs[..n - 1]));
      RunUnfolds(before, accs, n - 1);
    }
  }

  // What a wrong leftover does.

  /** Accesses that never share a lock and never run in a reduction meet no early exit. */
  lemma {:induction false} NoExitNoLeftover(before: Order, records: seq<Record>, a: Access, outs: Outs)
    requires !a.inReduction && forall r | r in records :: !MutuallyExclusive(r, a.rec)
    ensures LeftoversSound(before, records, a.rec, a.inReduction, outs)
  {
    if records != [] {
      NoExitNoLeftover(before, records[1..], a, Analyze(before, records[0], a.rec, a.inReduction, outs).1);
    }
  }

  /** An early exit at which no decision can go wrong, whatever is left over. */
  predicate Harmless(before: Order, h: Record, c: Record, inReduction: bool) {
    MutuallyExclusive(h, c) || inReduction ==>
      && ((h.isWrite ==> c.isWrite) && IsSubset(c.locks, h.locks) ==> before(h, c))
      && ((c.isWrite ==> h.isWrite) && IsSubset(h.locks, c.locks) ==> CompareLabels(h.tag, c.tag) == SAME_LABEL)
  }

  predicate HarmlessAt(before: Order, accs: seq<Access>, j: nat, i: nat) {
    j < i < |accs| && !accs[j].ignored && !accs[i].ignored ==>
      Harmless(before, accs[j].rec, accs[i].rec, accs[i].inReduction)
  }

  lemma {:induction false} HarmlessScan(before: Order, records: seq<Record>, a: Access, outs: Outs)
    requires forall r | r in records :: Harmless(before, r, a.rec, a.inReduction)
    ensures LeftoversSound(before, records, a.rec, a.inReduction, outs)
  {
    if records != [] {
      assert Harmless(before, records[0], a.rec, a.inReduction);
      HarmlessScan(before, records[1..], a, Analyze(before, records[0], a.rec, a.inReduction, outs).1);
    }
  }

  lemma {:induction false} KeptFromRecords(before: Order, records: seq<Record>, c: Record, inReduction: bool, outs: Outs)
    ensures forall r | r in Scan(before, records, c, inReduction, outs).kept :: r in records
  {
    if records != [] {
      KeptFromRecords(before, records[1..], c, inReduction, Analyze(before, records[0], c, inReduction, outs).1);
    }
  }

  lemma {:induction false} RecordsArePast(before: Order, accs: seq<Access>, n: nat)
    requires n <= |accs|
    ensures forall r | r in Run(before, accs[..n]).records :: Past(accs, n, r)
  {
    if n > 0 {
      var a, h := accs[n - 1], Run(before, accs[..n - 1]);
      RecordsArePast(before, accs, n - 1);
      RunUnfolds(before, accs, n - 1);
      KeptFromRecords(before, h.records, a.rec, a.inReduction, Outs(false, a.leftover));
      forall r | r in Run(before, accs[..n]).records ensures Past(accs, n, r) {
        if r in h.records { assert Past(accs, n - 1, r); }
      }
    }
  }

  /** Whole runs in which every leftover is sound, told from the accesses alone: each pair
      that shares a lock, or meets in a reduction, is harmless. */
  lemma HarmlessRun(before: Order, accs: seq<Access>)
    requires forall j: nat, i: nat :: HarmlessAt(before, accs, j, i)
    ensures OwnVerdicts(before, accs)
  {
    forall n: nat ensures OwnVerdictAt(before, accs, n) {
      if n < |accs| && !accs[n].ignored {
        RecordsArePast(before, accs, n);
        forall r | r in Run(before, accs[..n]).records ensures Harmless(before, r, accs[n].rec, accs[n].inReduction) {
          assert Past(accs, n, r);
          var j: nat :| j < n && !accs[j].ignored && accs[j].rec == r;
          assert HarmlessAt(before, accs, j, n);
        }
        HarmlessScan(before, Run(before, accs[..n]).records, accs[n], Outs(false, accs[n].leftover));
      }
    }
  }

  predicate Unshared(accs: seq<Access>, j: nat, i: nat) {
    j < i < |accs| && !accs[j].ignored && !accs[i].ignored ==>
      !accs[i].inReduction && !MutuallyExclusive(accs[j].rec, accs[i].rec)
  }

  /** In particular: no two accesses share a lock, and none is in a reduction. */
  lemma UnsharedRun(before: Order, accs: seq<Access>)
    requires forall j: nat, i: nat :: Unshared(accs, j, i)
    ensures OwnVerdicts(before, accs)
  {
    forall j: nat, i: nat ensures HarmlessAt(before, accs, j, i) { assert Unshared(accs, j, i); }
    HarmlessRun(before, accs);
  }

  // The scan of one access, record by record.

  predicate Exits(h: Record, a: Access) {
    MutuallyExclusive(h, a.rec) || a.inReduction
  }

  /** The order verdict in hand before record `k`: that of the last record that met no early exit. */
  predicate LastVerdict(before: Order, records: seq<Record>, a: Access, k: nat) {
    0 < k <= |records| &&
    if Exits(records[k - 1], a) then LastVerdict(before, records, a, k - 1) else before(records[k - 1], a.rec)
  }

  /** The label comparison in hand before record `k`. */
  function LastDiff(records: seq<Record>, a: Access, k: nat): int {
    if k == 0 || k > |records| then a.leftover
    else if Exits(records[k - 1], a) then LastDiff(records, a, k - 1)
    else CompareLabels(records[k - 1].tag, a.rec.tag)
  }

  predicate MayDelete(h: Record, a: Access) {
    (h.isWrite ==> a.rec.isWrite) && IsSubset(a.rec.locks, h.locks)
  }

  predicate MaySkip(h: Record, a: Access) {
    (a.rec.isWrite ==> h.isWrite) && IsSubset(h.locks, a.rec.locks)
  }

  predicate Deletes(before: Order, records: seq<Record>, a: Access, k: nat) {
    k < |records| && LastVerdict(before, records, a, k + 1) && MayDelete(records[k], a)
  }

  predicate Skips(before: Order, records: seq<Record>, a: Access, k: nat) {
    k < |records| && !Deletes(before, records, a, k) && LastDiff(records, a, k + 1) == SAME_LABEL && MaySkip(records[k], a)
  }

  /** A deletion, or a skip, on what an earlier record left over. */
  predicate StaleDeletes(before: Order, records: seq<Record>, a: Access, k: nat) {
    k < |records| && Exits(records[k], a) && LastVerdict(before, records, a, k) && MayDelete(records[k], a)
  }

  predicate StaleSkips(before: Order, records: seq<Record>, a: Access, k: nat) {
    && k < |records| && Exits(records[k], a) && LastDiff(records, a, k) == SAME_LABEL && MaySkip(records[k], a)
    && !StaleDeletes(before, records, a, k)
  }

  /** The out-parameters and the decision at record `k`. */
  lemma DecisionAt(before: Order, records: seq<Record>, a: Access, k: nat)
    requires k < |records|
    ensures var outs := Outs(LastVerdict(before, records, a, k), LastDiff(records, a, k));
      var (race, outs') := Analyze(before, records[k], a.rec, a.inReduction, outs);
      && outs' == Outs(LastVerdict(before, records, a, k + 1), LastDiff(records, a, k + 1))
      && race == Races(before, records[k], a.rec, a.inReduction)
      && Manage(records[k], a.rec, outs') == if Deletes(before, records, a, k) then DelHist
                                            else if Skips(before, records, a, k) then SkipAddCur else NoOp
  {
  }

  function ScanFrom(before: Order, records: seq<Record>, a: Access, k: nat): Scanned
    requires k <= |records|
  {
    Scan(before, records[k..], a.rec, a.inReduction, Outs(LastVerdict(before, records, a, k), LastDiff(records, a, k)))
  }

  lemma ScanUnfolds(before: Order, records: seq<Record>, a: Access, k: nat)
    requires k < |records|
    ensures var s, rest := ScanFrom(before, records, a, k), ScanFrom(before, records, a, k + 1);
      && s.kept == (if Deletes(before, records, a, k) then rest.kept else [records[k]] + rest.kept)
      && s.skip == (Skips(before, records, a, k) || rest.skip)
      && s.race == (Races(before, records[k], a.rec, a.inReduction) || rest.race)
  {
    DecisionAt(before, records, a, k);
    assert records[k..][0] == records[k] && records[k..][1..] == records[k + 1..];
  }

  /** What the scan makes of the records from `k` on: which it keeps. */
  lemma {:induction false} KeptByRecord(before: Order, records: seq<Record>, a: Access, k: nat)
    requires k <= |records|
    ensures forall r :: r in ScanFrom(before, records, a, k).kept <==>
      exists i: nat :: k <= i < |records| && records[i] == r && !Deletes(before, records, a, i)
    decreases |records| - k
  {
    if k < |records| {
      KeptByRecord(before, records, a, k + 1);
      ScanUnfolds(before, records, a, k);
    }
  }

  /** Whether it skips the access, and whether it finds a race. */
  lemma {:induction false} ScanByRecord(before: Order, records: seq<Record>, a: Access, k: nat)
    requires k <= |records|
    ensures ScanFrom(before, records, a, k).skip <==> exists i: nat :: k <= i && Skips(before, records, a, i)
    ensures ScanFrom(before, records, a, k).race <==>
      exists i: nat | k <= i < |records| :: Races(before, records[i], a.rec, a.inReduction)
    decreases |records| - k
  {
    if k < |records| {
      ScanByRecord(before, records, a, k + 1);
      ScanUnfolds(before, records, a, k);
    }
  }

  /** What is in the list after an access that made no race found. */
  ghost predicate KeptAfter(before: Order, records: seq<Record>, a: Access, y: Record) {
    || (exists i: nat :: i < |records| && records[i] == y && !Deletes(before, records, a, i))
    || (y == a.rec && forall i: nat :: !Skips(before, records, a, i))
  }

  lemma CheckKeeps(before: Order, h: History, a: Access)
    requires !h.raceFound && !h.recycled && !a.ignored
    ensures Check(before, h, a).raceFound <==> exists r | r in h.records :: Races(before, r, a.rec, a.inReduction)
    ensures !Check(before, h, a).recycled
    ensures forall y :: y in Check(before, h, a).records <==> KeptAfter(before, h.records, a, y)
  {
    KeptByRecord(before, h.records, a, 0);
    ScanByRecord(before, h.records, a, 0);
    assert h.records[0..] == h.records;
  }

  // The races of later accesses that a scan loses.

  /** The order of the records and `a` before later accesses like `c`. */
  ghost predicate OrderFor(before: Order, records: seq<Record>, a: Access, c: Record) {
    && (forall x: Record, d: Record | d.tag == c.tag :: before(x, d) == before(x, c))
    && (forall r | r in records && before(r, a.rec) && before(a.rec, c) :: before(r, c))
    && (forall r | r in records && CompareLabels(r.tag, a.rec.tag) == SAME_LABEL :: before(r, c) == before(a.rec, c))
  }

  /** A later access with the label of `c`, of whatever kind and under whatever locks. */
  predicate LikeLater(d: Access, c: Record) {
    d.rec.tag == c.tag && !d.ignored && !d.inReduction
  }

  /** Whatever like `c` races with `x` races with `y`. */
  predicate Dominates(before: Order, y: Record, x: Record, c: Record) {
    !before(y, c) && (x.isWrite ==> y.isWrite) && Included(Ids(y.locks), Ids(x.locks))
  }

  ghost predicate Covered(before: Order, records: seq<Record>, a: Access, x: Record, c: Record) {
    exists y :: KeptAfter(before, records, a, y) && Dominates(before, y, x, c)
  }

  /** Every access and every record that a leftover drops is dominated by a kept one, unless it is
      ordered before `c` anyway. */
  ghost predicate StaleDropsCovered(before: Order, records: seq<Record>, a: Access, c: Record) {
    && (forall k: nat | StaleDeletes(before, records, a, k) && !before(records[k], c) ::
         Covered(before, records, a, records[k], c))
    && ((exists k: nat :: StaleSkips(before, records, a, k)) && !before(a.rec, c) ==>
         Covered(before, records, a, a.rec, c))
  }

  lemma RacesMeans(before: Order, x: Record, d: Access, c: Record)
    requires LikeLater(d, c) && before(x, d.rec) == before(x, c)
    ensures Races(before, x, d.rec, d.inReduction) <==>
      !before(x, c) && (x.isWrite || d.rec.isWrite) && !HasCommonLock(Ids(x.locks), Ids(d.rec.locks))
  {
  }

  lemma DominatesMeans(before: Order, y: Record, x: Record, d: Access, c: Record)
    requires LikeLater(d, c) && Dominates(before, y, x, c)
    requires before(y, d.rec) == before(y, c) && before(x, d.rec) == before(x, c)
    requires Races(before, x, d.rec, d.inReduction)
    ensures Races(before, y, d.rec, d.inReduction)
  {
    RacesMeans(before, x, d, c);
    RacesMeans(before, y, d, c);
  }

  /** The records and the access themselves: kept ones, and dropped ones with what dominates them. */
  lemma AllCovered(before: Order, records: seq<Record>, a: Access, c: Record, x: Record)
    requires OrderFor(before, records, a, c) && StaleDropsCovered(before, records, a, c)
    requires (x in records || x == a.rec) && !before(x, c)
    ensures Covered(before, records, a, x, c)
  {
    if KeptAfter(before, records, a, x) {
      assert Dominates(before, x, x, c);
    } else if x == a.rec {
      AccessCovered(before, records, a, c);
    } else {
      var k: nat :| k < |records| && records[k] == x;
      assert Deletes(before, records, a, k);
      if !StaleDeletes(before, records, a, k) {
        AccessCovered(before, records, a, c);
        SubsetIsIncluded(a.rec.locks, x.locks);
        var y :| KeptAfter(before, records, a, y) && Dominates(before, y, a.rec, c);
        assert Dominates(before, y, x, c);
      }
    }
  }

  lemma AccessCovered(before: Order, records: seq<Record>, a: Access, c: Record)
    requires OrderFor(before, records, a, c) && StaleDropsCovered(before, records, a, c) && !before(a.rec, c)
    ensures Covered(before, records, a, a.rec, c)
  {
    if KeptAfter(before, records, a, a.rec) {
      assert Dominates(before, a.rec, a.rec, c);
    } else {
      var k: nat :| Skips(before, records, a, k);
      if !StaleSkips(before, records, a, k) {
        SubsetIsIncluded(records[k].locks, a.rec.locks);
        assert KeptAfter(before, records, a, records[k]) && Dominates(before, records[k], a.rec, c);
      }
    }
  }

  /** Every race of a later access like `c` with what has been seen is still found. */
  ghost predicate RacesKept(before: Order, h: History, a: Access, c: Record) {
    forall d: Access | LikeLater(d, c) ::
      Check(before, Check(before, h, a), d).raceFound <==> RacesWithKept(before, h.records + [a.rec], d)
  }

  lemma LaterReport(before: Order, h: History, a: Access, d: Access)
    requires !h.raceFound && !h.recycled && !a.ignored && !d.ignored && !Check(before, h, a).raceFound
    ensures Check(before, Check(before, h, a), d).raceFound <==>
      exists y :: KeptAfter(before, h.records, a, y) && Races(before, y, d.rec, d.inReduction)
  {
    CheckKeeps(before, h, a);
    CheckKeeps(before, Check(before, h, a), d);
  }

  lemma KeptIsSeen(before: Order, records: seq<Record>, a: Access, y: Record)
    requires KeptAfter(before, records, a, y)
    ensures y in records + [a.rec]
  {
  }

  /** The kind and the locks of an access that races with `x` and with nothing kept. */
  function Evader(c: Record, x: Record, locks: seq<nat>): Access {
    Access(Record(!x.isWrite, c.tag, Locks(locks), c.task), false, 0, false)
  }

  /** Locks outside `x`, one for each of the records that holds one. */
  lemma {:induction false} Outside(ys: seq<Record>, x: Record) returns (l: seq<nat>)
    ensures forall i | i in l :: i !in Ids(x.locks)
    ensures forall y | y in ys && !Included(Ids(y.locks), Ids(x.locks)) :: HasCommonLock(Ids(y.locks), l)
  {
    if ys == [] {
      l := [];
    } else {
      l := Outside(ys[1..], x);
      if id :| id in Ids(ys[0].locks) && id !in Ids(x.locks) { l := l + [id]; }
    }
  }

  /** An undominated record is the one some later access would have raced with. */
  lemma UndominatedIsLost(before: Order, h: History, a: Access, c: Record, x: Record)
    requires OrderFor(before, h.records, a, c)
    requires !h.raceFound && !h.recycled && !a.ignored && !Check(before, h, a).raceFound
    requires x in h.records + [a.rec] && !before(x, c) && !Covered(before, h.records, a, x, c)
    ensures !RacesKept(before, h, a, c)
  {
    var ys := h.records + [a.rec];
    var l := Outside(ys, x);
    var d := Evader(c, x, l);
    LaterReport(before, h, a, d);
    RacesMeans(before, x, d, c);
    assert Races(before, x, d.rec, d.inReduction);
    forall y | KeptAfter(before, h.records, a, y) ensures !Races(before, y, d.rec, d.inReduction) {
      KeptIsSeen(before, h.records, a, y);
      RacesMeans(before, y, d, c);
      assert !Dominates(before, y, x, c);
    }
    assert LikeLater(d, c);
    assert RacesWithKept(before, ys, d);
  }

  lemma CoveredAreKept(before: Order, h: History, a: Access, c: Record, d: Access)
    requires OrderFor(before, h.records, a, c) && StaleDropsCovered(before, h.records, a, c) && LikeLater(d, c)
    requires !h.raceFound && !h.recycled && !a.ignored && !Check(before, h, a).raceFound
    ensures Check(before, Check(before, h, a), d).raceFound <==> RacesWithKept(before, h.records + [a.rec], d)
  {
    LaterReport(before, h, a, d);
    if y :| KeptAfter(before, h.records, a, y) && Races(before, y, d.rec, d.inReduction) {
      KeptIsSeen(before, h.records, a, y);
    }
    if x :| x in h.records + [a.rec] && Races(before, x, d.rec, d.inReduction) {
      RacesMeans(before, x, d, c);
      AllCovered(before, h.records, a, c, x);
      var y :| KeptAfter(before, h.records, a, y) && Dominates(before, y, x, c);
      DominatesMeans(before, y, x, d, c);
    }
  }

  /** When a wrong leftover loses a race: the next access like `c`, of any kind and under any
      locks, is reported exactly when it races with something seen, if and only if everything
      dropped on a leftover that is unordered with `c` is dominated by something kept. */
  lemma LeftoverExactness(before: Order, h: History, a: Access, c: Record)
    requires OrderFor(before, h.records, a, c)
    requires !h.raceFound && !h.recycled && !a.ignored && !Check(before, h, a).raceFound
    ensures RacesKept(before, h, a, c) <==> StaleDropsCovered(before, h.records, a, c)
  {
    if StaleDropsCovered(before, h.records, a, c) {
      forall d: Access | LikeLater(d, c)
        ensures Check(before, Check(before, h, a), d).raceFound <==> RacesWithKept(before, h.records + [a.rec], d)
      {
        CoveredAreKept(before, h, a, c, d);
      }
    } else if k: nat :| StaleDeletes(before, h.records, a, k) && !before(h.records[k], c) &&
                        !Covered(before, h.records, a, h.records[k], c) {
      UndominatedIsLost(before, h, a, c, h.records[k]);
    } else {
      UndominatedIsLost(before, h, a, c, a.rec);
    }
  }

  lemma {:induction false} NeverRecycled(before: Order, accs: seq<Access>)
    ensures !Run(before, accs).recycled
  {
    if accs != [] { NeverRecycled(before, accs[..|accs| - 1]); }
  }

  lemma RaceStays(before: Order, h: History, a: Access)
    requires h.raceFound
    ensures Check(before, h, a).raceFound
  {
  }

  /** On the accesses of a run the order is as the exactness asks. */
  lemma RunOrderFor(before: Order, accs: seq<Access>, n: nat, m: nat)
    requires Transitive(before, accs) && Interchangeable(before, accs) && n < m < |accs|
    requires forall x: Record, y: Record, z: Record | y.tag == z.tag :: before(x, y) == before(x, z)
    ensures OrderFor(before, Run(before, accs[..n]).records, accs[n], accs[m].rec)
  {
    RecordsArePast(before, accs, n);
    forall r | r in Run(before, accs[..n]).records
      ensures before(r, accs[n].rec) && before(accs[n].rec, accs[m].rec) ==> before(r, accs[m].rec)
      ensures CompareLabels(r.tag, accs[n].rec.tag) == SAME_LABEL ==> before(r, accs[m].rec) == before(accs[n].rec, accs[m].rec)
    {
      assert Past(accs, n, r);
      var j: nat :| j < n && accs[j].rec == r;
      assert TransitiveAt(before, accs, j, n, m) && InterchangeableAt(before, accs, j, n, m);
    }
  }

  /** The order is read off the labels, and a label is ordered with itself. */
  ghost predicate ReadsTags(before: Order) {
    && (forall x: Record, y: Record | x.tag == y.tag :: before(x, y))
    && (forall x: Record, y: Record, z: Record | y.tag == z.tag :: before(x, y) == before(x, z))
  }

  /** `d` is a write of the same task right after `a`, without any lock. */
  predicate IsProbe(a: Access, d: Access) {
    && !a.ignored && !d.ignored && !d.inReduction
    && d.rec.isWrite && d.rec.locks.NoLocks? && d.rec.tag == a.rec.tag
  }

  ghost predicate SomeUnordered(before: Order, records: seq<Record>, c: Record) {
    exists r | r in records :: !before(r, c)
  }

  /** It races with a record exactly when `a` is unordered with it, and is reported exactly
      when such a record is still there. */
  lemma ProbeVerdict(before: Order, h: History, a: Access, d: Access)
    requires ReadsTags(before) && IsProbe(a, d) && !h.raceFound && !h.recycled
    ensures forall r :: Races(before, r, d.rec, d.inReduction) <==> !before(r, a.rec)
    ensures Check(before, h, d).raceFound <==> SomeUnordered(before, h.records, a.rec)
  {
    forall r: Record ensures Races(before, r, d.rec, d.inReduction) <==> !before(r, a.rec) {
      RacesMeans(before, r, d, a.rec);
    }
    CheckKeeps(before, h, d);
  }

  /** The write that follows without a lock is right exactly unless records are unordered with
      the access and each of them is deleted on a leftover verdict. */
  lemma ProbeExactness(before: Order, h: History, a: Access, d: Access)
    requires ReadsTags(before) && IsProbe(a, d) && !h.raceFound && !h.recycled
    requires !Check(before, h, a).raceFound
    ensures (Check(before, Check(before, h, a), d).raceFound <==> RacesWithKept(before, h.records + [a.rec], d)) <==>
      ((exists k: nat :: k < |h.records| && !before(h.records[k], a.rec)) ==>
       (exists k: nat :: k < |h.records| && !before(h.records[k], a.rec) && !StaleDeletes(before, h.records, a, k)))
  {
    LaterReport(before, h, a, d);
    ProbeVerdict(before, h, a, d);
    if k: nat :| k < |h.records| && !before(h.records[k], a.rec) && !StaleDeletes(before, h.records, a, k) {
      assert KeptAfter(before, h.records, a, h.records[k]);
      assert h.records[k] in h.records + [a.rec];
    } else {
      forall y | KeptAfter(before, h.records, a, y) ensures before(y, a.rec) { ProbeGone(before, h.records, a, y); }
      if k: nat :| k < |h.records| && !before(h.records[k], a.rec) { assert h.records[k] in h.records + [a.rec]; }
    }
  }

  lemma ProbeGone(before: Order, records: seq<Record>, a: Access, y: Record)
    requires ReadsTags(before) && KeptAfter(before, records, a, y)
    requires forall k: nat | k < |records| && !before(records[k], a.rec) :: StaleDeletes(before, records, a, k)
    ensures before(y, a.rec)
  {
  }

  // That the list is pruned, and when it starts again.

  /** A record that an access without locks or reduction makes superfluous is gone: one without
      locks that is ordered before it and is not a write where the access is a read. */
  lemma OrderedIsDeleted(before: Order, h: History, a: Access, r: Record)
    requires !h.raceFound && !h.recycled && !a.ignored && !a.inReduction && a.rec.locks == NoLocks
    requires r != a.rec && before(r, a.rec) && (r.isWrite ==> a.rec.isWrite)
    ensures r !in Check(before, h, a).records
  {
    CheckKeeps(before, h, a);
    forall k: nat | k < |h.records| && h.records[k] == r ensures Deletes(before, h.records, a, k) {}
  }

  /** So a write after everything leaves only itself. */
  lemma WriteClears(before: Order, h: History, a: Access)
    requires !h.raceFound && !h.recycled && !a.ignored && !a.inReduction
    requires a.rec.locks == NoLocks && a.rec.isWrite && forall r | r in h.records :: before(r, a.rec)
    ensures !Check(before, h, a).raceFound && Check(before, h, a).records == [a.rec]
  {
    CheckKeeps(before, h, a);
    ScanAllDeleted(before, h.records, a, 0);
    assert h.records[0..] == h.records;
  }

  lemma {:induction false} ScanAllDeleted(before: Order, records: seq<Record>, a: Access, k: nat)
    requires k <= |records| && !a.inReduction && a.rec.locks == NoLocks && a.rec.isWrite
    requires forall r | r in records :: before(r, a.rec)
    ensures ScanFrom(before, records, a, k).kept == [] && !ScanFrom(before, records, a, k).skip
    decreases |records| - k
  {
    if k < |records| {
      assert records[k] in records;
      ScanAllDeleted(before, records, a, k + 1);
      ScanUnfolds(before, records, a, k);
    }
  }

  /** One record and one access with the same label and without locks: the write stays, or one of
      two alike. */
  lemma SameLabelKeepsOne(before: Order, r: Record, a: Access)
    requires !a.ignored && !a.inReduction && r.locks == NoLocks && a.rec.locks == NoLocks
    requires before(r, a.rec) && CompareLabels(r.tag, a.rec.tag) == SAME_LABEL
    ensures Check(before, History(false, false, [r]), a) ==
      History(false, false, if r.isWrite && !a.rec.isWrite then [r] else [a.rec])
  {
    assert [r][1..] == [];
    var (_, outs) := Analyze(before, r, a.rec, a.inReduction, Outs(false, a.leftover));
    assert Scan(before, [], a.rec, a.inReduction, outs) == Scanned([], false, false);
  }

  /** Under locks an access is skipped for a lock-free record with its label, unless it writes
      where that one reads. */
  lemma SameLabelUnderLocks(before: Order, r: Record, a: Access)
    requires !a.ignored && !a.inReduction && r.locks == NoLocks && a.rec.locks != NoLocks
    requires before(r, a.rec) && CompareLabels(r.tag, a.rec.tag) == SAME_LABEL
    ensures Check(before, History(false, false, [r]), a) ==
      History(false, false, if a.rec.isWrite && !r.isWrite then [r, a.rec] else [r])
  {
    assert [r][1..] == [];
    var (_, outs) := Analyze(before, r, a.rec, a.inReduction, Outs(false, a.leftover));
    assert Scan(before, [], a.rec, a.inReduction, outs) == Scanned([], false, false);
  }

  /** A read that is not ordered after a read with another label stays beside it. */
  lemma ConcurrentReadsStay(before: Order, r: Record, a: Access)
    requires !a.ignored && !r.isWrite && !a.rec.isWrite && !before(r, a.rec) && CompareLabels(r.tag, a.rec.tag) != SAME_LABEL
    requires !a.inReduction && a.rec.locks == NoLocks
    ensures Check(before, History(false, false, [r]), a) == History(false, false, [r, a.rec])
  {
    assert [r][1..] == [];
    var (_, outs) := Analyze(before, r, a.rec, a.inReduction, Outs(false, a.leftover));
    assert Scan(before, [], a.rec, a.inReduction, outs) == Scanned([], false, false);
  }

  /** Once a race is found a location is never reported again, and its records are dropped. */
  lemma {:induction false} FoundForGood(before: Order, accs: seq<Access>, n: nat)
    requires n <= |accs| && Run(before, accs[..n]).raceFound
    ensures Run(before, accs).raceFound
    ensures |accs| > n && !accs[|accs| - 1].ignored ==> Run(before, accs).records == []
    decreases |accs| - n
  {
    if n < |accs| {
      var m := |accs| - 1;
      assert accs[..m][..n] == accs[..n];
      FoundForGood(before, accs[..m], n);
    } else {
      assert accs[..n] == accs;
    }
  }

  /** After recycling, nothing earlier counts: the access that finds the mark is not recorded
      either, and the next is the first. */
  lemma RecycledForgets(before: Order, h: History, a: Access, d: Access)
    requires h.recycled && !h.raceFound && !a.ignored && !d.ignored
    ensures Check(before, Check(before, h, a), d) == History(false, false, [d.rec])
  {
  }

  /** Hardware locks and thread-private data are not checked at all. */
  lemma IgnoredIsUnseen(before: Order, h: History, a: Access, d: Access)
    requires a.ignored
    ensures Check(before, Check(before, h, a), d) == Check(before, h, d)
  {
  }
}
