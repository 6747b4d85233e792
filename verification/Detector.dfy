/** The detector end to end: the pruned per-location history, run with the label
    verdict, against reachability in the event graph of the run. */
module Detector {
  import opened Core
  import opened LockSets
  import opened EventGraph
  import AccessHistories
  import ForkJoin

  type Record = AccessHistories.Record
  type Access = AccessHistories.Access

  /** `happensBefore` on the labels of two records. */
  function LabelOrder(): AccessHistories.Order {
    (h: Record, c: Record) => HappensBefore(h.tag, c.tag).Ordered?
  }

  /** `accs` are accesses to one location, made at the access events `events` of a run. */
  ghost predicate MadeAt(s: ForkJoin.State, events: seq<nat>, accs: seq<Access>) {
    && |events| == |accs|
    && (forall i, j | 0 <= i < j < |events| :: events[i] < events[j])
    && (forall i | 0 <= i < |events| :: events[i] in s.accesses && accs[i].rec.tag == s.accesses[events[i]])
  }

  /** Two conflicting accesses without a common lock and without a path between them. */
  ghost predicate DataRace(s: ForkJoin.State, events: seq<nat>, accs: seq<Access>, j: nat, i: nat)
    requires ForkJoin.Sane(s) && MadeAt(s, events, accs) && j < i < |accs|
  {
    && !accs[j].ignored && !accs[i].ignored && !accs[i].inReduction
    && (accs[j].rec.isWrite || accs[i].rec.isWrite)
    && (forall l | l in Ids(accs[j].rec.locks) :: l !in Ids(accs[i].rec.locks))
    && !Reaches(s.graph, events[j], events[i])
  }

  lemma OrderIsReachability(acts: seq<ForkJoin.Action>, s: ForkJoin.State, events: seq<nat>, accs: seq<Access>, j: nat, i: nat)
    requires ForkJoin.Run(acts, s) && MadeAt(s, events, accs) && j < i < |accs|
    ensures ForkJoin.Sane(s)
    ensures LabelOrder()(accs[j].rec, accs[i].rec) <==> Reaches(s.graph, events[j], events[i])
  {
    ForkJoin.VerdictIsReachability(acts, s, events[j], events[i]);
  }

  /** Same labels are interchangeable for the verdict against any later access of the run. */
  lemma SameTagSameOrder(acts: seq<ForkJoin.Action>, s: ForkJoin.State, events: seq<nat>, accs: seq<Access>)
    requires ForkJoin.Run(acts, s) && MadeAt(s, events, accs)
    ensures AccessHistories.Interchangeable(LabelOrder(), accs)
  {
    forall i: nat, j: nat, k: nat ensures AccessHistories.InterchangeableAt(LabelOrder(), accs, i, j, k) {
      if i < k < |accs| && j < k && CompareLabels(accs[i].rec.tag, accs[j].rec.tag) == SAME_LABEL {
        ForkJoin.SameLabelIsEqual(acts, s, events[i], events[j]);
      }
    }
  }

  lemma OrderIsTransitive(acts: seq<ForkJoin.Action>, s: ForkJoin.State, events: seq<nat>, accs: seq<Access>)
    requires ForkJoin.Run(acts, s) && MadeAt(s, events, accs)
    ensures AccessHistories.Transitive(LabelOrder(), accs)
  {
    forall i: nat, j: nat, k: nat ensures AccessHistories.TransitiveAt(LabelOrder(), accs, i, j, k) {
      if i < j < k < |accs| && LabelOrder()(accs[i].rec, accs[j].rec) && LabelOrder()(accs[j].rec, accs[k].rec) {
        OrderIsReachability(acts, s, events, accs, i, j);
        OrderIsReachability(acts, s, events, accs, j, k);
        OrderIsReachability(acts, s, events, accs, i, k);
        ReachesTransitive(s.graph, events[i], events[j], events[k]);
      }
    }
  }

  lemma RaceIsDataRace(acts: seq<ForkJoin.Action>, s: ForkJoin.State, events: seq<nat>, accs: seq<Access>, j: nat, i: nat)
    requires ForkJoin.Run(acts, s) && MadeAt(s, events, accs) && j < i < |accs| && !accs[j].ignored && !accs[i].ignored
    ensures ForkJoin.Sane(s)
    ensures AccessHistories.Races(LabelOrder(), accs[j].rec, accs[i].rec, accs[i].inReduction) <==> DataRace(s, events, accs, j, i)
  {
    OrderIsReachability(acts, s, events, accs, j, i);
    assert AccessHistories.MutuallyExclusive(accs[j].rec, accs[i].rec) <==>
      HasCommonLock(Ids(accs[j].rec.locks), Ids(accs[i].rec.locks));
  }

  /** ROMP reports a race on a location as soon as, and only if, two of its accesses race. */
  lemma DetectorIsExact(acts: seq<ForkJoin.Action>, s: ForkJoin.State, events: seq<nat>, accs: seq<Access>, n: nat)
    requires ForkJoin.Run(acts, s) && MadeAt(s, events, accs) && n <= |accs|
    requires AccessHistories.OwnVerdicts(LabelOrder(), accs)
    ensures ForkJoin.Sane(s)
    ensures AccessHistories.Run(LabelOrder(), accs[..n]).raceFound <==>
            exists j: nat, i: nat | j < i < n :: DataRace(s, events, accs, j, i)
  {
    ForkJoin.RunInv(acts, s);
    OrderIsTransitive(acts, s, events, accs);
    SameTagSameOrder(acts, s, events, accs);
    AccessHistories.PruningLosesNothing(LabelOrder(), accs, n);
    forall j: nat, i: nat | j < i < n && !accs[j].ignored && !accs[i].ignored
      ensures AccessHistories.Races(LabelOrder(), accs[j].rec, accs[i].rec, accs[i].inReduction) <==> DataRace(s, events, accs, j, i)
    {
      RaceIsDataRace(acts, s, events, accs, j, i);
    }
    RacesAgree(s, events, accs, n);
  }

  lemma RacesAgree(s: ForkJoin.State, events: seq<nat>, accs: seq<Access>, n: nat)
    requires ForkJoin.Sane(s) && MadeAt(s, events, accs) && n <= |accs|
    requires forall j: nat, i: nat | j < i < n && !accs[j].ignored && !accs[i].ignored ::
      AccessHistories.Races(LabelOrder(), accs[j].rec, accs[i].rec, accs[i].inReduction) <==> DataRace(s, events, accs, j, i)
    ensures AccessHistories.RaceBefore(LabelOrder(), accs, n) <==> exists j: nat, i: nat | j < i < n :: DataRace(s, events, accs, j, i)
  {
    if AccessHistories.RaceBefore(LabelOrder(), accs, n) {
      var i :| 0 <= i < n && AccessHistories.RaceAt(LabelOrder(), accs, i);
      var j :| 0 <= j < i && !accs[j].ignored && AccessHistories.Races(LabelOrder(), accs[j].rec, accs[i].rec, accs[i].inReduction);
      assert DataRace(s, events, accs, j, i);
    }
    if j: nat, i: nat :| j < i < n && DataRace(s, events, accs, j, i) {
      assert AccessHistories.RaceAt(LabelOrder(), accs, i);
    }
  }

  /** The label verdict fits the probe lemma: it reads labels only, and a label is ordered with itself. */
  lemma LabelOrderReadsTags()
    ensures AccessHistories.ReadsTags(LabelOrder())
  {
  }

  /** Leftovers do no harm where each pair that shares a lock or meets in a reduction is
      harmless in itself. */
  lemma DetectorIsExactIfHarmless(acts: seq<ForkJoin.Action>, s: ForkJoin.State, events: seq<nat>, accs: seq<Access>, n: nat)
    requires ForkJoin.Run(acts, s) && MadeAt(s, events, accs) && n <= |accs|
    requires forall j: nat, i: nat :: AccessHistories.HarmlessAt(LabelOrder(), accs, j, i)
    ensures ForkJoin.Sane(s)
    ensures AccessHistories.Run(LabelOrder(), accs[..n]).raceFound <==>
            exists j: nat, i: nat | j < i < n :: DataRace(s, events, accs, j, i)
  {
    AccessHistories.HarmlessRun(LabelOrder(), accs);
    DetectorIsExact(acts, s, events, accs, n);
  }

  /** Where no two accesses of the location share a lock and none is in a reduction, the
      detector is exact without any further condition. */
  lemma DetectorIsExactUnshared(acts: seq<ForkJoin.Action>, s: ForkJoin.State, events: seq<nat>, accs: seq<Access>, n: nat)
    requires ForkJoin.Run(acts, s) && MadeAt(s, events, accs) && n <= |accs|
    requires forall j: nat, i: nat :: AccessHistories.Unshared(accs, j, i)
    ensures ForkJoin.Sane(s)
    ensures AccessHistories.Run(LabelOrder(), accs[..n]).raceFound <==>
            exists j: nat, i: nat | j < i < n :: DataRace(s, events, accs, j, i)
  {
    AccessHistories.UnsharedRun(LabelOrder(), accs);
    DetectorIsExact(acts, s, events, accs, n);
  }

  /** In every run, while no race has been found: all races of the location's next accesses are
      still found after a scan exactly when what it dropped on a leftover is covered. */
  lemma LeftoverExactnessOfRuns(acts: seq<ForkJoin.Action>, s: ForkJoin.State, events: seq<nat>, accs: seq<Access>, n: nat, m: nat)
    requires ForkJoin.Run(acts, s) && MadeAt(s, events, accs) && n < m < |accs| && !accs[n].ignored
    requires !AccessHistories.Run(LabelOrder(), accs[..n + 1]).raceFound
    ensures var h := AccessHistories.Run(LabelOrder(), accs[..n]);
      AccessHistories.RacesKept(LabelOrder(), h, accs[n], accs[m].rec) <==>
      AccessHistories.StaleDropsCovered(LabelOrder(), h.records, accs[n], accs[m].rec)
  {
    var h := AccessHistories.Run(LabelOrder(), accs[..n]);
    OrderIsTransitive(acts, s, events, accs);
    SameTagSameOrder(acts, s, events, accs);
    LabelOrderReadsTags();
    AccessHistories.RunOrderFor(LabelOrder(), accs, n, m);
    AccessHistories.RunUnfolds(LabelOrder(), accs, n);
    AccessHistories.NeverRecycled(LabelOrder(), accs[..n]);
    if h.raceFound { AccessHistories.RaceStays(LabelOrder(), h, accs[n]); }
    AccessHistories.LeftoverExactness(LabelOrder(), h, accs[n], accs[m].rec);
  }
}
