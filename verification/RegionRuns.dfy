/** Runs of one parallel region of two members, step by step. */
module RegionRuns {
  import opened Segments
  import opened Core
  import EventGraph
  import ForkJoin
  import Labels
  import OffsetSpan

  /** The label of member `i` of the region after `b` barriers. */
  function MemberTag(b: nat, i: nat): Label {
    [NewSegment(Implicit, b, 1), NewSegment(Implicit, i, 2)]
  }

  datatype Member = Member(b: nat, status: ForkJoin.Status)

  /** The one region of two members, after `n` events. */
  ghost predicate Region(s: ForkJoin.State, n: nat, closed: bool, x: Member, y: Member) {
    && s.teams == map[0 := ForkJoin.Team(0, 1, 2, closed)] && |s.graph| == n
    && 0 in s.tasks && 1 in s.tasks && 2 in s.tasks && s.tasks[0].status.Suspended?
    && s.tasks[1].tag == MemberTag(x.b, 0) && s.tasks[1].status == x.status
    && s.tasks[2].tag == MemberTag(y.b, 1) && s.tasks[2].status == y.status
  }

  lemma Step(acts: seq<ForkJoin.Action>, s: ForkJoin.State, a: ForkJoin.Action) returns (s': ForkJoin.State)
    requires ForkJoin.Run(acts, s) && ForkJoin.Enabled(s, a)
    ensures ForkJoin.Sane(s) && ForkJoin.Run(acts + [a], s') && s' == ForkJoin.Apply(s, a)
  {
    ForkJoin.EnabledStepsRun(acts, s, a);
    s' := ForkJoin.Apply(s, a);
  }

  lemma Forks() returns (acts: seq<ForkJoin.Action>, s: ForkJoin.State)
    ensures ForkJoin.Run(acts, s) && s.accesses == map[] && s.tasks.Keys == {0, 1, 2}
    ensures Region(s, 2, false, Member(0, ForkJoin.Running), Member(0, ForkJoin.Running))
  {
    var s0, m := ForkJoin.Init(), ForkJoin.Team(0, 1, 2, false);
    acts := [ForkJoin.Fork(0, 0, 1, 2)];
    assert ForkJoin.Run([], s0);
    assert [] + acts == acts;
    s := Step([], s0, acts[0]);
    ForkJoin.ForkTasks(s0, 0, 0, m, s);
    assert m.Has(1) && m.Has(2);
    ForksKeys(s);
  }

  /** One of the two members moves on. */
  lemma AccessRegion(s: ForkJoin.State, n: nat, x: Member, y: Member, t: nat, s': ForkJoin.State)
    requires ForkJoin.Sane(s) && Region(s, n, false, x, y) && ForkJoin.Enabled(s, ForkJoin.Access(t)) && (t == 1 || t == 2)
    requires s' == ForkJoin.DoAccess(s, t)
    ensures Region(s', n + 1, false, x, y) && s'.accesses == s.accesses[n := MemberTag(if t == 1 then x.b else y.b, t - 1)]
  {
  }

  lemma MemberAccess(acts: seq<ForkJoin.Action>, s: ForkJoin.State, n: nat, x: Member, y: Member, t: nat)
    returns (acts': seq<ForkJoin.Action>, s': ForkJoin.State)
    requires ForkJoin.Run(acts, s) && Region(s, n, false, x, y) && ((t == 1 && x.status.Running?) || (t == 2 && y.status.Running?))
    ensures ForkJoin.Run(acts', s') && Region(s', n + 1, false, x, y)
    ensures s'.accesses == s.accesses[n := MemberTag(if t == 1 then x.b else y.b, t - 1)]
  {
    s' := Step(acts, s, ForkJoin.Access(t));
    acts' := acts + [ForkJoin.Access(t)];
    AccessRegion(s, n, x, y, t, s');
  }

  lemma OneArrives(acts: seq<ForkJoin.Action>, s: ForkJoin.State, n: nat, x: Member, y: Member, t: nat)
    returns (acts': seq<ForkJoin.Action>, s': ForkJoin.State)
    requires ForkJoin.Run(acts, s) && Region(s, n, false, x, y) && ((t == 1 && x.status.Running?) || (t == 2 && y.status.Running?))
    ensures ForkJoin.Run(acts', s') && s'.accesses == s.accesses
    ensures Region(s', n, false, if t == 1 then Member(x.b, ForkJoin.Arrived) else x, if t == 2 then Member(y.b, ForkJoin.Arrived) else y)
  {
    s' := Step(acts, s, ForkJoin.Arrive(t, 0));
    acts' := acts + [ForkJoin.Arrive(t, 0)];
    ArrivedRegion(s, n, x, y, t, s');
  }

  lemma ArrivedRegion(s: ForkJoin.State, n: nat, x: Member, y: Member, t: nat, s': ForkJoin.State)
    requires Region(s, n, false, x, y) && (t == 1 || t == 2) && s' == ForkJoin.DoArrive(s, t)
    ensures s'.accesses == s.accesses
    ensures Region(s', n, false, if t == 1 then Member(x.b, ForkJoin.Arrived) else x, if t == 2 then Member(y.b, ForkJoin.Arrived) else y)
  {
  }

  lemma Arrives(acts: seq<ForkJoin.Action>, s: ForkJoin.State, n: nat, x: Member, y: Member)
    returns (acts': seq<ForkJoin.Action>, s': ForkJoin.State)
    requires ForkJoin.Run(acts, s) && Region(s, n, false, x, y) && x.status.Running? && y.status.Running?
    ensures ForkJoin.Run(acts', s') && s'.accesses == s.accesses
    ensures Region(s', n, false, Member(x.b, ForkJoin.Arrived), Member(y.b, ForkJoin.Arrived))
  {
    acts', s' := OneArrives(acts, s, n, x, y, 1);
    acts', s' := OneArrives(acts', s', n, Member(x.b, ForkJoin.Arrived), y, 2);
  }

  lemma BarrierTag(i: nat)
    ensures Labels.BarrierEnd(MemberTag(0, i)) == MemberTag(1, i) && OffsetSpan.BumpFits(MemberTag(0, i))
  {
    assert Labels.Bump(NewSegment(Implicit, 0, 1)) == NewSegment(Implicit, 1, 1);
  }

  lemma MayRelease(s: ForkJoin.State, n: nat, final: bool)
    requires Region(s, n, false, Member(0, ForkJoin.Arrived), Member(0, ForkJoin.Arrived))
    ensures ForkJoin.Enabled(s, ForkJoin.Release(0, final))
  {
    BarrierTag(0);
    BarrierTag(1);
    forall t | s.teams[0].Has(t)
      ensures t in s.tasks && s.tasks[t].status.Arrived? && OffsetSpan.BumpFits(s.tasks[t].tag)
    {
      assert t == 1 || t == 2;
    }
  }

  lemma ReleasedRegion(s: ForkJoin.State, n: nat, final: bool, s': ForkJoin.State)
    requires ForkJoin.Sane(s) && Region(s, n, false, Member(0, ForkJoin.Arrived), Member(0, ForkJoin.Arrived))
    requires ForkJoin.Enabled(s, ForkJoin.Release(0, final)) && s' == ForkJoin.DoRelease(s, 0, final)
    ensures Region(s', n + 1, final, Member(0, ForkJoin.Released), Member(0, ForkJoin.Released)) && s'.accesses == s.accesses
  {
    ForkJoin.ReleaseTasks(s, 0, final, s');
    assert s.teams[0].Has(1) && s.teams[0].Has(2);
    assert s'.teams == map[0 := ForkJoin.Team(0, 1, 2, final)];
  }

  lemma Releases(acts: seq<ForkJoin.Action>, s: ForkJoin.State, n: nat, final: bool)
    returns (acts': seq<ForkJoin.Action>, s': ForkJoin.State)
    requires ForkJoin.Run(acts, s) && Region(s, n, false, Member(0, ForkJoin.Arrived), Member(0, ForkJoin.Arrived))
    ensures ForkJoin.Run(acts', s') && s'.accesses == s.accesses
    ensures Region(s', n + 1, final, Member(0, ForkJoin.Released), Member(0, ForkJoin.Released))
  {
    MayRelease(s, n, final);
    s' := Step(acts, s, ForkJoin.Release(0, final));
    acts' := acts + [ForkJoin.Release(0, final)];
    ReleasedRegion(s, n, final, s');
  }

  lemma LeftRegion(s: ForkJoin.State, n: nat, closed: bool, t: nat, x: Member, y: Member, s': ForkJoin.State)
    requires ForkJoin.Sane(s) && Region(s, n, closed, x, y) && (t == 1 || t == 2)
    requires (if t == 1 then x else y) == Member(0, ForkJoin.Released) && s' == ForkJoin.DoLeave(s, t)
    ensures s'.accesses == s.accesses
    ensures Region(s', n, closed, if t == 1 then Member(1, ForkJoin.Running) else x, if t == 2 then Member(1, ForkJoin.Running) else y)
  {
    BarrierTag(t - 1);
  }

  lemma Leaves(acts: seq<ForkJoin.Action>, s: ForkJoin.State, n: nat, closed: bool, t: nat, x: Member, y: Member)
    returns (acts': seq<ForkJoin.Action>, s': ForkJoin.State)
    requires ForkJoin.Run(acts, s) && Region(s, n, closed, x, y) && (t == 1 || t == 2)
    requires (if t == 1 then x else y) == Member(0, ForkJoin.Released)
    ensures ForkJoin.Run(acts', s') && s'.accesses == s.accesses
    ensures Region(s', n, closed, if t == 1 then Member(1, ForkJoin.Running) else x, if t == 2 then Member(1, ForkJoin.Running) else y)
  {
    s' := Step(acts, s, ForkJoin.Leave(t));
    acts' := acts + [ForkJoin.Leave(t)];
    LeftRegion(s, n, closed, t, x, y, s');
  }

  lemma JoinedParent(s: ForkJoin.State, n: nat, s': ForkJoin.State)
    requires ForkJoin.Sane(s) && Region(s, n, true, Member(1, ForkJoin.Running), Member(1, ForkJoin.Running))
    requires ForkJoin.Enabled(s, ForkJoin.Join(0)) && s' == ForkJoin.DoJoin(s, 0)
    ensures |s'.graph| == n + 1 && s'.accesses == s.accesses && s'.teams == map[]
    ensures 0 in s'.tasks && s'.tasks[0].status.Running? && s'.tasks[0].tag == [NewSegment(Implicit, 1, 1)]
  {
    assert MemberTag(1, 0)[..1] == [NewSegment(Implicit, 1, 1)];
  }

  /** The region ends and its parent makes an access. */
  lemma Joins(acts: seq<ForkJoin.Action>, s: ForkJoin.State, n: nat)
    returns (acts': seq<ForkJoin.Action>, s': ForkJoin.State)
    requires ForkJoin.Run(acts, s) && Region(s, n, true, Member(1, ForkJoin.Running), Member(1, ForkJoin.Running))
    ensures ForkJoin.Run(acts', s') && s'.accesses == s.accesses[n + 1 := [NewSegment(Implicit, 1, 1)]]
  {
    s' := Step(acts, s, ForkJoin.Join(0));
    acts' := acts + [ForkJoin.Join(0)];
    JoinedParent(s, n, s');
    s' := Step(acts', s', ForkJoin.Access(0));
    acts' := acts' + [ForkJoin.Access(0)];
  }

  lemma AllArrive() returns (acts: seq<ForkJoin.Action>, s: ForkJoin.State)
    ensures ForkJoin.Run(acts, s) && s.accesses == map[2 := MemberTag(0, 1)]
    ensures Region(s, 3, false, Member(0, ForkJoin.Arrived), Member(0, ForkJoin.Arrived))
  {
    acts, s := Forks();
    acts, s := MemberAccess(acts, s, 2, Member(0, ForkJoin.Running), Member(0, ForkJoin.Running), 2);
    acts, s := Arrives(acts, s, 3, Member(0, ForkJoin.Running), Member(0, ForkJoin.Running));
  }

  lemma AllLeave(acts: seq<ForkJoin.Action>, s: ForkJoin.State, n: nat)
    returns (acts': seq<ForkJoin.Action>, s': ForkJoin.State)
    requires ForkJoin.Run(acts, s) && Region(s, n, true, Member(0, ForkJoin.Released), Member(0, ForkJoin.Released))
    ensures ForkJoin.Run(acts', s') && s'.accesses == s.accesses
    ensures Region(s', n, true, Member(1, ForkJoin.Running), Member(1, ForkJoin.Running))
  {
    acts', s' := Leaves(acts, s, n, true, 1, Member(0, ForkJoin.Released), Member(0, ForkJoin.Released));
    acts', s' := Leaves(acts', s', n, true, 2, Member(1, ForkJoin.Running), Member(0, ForkJoin.Released));
  }

  lemma WholeRuns() returns (acts: seq<ForkJoin.Action>, s: ForkJoin.State)
    ensures ForkJoin.Run(acts, s)
    ensures s.accesses == map[2 := MemberTag(0, 1), 5 := [NewSegment(Implicit, 1, 1)]]
  {
    acts, s := AllArrive();
    acts, s := Releases(acts, s, 3, true);
    acts, s := AllLeave(acts, s, 4);
    acts, s := Joins(acts, s, 4);
  }

  lemma MemberBeforeParent()
    ensures HappensBefore(MemberTag(0, 1), [NewSegment(Implicit, 1, 1)]) == Ordered
  {
    assert CompareLabels(MemberTag(0, 1), [NewSegment(Implicit, 1, 1)]) == 0;
  }

  /** A whole region: a member's access, the last barrier, the join, and an access of the parent
      that follows the member's. */
  lemma WholeRegion() returns (acts: seq<ForkJoin.Action>, s: ForkJoin.State)
    ensures ForkJoin.Run(acts, s) && ForkJoin.Sane(s)
    ensures s.accesses == map[2 := MemberTag(0, 1), 5 := [NewSegment(Implicit, 1, 1)]]
    ensures 5 < |s.graph| && EventGraph.Reaches(s.graph, 2, 5)
  {
    acts, s := WholeRuns();
    ForkJoin.VerdictIsReachability(acts, s, 2, 5);
    MemberBeforeParent();
  }

  lemma NestedFork(s: ForkJoin.State, s': ForkJoin.State)
    requires ForkJoin.Sane(s) && Region(s, 2, false, Member(0, ForkJoin.Running), Member(0, ForkJoin.Running))
    requires ForkJoin.Enabled(s, ForkJoin.Fork(1, 1, 3, 2)) && s' == ForkJoin.DoFork(s, 1, 1, 3, 2)
    ensures 3 in s'.tasks && s'.tasks[3].status.Running? && s'.tasks[3].tag == MemberTag(0, 0) + [NewSegment(Implicit, 0, 2)]
    ensures |s'.graph| == 3 && s'.accesses == s.accesses && forall tm | tm in s'.teams :: !s'.teams[tm].closed
  {
    var m := ForkJoin.Team(1, 3, 2, false);
    ForkJoin.ForkTasks(s, 1, 1, m, s');
    assert m.Has(3);
  }

  lemma MayNest(s: ForkJoin.State)
    requires Region(s, 2, false, Member(0, ForkJoin.Running), Member(0, ForkJoin.Running)) && s.tasks.Keys == {0, 1, 2}
    ensures ForkJoin.Enabled(s, ForkJoin.Fork(1, 1, 3, 2))
  {
  }

  lemma ForksKeys(s: ForkJoin.State)
    requires ForkJoin.Sane(ForkJoin.Init()) && ForkJoin.Enabled(ForkJoin.Init(), ForkJoin.Fork(0, 0, 1, 2))
    requires s == ForkJoin.DoFork(ForkJoin.Init(), 0, 0, 1, 2)
    ensures s.tasks.Keys == {0, 1, 2}
  {
    var m := ForkJoin.Team(0, 1, 2, false);
    ForkJoin.ForkTasks(ForkJoin.Init(), 0, 0, m, s);
    forall t ensures t in s.tasks <==> t in {0, 1, 2} {
      assert m.Has(t) <==> t == 1 || t == 2;
    }
  }

  /** A member forks a region of its own, whose first member makes an access. */
  lemma NestedRegion() returns (acts: seq<ForkJoin.Action>, s: ForkJoin.State)
    ensures ForkJoin.Run(acts, s) && s.accesses == map[3 := MemberTag(0, 0) + [NewSegment(Implicit, 0, 2)]]
  {
    var s2;
    acts, s2 := Forks();
    MayNest(s2);
    s := Step(acts, s2, ForkJoin.Fork(1, 1, 3, 2));
    acts := acts + [ForkJoin.Fork(1, 1, 3, 2)];
    NestedFork(s2, s);
    s := Step(acts, s, ForkJoin.Access(3));
    acts := acts + [ForkJoin.Access(3)];
  }
}
