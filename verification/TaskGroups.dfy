/** Taskgroups of one task: the group counters kept in its label segment and what they
    tell about two of its explicit children (analyzeTaskGroupSync in Core.cpp). Module
    TaskSync puts them into runs. */
module TaskGroups {
  import opened Segments
  import opened Core
  import Labels

  datatype GroupOp = Begin | End

  /** The task's segment after its first `n` group begins and ends. */
  function After(s: Segment, ops: seq<GroupOp>, n: nat): Segment {
    if n == 0 || n > |ops| then s
    else if ops[n - 1].Begin? then Labels.GroupBegin(After(s, ops, n - 1))
    else Labels.GroupEnd(After(s, ops, n - 1))
  }

  /** How many groups are open after `n` operations. */
  function Depth(ops: seq<GroupOp>, n: nat): int {
    if n == 0 || n > |ops| then 0 else Depth(ops, n - 1) + if ops[n - 1].Begin? then 1 else -1
  }

  /** Only an open group is ended. */
  ghost predicate Nested(ops: seq<GroupOp>) {
    forall n: nat | n <= |ops| :: Depth(ops, n) >= 0
  }

  /** The segment's id counts the begins and ends, its level the open groups. */
  lemma {:induction false} Counters(s: Segment, ops: seq<GroupOp>, n: nat)
    requires s.groupLevel == 0 && Nested(ops) && s.groupId + |ops| < FIELD16 && n <= |ops|
    ensures After(s, ops, n).groupId == s.groupId + n
    ensures 0 <= Depth(ops, n) <= n && After(s, ops, n).groupLevel == Depth(ops, n)
  {
    if n > 0 {
      Counters(s, ops, n - 1);
      if ops[n - 1].Begin? { BeginCounts(After(s, ops, n - 1)); } else { EndCounts(After(s, ops, n - 1)); }
    }
  }

  lemma BeginCounts(s: Segment)
    requires s.groupId + 1 < FIELD16 && s.groupLevel + 1 < FIELD16
    ensures Labels.GroupBegin(s) == s.(groupId := s.groupId + 1, groupLevel := s.groupLevel + 1)
  {
  }

  lemma EndCounts(s: Segment)
    requires s.groupId + 1 < FIELD16 && 1 <= s.groupLevel < FIELD16
    ensures Labels.GroupEnd(s) == s.(groupId := s.groupId + 1, groupLevel := s.groupLevel - 1)
  {
  }

  /** Groups touch nothing but the two counters. */
  lemma {:induction false} AfterKeeps(s: Segment, ops: seq<GroupOp>, n: nat)
    ensures After(s, ops, n) == s.(groupId := After(s, ops, n).groupId, groupLevel := After(s, ops, n).groupLevel)
  {
    if 0 < n <= |ops| { AfterKeeps(s, ops, n - 1); }
  }

  /** The innermost group open after `i` operations has ended by `j` operations. */
  ghost predicate GroupEnded(ops: seq<GroupOp>, i: nat, j: nat) {
    && i <= j <= |ops| && Depth(ops, i) >= 1
    && exists m: nat | i < m <= j :: Depth(ops, m) < Depth(ops, i)
  }

  /** The program's verdict on a child created after `i` operations and one created after `j`. */
  predicate GroupVerdict(s: Segment, ops: seq<GroupOp>, i: nat, j: nat) {
    TaskGroupSync(After(s, ops, i), After(s, ops, j))
  }

  lemma VerdictByDepth(s: Segment, ops: seq<GroupOp>, i: nat, j: nat)
    requires s.groupLevel == 0 && Nested(ops) && s.groupId + |ops| < FIELD16 && i <= |ops| && j <= |ops|
    ensures GroupVerdict(s, ops, i, j) <==> i < j && Depth(ops, i) >= Depth(ops, j)
  {
    Counters(s, ops, i);
    Counters(s, ops, j);
  }

  // Runs of operations grow at the end.

  lemma {:induction false} DepthGrows(ops: seq<GroupOp>, x: GroupOp, n: nat)
    requires n <= |ops|
    ensures Depth(ops + [x], n) == Depth(ops, n)
  {
    if n > 0 { DepthGrows(ops, x, n - 1); }
  }

  lemma {:induction false} AfterGrows(s: Segment, ops: seq<GroupOp>, x: GroupOp, n: nat)
    requires n <= |ops|
    ensures After(s, ops + [x], n) == After(s, ops, n)
  {
    if n > 0 { AfterGrows(s, ops, x, n - 1); }
  }

  lemma EndedGrows(ops: seq<GroupOp>, x: GroupOp, i: nat, j: nat)
    requires j <= |ops|
    ensures GroupEnded(ops + [x], i, j) <==> GroupEnded(ops, i, j)
  {
    forall m: nat | m <= |ops| ensures Depth(ops + [x], m) == Depth(ops, m) { DepthGrows(ops, x, m); }
  }

  lemma EndedLater(ops: seq<GroupOp>, i: nat, j: nat, k: nat)
    requires GroupEnded(ops, i, j) && j <= k <= |ops|
    ensures GroupEnded(ops, i, k)
  {
  }

  /** What one more operation does to a group. */
  lemma EndedNow(ops: seq<GroupOp>, x: GroupOp, i: nat)
    requires i <= |ops|
    ensures Depth(ops + [x], |ops| + 1) == Depth(ops, |ops|) + if x.Begin? then 1 else -1
    ensures GroupEnded(ops + [x], i, |ops| + 1) <==>
      GroupEnded(ops, i, |ops|) || (Depth(ops, i) >= 1 && Depth(ops + [x], |ops| + 1) < Depth(ops, i))
  {
    forall m: nat | m <= |ops| ensures Depth(ops + [x], m) == Depth(ops, m) { DepthGrows(ops, x, m); }
  }

  lemma NestedGrows(ops: seq<GroupOp>, x: GroupOp)
    requires Nested(ops) && (x.Begin? || Depth(ops, |ops|) >= 1)
    ensures Nested(ops + [x])
  {
    forall m: nat | m <= |ops| ensures Depth(ops + [x], m) == Depth(ops, m) { DepthGrows(ops, x, m); }
  }

  // When the verdict is right.

  /** After `i` operations no group nests deeper than the one then open. */
  ghost predicate NeverDeeper(ops: seq<GroupOp>, i: nat) {
    forall m: nat | i < m <= |ops| :: Depth(ops, m) <= Depth(ops, i)
  }

  /** After `i` operations a group is begun inside the one then open, and it stays open. */
  ghost predicate StaysDeeper(ops: seq<GroupOp>, i: nat) {
    forall m: nat | i < m <= |ops| :: Depth(ops, m) > Depth(ops, i)
  }

  /** The first return to depth `d`. */
  lemma {:induction false} FirstReturn(ops: seq<GroupOp>, n: nat, last: nat, d: int) returns (j: nat)
    requires n <= last <= |ops| && Depth(ops, n) > d >= Depth(ops, last)
    ensures n < j <= last && Depth(ops, j) == d && forall m: nat | n <= m < j :: Depth(ops, m) > d
    decreases last - n
  {
    if Depth(ops, n + 1) == d {
      j := n + 1;
    } else {
      j := FirstReturn(ops, n + 1, last, d);
    }
  }

  /** The child's group ended and deeper ones followed: the verdict misses the end. */
  lemma MisjudgedAfter(ops: seq<GroupOp>, i: nat) returns (j: nat)
    requires i < |ops| && !NeverDeeper(ops, i) && ops[i].End? && Depth(ops, i) >= 1
    ensures i < j <= |ops| && Depth(ops, j) > Depth(ops, i) && GroupEnded(ops, i, j)
  {
    j :| i < j <= |ops| && Depth(ops, j) > Depth(ops, i);
    assert Depth(ops, i + 1) < Depth(ops, i);
  }

  /** A group inside the child's own ended: the verdict takes it for the child's. */
  lemma MisjudgedInside(ops: seq<GroupOp>, i: nat) returns (j: nat)
    requires i < |ops| && !StaysDeeper(ops, i) && ops[i].Begin?
    ensures i < j <= |ops| && Depth(ops, j) == Depth(ops, i) && !GroupEnded(ops, i, j)
  {
    var back: nat :| i < back <= |ops| && Depth(ops, back) <= Depth(ops, i);
    assert Depth(ops, i + 1) > Depth(ops, i);
    j := FirstReturn(ops, i + 1, back, Depth(ops, i));
  }

  lemma RightlyJudged(s: Segment, ops: seq<GroupOp>, i: nat, j: nat)
    requires i <= j <= |ops| && (NeverDeeper(ops, i) || StaysDeeper(ops, i)) && Depth(ops, i) >= 1
    requires GroupVerdict(s, ops, i, j) <==> i < j && Depth(ops, i) >= Depth(ops, j)
    ensures GroupVerdict(s, ops, i, j) <==> GroupEnded(ops, i, j)
  {
    if i < j {
      assert Depth(ops, i + 1) == Depth(ops, i) + if ops[i].Begin? then 1 else -1;
    }
  }

  /** For a child created inside a group, the verdict is right against every later sibling
      exactly when no group is ever nested deeper than its own, or a deeper one is begun at
      once and stays open. */
  lemma VerdictExactness(s: Segment, ops: seq<GroupOp>, i: nat)
    requires s.groupLevel == 0 && Nested(ops) && s.groupId + |ops| < FIELD16
    requires i <= |ops| && Depth(ops, i) >= 1
    ensures (forall j: nat | i <= j <= |ops| :: GroupVerdict(s, ops, i, j) <==> GroupEnded(ops, i, j)) <==>
            NeverDeeper(ops, i) || StaysDeeper(ops, i)
  {
    forall j: nat | i <= j <= |ops| ensures GroupVerdict(s, ops, i, j) <==> i < j && Depth(ops, i) >= Depth(ops, j) {
      VerdictByDepth(s, ops, i, j);
    }
    if NeverDeeper(ops, i) || StaysDeeper(ops, i) {
      forall j: nat | i <= j <= |ops| ensures GroupVerdict(s, ops, i, j) <==> GroupEnded(ops, i, j) {
        RightlyJudged(s, ops, i, j);
      }
    } else {
      var j;
      if ops[i].End? { j := MisjudgedAfter(ops, i); } else { j := MisjudgedInside(ops, i); }
      assert GroupVerdict(s, ops, i, j) != GroupEnded(ops, i, j);
    }
  }

  /** A child created outside any group waits for none, but is judged to as soon as a group
      has begun and ended. */
  lemma OutsideGroups(s: Segment, ops: seq<GroupOp>, i: nat, j: nat)
    requires s.groupLevel == 0 && Nested(ops) && s.groupId + |ops| < FIELD16 && i <= j <= |ops|
    requires Depth(ops, i) == 0
    ensures !GroupEnded(ops, i, j)
    ensures GroupVerdict(s, ops, i, j) <==> i < j && Depth(ops, j) == 0
  {
    VerdictByDepth(s, ops, i, j);
  }

  /** Groups do not nest. */
  ghost predicate OneLevel(ops: seq<GroupOp>) {
    forall n: nat | n <= |ops| :: 0 <= Depth(ops, n) <= 1
  }

  /** Without nesting, the verdict on a child created inside a group is exactly whether
      that group has ended. */
  lemma OneLevelExact(s: Segment, ops: seq<GroupOp>, i: nat, j: nat)
    requires s.groupLevel == 0 && OneLevel(ops) && s.groupId + |ops| < FIELD16 && i <= j <= |ops|
    requires Depth(ops, i) == 1
    ensures GroupVerdict(s, ops, i, j) <==> GroupEnded(ops, i, j)
  {
    VerdictByDepth(s, ops, i, j);
    RightlyJudged(s, ops, i, j);
  }

  lemma OneGroup()
    ensures GroupEnded([Begin, End], 1, 2)
  {
    var ops := [Begin, End];
    assert Depth(ops, 0) == 0;
    assert Depth(ops, 1) == 1;
    assert Depth(ops, 2) == 0;
  }

  /** A group begun and ended inside the child's own makes the verdict wrong. */
  lemma InnerGroupMisleads(s: Segment)
    requires s.groupLevel == 0 && s.groupId + 3 < FIELD16
    ensures var ops := [Begin, Begin, End];
      Nested(ops) && GroupVerdict(s, ops, 1, 3) && !GroupEnded(ops, 1, 3)
  {
    var ops := [Begin, Begin, End];
    assert Depth(ops, 0) == 0;
    assert Depth(ops, 1) == 1;
    assert Depth(ops, 2) == 2;
    assert Depth(ops, 3) == 1;
    VerdictByDepth(s, ops, 1, 3);
  }
}
