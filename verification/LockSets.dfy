/** Lock sets of tasks and access records (LockSet.cpp) and the mutex callbacks that build them. */
module LockSets {
  const CAPACITY: nat := 4

  /** The value of a possibly null lock-set pointer: the ids in the order they were taken. */
  datatype LockSet = NoLocks | Locks(ids: seq<nat>)

  function Ids(s: LockSet): seq<nat> {
    if s.NoLocks? then [] else s.ids
  }

  predicate HasCommonLock(a: seq<nat>, b: seq<nat>) {
    exists x | x in a :: x in b
  }

  lemma CommonMeans(a: seq<nat>, b: seq<nat>)
    ensures HasCommonLock(a, b) <==> (set x | x in a) * (set x | x in b) != {}
  {
    if x :| x in a && x in b { assert x in (set x | x in a) * (set x | x in b); }
  }

  predicate CrossEqual(me: seq<nat>, other: seq<nat>) {
    forall i, j | 0 <= i < |me| && 0 <= j < |other| :: other[j] == me[i]
  }

  /** `isSubset` answers yes only when every lock of one set equals every lock of the other. */
  predicate IsSubset(me: LockSet, other: LockSet) {
    me.NoLocks? ||
    (other.Locks? && |me.ids| <= |other.ids| && CrossEqual(me.ids, other.ids))
  }

  predicate Included(me: seq<nat>, other: seq<nat>) {
    forall x | x in me :: x in other
  }

  lemma SubsetIsIncluded(me: LockSet, other: LockSet)
    requires IsSubset(me, other)
    ensures Included(Ids(me), Ids(other))
  {
    forall x | x in Ids(me) ensures x in Ids(other) {
      assert other.ids[0] == x;
    }
  }

  /** A null set is in every set, and no other set in a null one; otherwise all locks of both
      sets must be one and the same, unless the first is empty. */
  lemma SubsetMeans(me: LockSet, other: LockSet)
    ensures IsSubset(me, other) <==>
      me == NoLocks ||
      (other != NoLocks &&
       (me.ids == [] || (|me.ids| <= |other.ids| && (forall x | x in other.ids + me.ids :: x == me.ids[0]))))
  {
    if me != NoLocks && other != NoLocks && me.ids != [] {
      var all := other.ids + me.ids;
      if IsSubset(me, other) {
        forall i | 0 <= i < |me.ids| ensures me.ids[i] == me.ids[0] { assert other.ids[0] == me.ids[i]; }
        forall j | 0 <= j < |other.ids| ensures other.ids[j] == me.ids[0] {}
      } else if forall x | x in all :: x == me.ids[0] {
        forall i, j | 0 <= i < |me.ids| && 0 <= j < |other.ids| ensures other.ids[j] == me.ids[i] {
          assert other.ids[j] in all && me.ids[i] in all;
        }
      }
    }
  }

  predicate NoDuplicates(s: seq<nat>) {
    forall i, j | 0 <= i < j < |s| :: s[i] != s[j]
  }

  /** On sets without repetitions `isSubset` decides inclusion exactly when the
      first is empty or the second is a singleton. */
  lemma SubsetExactness(me: seq<nat>, other: seq<nat>)
    requires NoDuplicates(me) && NoDuplicates(other) && Included(me, other)
    ensures IsSubset(Locks(me), Locks(other)) <==> me == [] || |other| == 1
  {
    if me != [] {
      assert |me| < 2 || me[0] != me[1];
      assert me[0] in other;
      if |other| == 1 {
        forall i | 0 <= i < |me| ensures me[i] == other[0] {
          assert me[i] in other;
        }
      } else {
        assert other[0] != other[1];
      }
    }
  }

  function IndexOf(s: seq<nat>, x: nat): (i: nat)
    ensures i <= |s| && (i < |s| <==> x in s)
    ensures i < |s| ==> s[i] == x
    ensures forall j | 0 <= j < i :: s[j] != x
  {
    if s == [] || s[0] == x then 0 else 1 + IndexOf(s[1..], x)
  }

  function RemoveFirst(s: seq<nat>, x: nat): seq<nat> {
    var i := IndexOf(s, x);
    if i < |s| then s[..i] + s[i + 1..] else s
  }

  lemma RemoveFirstMultiset(s: seq<nat>, x: nat)
    requires x in s
    ensures multiset(RemoveFirst(s, x)) == multiset(s) - multiset{x}
  {
    var i := IndexOf(s, x);
    assert s == s[..i] + [s[i]] + s[i + 1..];
  }

  /** At most four nested locks, in a fixed array. */
  class SmallLockSet {
    const locks: array<nat>
    var numLocks: nat

    ghost predicate Valid()
      reads this
    {
      locks.Length == CAPACITY && numLocks <= CAPACITY
    }

    ghost function Contents(): seq<nat>
      reads this, locks
      requires Valid()
    {
      locks[..numLocks]
    }

    constructor ()
      ensures Valid() && fresh(locks) && Contents() == []
    {
      locks := new nat[CAPACITY](i => 0);
      numLocks := 0;
    }

    /** A fifth lock aborts the program: the answer is then false and nothing changes. */
    method AddLock(lock: nat) returns (ok: bool)
      requires Valid()
      modifies this`numLocks, locks
      ensures Valid() && ok == (|old(Contents())| < CAPACITY)
      ensures Contents() == if ok then old(Contents()) + [lock] else old(Contents())
    {
      if numLocks == CAPACITY { return false; }
      locks[numLocks] := lock;
      numLocks := numLocks + 1;
      return true;
    }

    method Find(lock: nat) returns (index: nat)
      requires Valid()
      ensures index == IndexOf(Contents(), lock)
    {
      index := 0;
      while index < numLocks && locks[index] != lock
        invariant 0 <= index <= numLocks && forall j | 0 <= j < index :: Contents()[j] != lock
      {
        index := index + 1;
      }
      FirstIndex(Contents(), lock, index);
    }

    /** Removes the first occurrence; an absent lock aborts the program. */
    method RemoveLock(lock: nat) returns (ok: bool)
      requires Valid()
      modifies this`numLocks, locks
      ensures Valid() && ok == (lock in old(Contents()))
      ensures Contents() == RemoveFirst(old(Contents()), lock)
    {
      ghost var before := Contents();
      var index := Find(lock);
      if index == numLocks { return false; }
      var i := index + 1;
      while i < numLocks
        invariant index + 1 <= i <= numLocks == |before|
        invariant forall j | 0 <= j < index :: locks[j] == before[j]
        invariant forall j | index <= j < i - 1 :: locks[j] == before[j + 1]
        invariant forall j | i <= j < numLocks :: locks[j] == before[j]
      {
        locks[i - 1] := locks[i];
        i := i + 1;
      }
      numLocks := numLocks - 1;
      Closed(before, Contents(), index);
      return true;
    }

    method HasCommon(other: SmallLockSet) returns (found: bool)
      requires Valid() && other.Valid()
      ensures found == HasCommonLock(Contents(), other.Contents())
      ensures found <==> (set x | x in Contents()) * (set x | x in other.Contents()) != {}
    {
      for i := 0 to numLocks
        invariant forall k, j | 0 <= k < i && 0 <= j < other.numLocks :: other.locks[j] != locks[k]
      {
        for j := 0 to other.numLocks
          invariant forall l | 0 <= l < j :: other.locks[l] != locks[i]
        {
          if other.locks[j] == locks[i] {
            assert Contents()[i] in Contents() && other.Contents()[j] in other.Contents();
            CommonMeans(Contents(), other.Contents());
            return true;
          }
        }
      }
      CommonMeans(Contents(), other.Contents());
      return false;
    }

    method Clone() returns (c: SmallLockSet)
      requires Valid()
      ensures fresh(c) && fresh(c.locks) && c.Valid() && c.Contents() == Contents()
    {
      c := new SmallLockSet();
      for i := 0 to numLocks
        invariant c.Valid() && fresh(c) && fresh(c.locks) && c.locks[..i] == locks[..i]
      {
        c.locks[i] := locks[i];
      }
      c.numLocks := numLocks;
    }
  }

  /** Closing the gap at `i`. */
  lemma Closed(s: seq<nat>, s': seq<nat>, i: nat)
    requires i < |s| == |s'| + 1 && forall j | 0 <= j < i :: s'[j] == s[j]
    requires forall j | i <= j < |s'| :: s'[j] == s[j + 1]
    ensures s' == s[..i] + s[i + 1..]
  {
  }

  lemma FirstIndex(s: seq<nat>, x: nat, i: nat)
    requires i <= |s| && (i < |s| ==> s[i] == x) && forall j | 0 <= j < i :: s[j] != x
    ensures IndexOf(s, x) == i
  {
    var k := IndexOf(s, x);
    assert k < |s| ==> s[k] == x;
  }

  ghost function View(s: SmallLockSet?): LockSet
    reads s, if s == null then {} else {s.locks}
    requires s != null ==> s.Valid()
  {
    if s == null then NoLocks else Locks(s.Contents())
  }

  method IsSubsetOf(me: SmallLockSet?, other: SmallLockSet?) returns (r: bool)
    requires (me != null ==> me.Valid()) && (other != null ==> other.Valid())
    ensures r == IsSubset(View(me), View(other))
  {
    if me == null { return true; }
    if other == null { return false; }
    if other.numLocks < me.numLocks { return false; }
    for i := 0 to me.numLocks
      invariant forall k, j | 0 <= k < i && 0 <= j < other.numLocks :: other.locks[j] == me.locks[k]
    {
      for j := 0 to other.numLocks
        invariant forall l | 0 <= l < j :: other.locks[l] == me.locks[i]
      {
        if other.locks[j] != me.locks[i] {
          assert other.Contents()[j] != me.Contents()[i];
          return false;
        }
      }
    }
    return true;
  }

  // The mutex callbacks: a task's lock set is cloned before each change.

  datatype MutexEvent = Acquired(id: nat) | Released(id: nat)

  /** The lock set after an event, or nothing where the program aborts. */
  datatype Outcome = Aborted | Now(locks: LockSet)

  function AfterEvent(s: LockSet, e: MutexEvent): Outcome {
    match e
    case Acquired(id) => if |Ids(s)| < CAPACITY then Now(Locks(Ids(s) + [id])) else Aborted
    case Released(id) => if s.Locks? && id in s.ids then Now(Locks(RemoveFirst(s.ids, id))) else Aborted
  }

  function AfterEvents(es: seq<MutexEvent>): Outcome {
    if es == [] then Now(NoLocks)
    else
      var n := |es| - 1;
      match AfterEvents(es[..n])
      case Aborted => Aborted
      case Now(s) => AfterEvent(s, es[n])
  }

  /** The locks held after a run of events, as a multiset. */
  function Held(es: seq<MutexEvent>): multiset<nat> {
    if es == [] then multiset{}
    else
      var n := |es| - 1;
      match es[n]
      case Acquired(id) => Held(es[..n]) + multiset{id}
      case Released(id) => Held(es[..n]) - multiset{id}
  }

  /** Every release is of a held lock and at most four locks are held at a time. */
  predicate WellNested(es: seq<MutexEvent>) {
    es == [] ||
    (var n := |es| - 1;
     && WellNested(es[..n])
     && match es[n]
        case Acquired(_) => |Held(es[..n])| < CAPACITY
        case Released(id) => id in Held(es[..n]))
  }

  /** The recorded lock set is the multiset of held locks, and the program runs on
      exactly as long as the events are well nested. */
  lemma {:induction false} LockSetIsHeld(es: seq<MutexEvent>)
    ensures AfterEvents(es).Now? <==> WellNested(es)
    ensures WellNested(es) ==> multiset(Ids(AfterEvents(es).locks)) == Held(es)
  {
    if es != [] {
      var n := |es| - 1;
      LockSetIsHeld(es[..n]);
      if WellNested(es[..n]) {
        var s := AfterEvents(es[..n]).locks;
        assert |Held(es[..n])| == |Ids(s)|;
        match es[n] {
          case Acquired(id) =>
          case Released(id) =>
            assert id in Held(es[..n]) <==> id in Ids(s);
            if id in Ids(s) { RemoveFirstMultiset(Ids(s), id); }
        }
      }
    }
  }

  /** Four locks fit, a fifth aborts, and releasing one that is not held does. */
  lemma AcquireThenRelease(s: LockSet, id: nat)
    ensures AfterEvent(s, Acquired(id)) == (if |Ids(s)| < 4 then Now(Locks(Ids(s) + [id])) else Aborted)
    ensures AfterEvent(s, Released(id)).Now? <==> id in Ids(s)
    ensures |Ids(s)| < 4 && id !in Ids(s) ==>
      AfterEvent(AfterEvent(s, Acquired(id)).locks, Released(id)) == Now(Locks(Ids(s)))
  {
    if |Ids(s)| < 4 && id !in Ids(s) {
      var l := Ids(s) + [id];
      FirstIndex(l, id, |Ids(s)|);
      assert l[..|Ids(s)|] == Ids(s) && l[|Ids(s)| + 1..] == [];
      assert RemoveFirst(l, id) == Ids(s);
    }
  }

  class TaskLocks {
    var lockSet: SmallLockSet?

    ghost predicate Valid()
      reads this, lockSet
    {
      lockSet != null ==> lockSet.Valid()
    }

    constructor ()
      ensures Valid() && lockSet == null
    {
      lockSet := null;
    }

    /** No existing lock set is written: records keep what they hold. */
    method OnMutex(e: MutexEvent) returns (ok: bool)
      requires Valid()
      modifies this
      ensures Valid() && ok == AfterEvent(old(View(lockSet)), e).Now?
      ensures ok ==> lockSet != null && fresh(lockSet) && fresh(lockSet.locks)
      ensures ok ==> View(lockSet) == AfterEvent(old(View(lockSet)), e).locks
    {
      match e {
        case Acquired(id) =>
          var s: SmallLockSet;
          if lockSet == null {
            s := new SmallLockSet();
          } else {
            s := lockSet.Clone();
          }
          ok := s.AddLock(id);
          if ok { lockSet := s; }
        case Released(id) =>
          if lockSet == null { return false; }
          var s := lockSet.Clone();
          ok := s.RemoveLock(id);
          if ok { lockSet := s; }
      }
    }
  }

  /** The snapshots hold what the events so far make of the lock set. */
  ghost predicate Recorded(es: seq<MutexEvent>, snapshots: seq<SmallLockSet?>, n: nat)
    reads set i | 0 <= i < |snapshots| :: snapshots[i]
    reads set i | 0 <= i < |snapshots| && snapshots[i] != null :: snapshots[i].locks
    requires n <= |es|
  {
    |snapshots| == n + 1 &&
    forall i | 0 <= i < |snapshots| ::
      && (snapshots[i] != null ==> snapshots[i].Valid())
      && AfterEvents(es[..i]) == Now(View(snapshots[i]))
  }

  /** Over a whole run, the lock set seen after each event keeps its contents for good. */
  method RecordRun(es: seq<MutexEvent>) returns (ok: bool, snapshots: seq<SmallLockSet?>)
    ensures ok == WellNested(es)
    ensures ok ==> Recorded(es, snapshots, |es|)
  {
    var task := new TaskLocks();
    snapshots := [task.lockSet];
    ok := true;
    var i := 0;
    while i < |es| && ok
      invariant i <= |es| && task.Valid() && fresh(task)
      invariant ok ==> Recorded(es, snapshots, i) && task.lockSet == snapshots[i]
      invariant !ok ==> !WellNested(es)
      decreases |es| - i
    {
      ok := RecordStep(es, i, task, snapshots);
      snapshots := snapshots + [task.lockSet];
      i := i + 1;
    }
    assert es[..|es|] == es;
    LockSetIsHeld(es);
  }

  lemma {:induction false} StaysAborted(es: seq<MutexEvent>, k: nat)
    requires k <= |es| && !WellNested(es[..k])
    ensures !WellNested(es)
  {
    if k == |es| {
      assert es[..k] == es;
    } else {
      assert es[..|es| - 1][..k] == es[..k];
      StaysAborted(es[..|es| - 1], k);
    }
  }

  method RecordStep(es: seq<MutexEvent>, i: nat, task: TaskLocks, snapshots: seq<SmallLockSet?>) returns (ok: bool)
    requires i < |es| && task.Valid() && Recorded(es, snapshots, i) && task.lockSet == snapshots[i]
    modifies task
    ensures task.Valid()
    ensures ok ==> Recorded(es, snapshots + [task.lockSet], i + 1)
    ensures !ok ==> !WellNested(es)
  {
    ok := task.OnMutex(es[i]);
    assert es[..i + 1][..i] == es[..i];
    if !ok {
      LockSetIsHeld(es[..i + 1]);
      StaysAborted(es, i + 1);
    }
  }
}
