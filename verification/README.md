# A verified model of ROMP's runtime library

ROMP is an on-the-fly data race detector for OpenMP programs. Every task carries a
label, a sequence of segments that runtime events rewrite; two accesses to a location
race when they conflict, share no lock and neither label precedes the other. The
Dafny project models the runtime library's algorithms and proves what they are for.

| file | what it models |
|---|---|
| `EventGraph.dfy`, `EventVerdict.dfy` | the event graph of a run, reachability, the verdict a comparison ought to give |
| `Segments.dfy`, `Core.dfy`, `Labels.dfy` | segments, the ordering verdict and the label transitions, on values |
| `PackedSegments.dfy`, `LabelObjects.dfy` | the same as the program holds them: packed words written in place, labels that share segment objects |
| `VerdictShapes.dfy`, `WorkSharing.dfy` | the verdict told from the shape of two labels; loops, sections and single constructs |
| `OffsetSpan.dfy`, `ForkJoin.dfy`, `RegionRuns.dfy` | nested parallel regions with barriers: the verdict is reachability |
| `TaskGroups.dfy`, `TaskSync.dfy`, `TaskVerdicts.dfy`, `TeamTasks.dfy` | the group counters; one member's explicit tasks with taskwait and taskgroup, what they make reachable, and when the verdict says so; whole teams of such members over any number of barriers |
| `LockSets.dfy`, `AccessHistories.dfy`, `Detector.dfy`, `LostRace.dfy` | lock sets, the pruned access history, the whole detector against the event graph, and a race it loses |
| `McsLock.dfy`, `McsCalls.dfy`, `LockOrder.dfy`, `GuardedLocks.dfy` | the queue lock as atomic steps of any number of threads, what its calls come to, the nesting of lock guards, and many locks under nested guards |
| `AddressSplit.dfy`, `PageTable.dfy` | the split of an address and the lock-free two-level page table |
| `TaskDepGraphs.dfy` | task dependences: edge insertion and path search |
| `Arithmetic.dfy` | uniqueness of quotients and remainders |

Concurrent and event-driven parts are state machines: a `State`, the `Action`s of the
threads or of the runtime, `Enabled`, `Apply`, and `Run`, which relates a sequence of
actions to the state after it. Objects whose methods update their fields are classes,
and each method is proved against a function on values; the theorems are about
those functions. Branches that end the program (a FATAL log, a failed check) are
answers of their own (`Fatal`, `Aborted`, `Nothing`, `ok == false`), so that the
theorems also say that they are not reached.

The main theorems:

* `ForkJoin.VerdictIsReachability`: in every run of nested parallel regions with
  barriers the label verdict on two accesses is reachability in the event graph, and no
  comparison aborts.
* `AccessHistories.PruningLosesNothing` and `Detector.DetectorIsExact`: the pruned history
  flags a location exactly when two of its accesses race in the event graph, if early
  exits leave no wrong verdict behind. `DetectorIsExactIfHarmless` and
  `DetectorIsExactUnshared` tell from the accesses alone when they do not, and
  `AccessHistories.LeftoverExactness` says exactly when a wrong one loses a race.
* `TaskSync.SyncIsReachability`: taskwaits and taskgroups order exactly what they should in the
  event graph; `TaskVerdicts.TaskwaitIsExact`, `ParentAfterGroup`, `SiblingAfterGroup` and
  `TaskGroups.VerdictExactness`: exactly when the label verdict agrees.
* `TeamTasks.TeamExactness`: for teams of such members over any number of barriers the
  verdict is right between members and across barriers, and within one member's epoch
  exactly when the theorems above say so.
* `VerdictShapes.MembersPart`, `TaskParts` and `IterationsPart`: the verdict on labels of any
  length, from where they part and what follows.
* `McsLock.MutualExclusion`, `FifoService`, `NodeLifetime` and `WaitIsBounded`,
  `McsCalls.LockJoins`, `WaiterIsServed` and `UnlockReturns`, and
  `GuardedLocks.GuardsNeverDeadlock` for many locks under nested guards.
* `PageTable.LookupsAgree`, `PagesAreConserved` and `LookupEnds`, for every interleaving.
* `TaskDepGraphs.EdgesByKind`, `StrictOrder` and `AnswerAll`.
* `LabelObjects.RunTransitions`: recorded labels are stable although their segments are shared.

## Where the code departs from its comments or from OpenMP

The model follows the code. Each departure is proved with its exact extent.

* A wrapped offset. A label is ordered before what its barrier makes of it exactly when the
  new offset fits 16 bits (`OffsetSpan.BarrierOrdersIffFits`); the step `Release` of
  `ForkJoin` asks for that and for nothing else of the offsets.
* Stale out-parameters. `analyzeRaceCondition` returns early without writing
  `isHistBeforeCur` and `diffIndex`, so a record can be deleted, or the access skipped, on
  the verdict of an earlier record. `LostRace.StaleVerdictLosesRace` and `LostRaceIsReal` give
  a run in which a race is lost that way: a member reads without a lock before a
  barrier; after it both members write under one lock, and one then writes without it.
  `AccessHistories.LeftoverExactness` says, for every history, access and later label, when
  no race of the accesses that follow is lost: if and only if each record or access dropped on
  a leftover, and unordered with that label, is dominated by one that is kept, as far as kind
  and locks go. What is dropped is told from the records and the access before the scan.
  `ProbeExactness` is the case of the task's own next write without locks, and
  `HarmlessRun` and `UnsharedRun` name whole runs in which nothing can go wrong.
* `isSubset` answers yes only if all locks of both sets are equal. It implies inclusion;
  the converse holds exactly for an empty first or singleton second set (`SubsetExactness`).
* A parent's access is judged before every later access of its children, also of children it
  had created before. `TaskVerdicts.ParentVerdictExactness` says exactly when that is right.
* In a team of one, two different segments of the task abort the program
  (`TaskVerdicts.SpanOneAborts`); the theorems on explicit tasks therefore take a span of at
  least two.
* Nested taskgroups: the counters are one per task, so the verdict can be wrong both ways;
  `TaskGroups.VerdictExactness` says exactly when it is right for all later siblings, and
  `InnerGroupMisleads` is the smallest wrong case. A child created outside any group is taken
  to be awaited as soon as a group has come and gone (`OutsideGroups`, `SiblingAfterGroup`).
* The mark a taskgroup's end puts on its children lands on the segment shared with the
  parent, because a completed child has lost its own (`TaskVerdicts.GroupMarkMissesChild`, in
  every run). So a child's access is judged rightly against a later one of its parent exactly
  when a taskwait has ended in between or no group that holds the child has
  (`ParentAfterGroup`); `ParentMisjudgedAfterGroup` is the smallest run where it is not.
* `addDeps` appends nothing once a variable is known: only the first task that names it is
  ever compared with (`TaskDepGraphs.DepsAreFirsts`, `SecondTaskIsForgotten`). `EdgesExact`
  states the edges that are inserted.
* The phase setters mask with the field's own mask, which keeps the old half and ors the new
  value into it (`SegmentObject.SetTaskwaitPhase`), and place-holder and section marks share
  bit 2 (`flag2`).

## Model

| member | source | states |
|---|---|---|
| Core.CompareFrom | RompLib/src/Label.cpp:76-95 | the answer is the first index at which the labels differ, or the code that says same, left prefix or right prefix, and everything before it agrees |
| Core.SyncChainMeaning | RompLib/src/Core.cpp:340-366 | the chain holds iff every explicit task from the start on was waited for, or is at or below one whose descendants are all awaited |
| LabelObjects.AnalyzeSyncChain | RompLib/src/Core.cpp:340-366 | the loop over shared segments computes that predicate |
| VerdictShapes.SameMeans | RompLib/src/Segment.cpp:286-293 | two segments are the same to the comparison iff all fields of the packed word agree and, for work-share segments, the ids |
| VerdictShapes.SameSegments | RompLib/src/Core.cpp:98-106 | a label that is the same as far as it goes is ordered before the longer one |
| VerdictShapes.LongerAborts | RompLib/src/Core.cpp:107-110 | the other way round the comparison aborts |
| VerdictShapes.MembersPart | RompLib/src/Core.cpp:154-225 | labels that part at implicit segments of one team, whatever follows: equal residues are ordered by offset, different ones concurrent unless both are in iterations of one loop whose ordered sections decide |
| VerdictShapes.TaskParts | RompLib/src/Core.cpp:381-563 | labels of any length that part at segments of one task: its own access is ordered; a descendant's by waits, groups, marks and the chain of waited tasks below |
| VerdictShapes.IterationsPart | RompLib/src/Core.cpp:232-330 | labels that part at work-share segments: concurrent, unless none is a place-holder and the one has left fewer ordered sections than the other has entered |
| VerdictShapes.DifferentIds | RompLib/src/Segment.cpp:286-293 | labels part where work-share ids differ |
| VerdictShapes.AlonePart | RompLib/src/Core.cpp:124-137 | a task alone in its team is ordered by growing offsets and aborts otherwise |
| VerdictShapes.StrangersAbort | RompLib/src/Core.cpp:121-128 | different spans, or different types at span one, abort |
| WorkSharing.LoopCounts | RompLib/src/Label.cpp:202-225 | a whole loop with any number of dispatches leaves the label with one more loop counted |
| WorkSharing.WorkLabels | RompLib/src/Label.cpp:202-310 | the segments a member's label gains at a loop's begin, in an iteration or section and in a single construct; the end of a single construct undoes its begin |
| WorkSharing.OrderedPhases | RompLib/src/Label.cpp:187-196 | an ordered section counts two phases |
| WorkSharing.OwnIterations | RompLib/src/Core.cpp:232-264 | two iterations or sections of one member are concurrent, one is ordered with itself |
| WorkSharing.MembersShareWork | RompLib/src/Core.cpp:191-225 | outside ordered sections two members are concurrent wherever in work sharing they are |
| WorkSharing.OrderedIterations | RompLib/src/Core.cpp:232-264 | iterations of one loop on two members are ordered iff the first has left fewer ordered sections than the second has entered |
| WorkSharing.AfterOwnLoop | RompLib/src/Core.cpp:425-441 | without a barrier a member's own access after a loop is judged concurrent with its iterations, and ordered after its sections |
| WorkSharing.ExecutorAgain | RompLib/src/Core.cpp:138-143 | an executor's accesses in single constructs are ordered |
| OffsetSpan.JudgeIsHappensBefore | RompLib/src/Core.cpp:98-225 | on labels of implicit segments the program's verdict, aborts included, is a recursion over the two labels |
| OffsetSpan.JudgeBarrier | RompLib/src/Label.cpp:153-164 | an earlier label is ordered before what follows a barrier iff it is ordered before some member of the team, and is concurrent with it otherwise |
| OffsetSpan.AdvancedIsNew | RompLib/src/Label.cpp:153-164 | the prefix a barrier produces is no prefix of any label recorded before |
| OffsetSpan.JudgeExtend | RompLib/src/Label.cpp:97-109 | a fork changes no verdict against earlier labels |
| OffsetSpan.JudgeSiblings | RompLib/src/Label.cpp:97-109 | members of one team with different residues are concurrent |
| OffsetSpan.JudgeDropLast | RompLib/src/Label.cpp:128-132 | a join changes no verdict for labels outside the team's prefix |
| OffsetSpan.ConcurrentSymmetric | RompLib/src/Core.cpp:98-225 | concurrency of two labels does not depend on which is the earlier |
| OffsetSpan.BarrierOrdersIffFits | RompLib/src/Core.cpp:121-171 | a label is judged before what its barrier makes of it iff the new offset fits its 16-bit field |
| ForkJoin.VerdictIsReachability | RompLib/src/Core.cpp:98-225 | in every run, for accesses h before c, the verdict is ordered iff c is reachable from h through program order, fork, barrier and join edges, and concurrent otherwise; it never aborts |
| ForkJoin.RunInv | RompLib/src/Callbacks.cpp:19-91 | what every state of every run satisfies: team shapes, pairwise concurrent live tasks, right verdicts on past and next accesses |
| ForkJoin.StepInv | RompLib/src/Callbacks.cpp:59-90 | each callback and each completed barrier keeps that invariant |
| ForkJoin.EnabledStepsRun | RompLib/src/Callbacks.cpp:152-207 | every enabled step continues a run, so the theorem leaves out no interleaving |
| ForkJoin.SameLabelIsEqual | RompLib/src/Label.cpp:76-95 | recorded labels the program calls the same are equal values |
| RegionRuns.WholeRegion | RompLib/src/Callbacks.cpp:19-91 | a whole region, up to an access of the parent after the join, which a member's access reaches |
| RegionRuns.NestedRegion | RompLib/src/Callbacks.cpp:59-72 | a run in which a member forks a region of its own |
| TaskSync.SyncIsReachability | RompLib/src/Callbacks.cpp:152-207 | in every run a child's access reaches a later access of its parent or a sibling iff a taskwait, or a group that holds the child, has ended before it or before the sibling's creation; a parent's access reaches all later ones but those of children it had created |
| TaskSync.RunInv | RompLib/src/Callbacks.cpp:446-506 | creation, completion, taskwait and taskgroup keep what is reachable tied to the waits and groups that have ended |
| TaskSync.EnabledStepsRun | RompLib/src/Callbacks.cpp:106-150 | every enabled step continues a run |
| TaskSync.EndsForHeld | RompLib/src/Callbacks.cpp:123-150 | a group's end ends the group of exactly those children that were created in it |
| TaskVerdicts.TaskwaitIsExact | RompLib/src/Core.cpp:381-454 | with no group begun or ended since the child's creation, its access is judged before a later access of its parent or a sibling iff the event graph orders them, which is iff a taskwait of the parent ended in between; no abort |
| TaskVerdicts.ChildExactness | RompLib/src/Core.cpp:381-563 | any two accesses of a child and another actor are judged rightly iff a taskwait has ended in between or the group counters tell of the child's group what is so |
| TaskVerdicts.ParentAfterGroup | RompLib/src/Core.cpp:398-425 | a child's access is judged rightly against a later one of its parent iff a taskwait has ended in between or no group that holds the child has |
| TaskVerdicts.SiblingAfterGroup | RompLib/src/Core.cpp:542-581 | against a sibling: rightly if groups have not nested deeper since; for a child outside any group, iff a taskwait has ended, no group was touched in between, or the sibling is inside one |
| TaskVerdicts.ParentVerdictExactness | RompLib/src/Core.cpp:381-391 | the parent's access is always judged before later ones, which is right iff the later one is the parent's or of a child created afterwards |
| TaskVerdicts.PairVerdict | RompLib/src/Core.cpp:98-176 | the verdict on any two accesses of a run, from the waits and groups they were made at; it never aborts |
| TaskVerdicts.SiblingVerdict | RompLib/src/Core.cpp:381-563 | the verdict on two labels that part at segments of one implicit task |
| TaskVerdicts.SpanOneAborts | RompLib/src/Core.cpp:124-137 | with a span of one, any two such labels abort |
| TaskVerdicts.StepKeepsSegments | RompLib/src/Callbacks.cpp:106-150 | in every run a step writes nothing in an existing segment but the two marks and the recorded phase, and nothing in a child's own segment |
| TaskVerdicts.ParentTransition | RompLib/src/Label.cpp:138-357 | each step of a run makes of the implicit task's label what the transition of that event makes of it |
| TaskVerdicts.ChildTransition | RompLib/src/Label.cpp:121-126 | a new child's label is the parent's with an explicit segment, a completed one's has lost it |
| TaskVerdicts.AccessLabel | RompLib/src/RompLib.cpp:166-180 | an access is recorded with the label its task has |
| TaskVerdicts.TaskwaitMarks | RompLib/src/Callbacks.cpp:106-117 | in every run a taskwait's end marks the segment each listed child shares with its parent, records the phase there, and empties the list |
| TaskVerdicts.PairVerdictRemarked | RompLib/src/Callbacks.cpp:106-150 | marks and phases written later change no verdict |
| TaskVerdicts.ParentAfterTaskwait | RompLib/src/Core.cpp:398-425 | a run in which a taskwait orders a child's access before its parent's, and the verdict says so |
| TeamTasks.RunInv | RompLib/src/Callbacks.cpp:152-207 | in every run of a team each member's course is embedded in one event graph, courses are apart, and each barrier is after every access before it |
| TeamTasks.EnabledStepsRun | RompLib/src/Callbacks.cpp:446-506 | every enabled step of a member, and every barrier all tasks allow, continues a run |
| TeamTasks.TeamReachability | RompLib/src/Callbacks.cpp:152-207 | an access reaches a later one iff a barrier is between them or they are of one member whose course relates them |
| TeamTasks.TeamVerdict | RompLib/src/Core.cpp:98-225 | implicit and explicit tasks of a team: across a barrier ordered, between members concurrent, within a member's epoch as for one member; it never aborts |
| TeamTasks.TeamExactness | RompLib/src/Core.cpp:98-225 | between members and across barriers the verdict is what the event graph says; within a member's epoch it is iff that of the member's own course is |
| TeamTasks.BarrierIsTransition | RompLib/src/Label.cpp:153-164 | a barrier makes of each member's label what its transition makes of it |
| TeamTasks.TeamMeets | RompLib/src/Label.cpp:153-164 | a team with nothing to wait for meets at a barrier, and every label shows it |
| TeamTasks.TasksOfMembersRace | RompLib/src/Core.cpp:191-225 | a run in which tasks of two members access one location: concurrent, and judged so |
| TaskVerdicts.GroupMarkMissesChild | RompLib/src/Callbacks.cpp:123-150 | in every run a group's end marks the segment a completed child shares with its parent and takes the child off the list; the child's own segment stays unmarked |
| TaskVerdicts.GroupSparesOthers | RompLib/src/Callbacks.cpp:123-150 | in every run children still running or of another group id are neither marked nor taken off the list |
| TaskVerdicts.ParentMisjudgedAfterGroup | RompLib/src/Core.cpp:398-425 | a run in which a group orders a child's access before its parent's and the verdict is concurrent |
| TaskGroups.Counters | RompLib/src/Label.cpp:325-357 | the group id counts begins and ends, the level the open groups |
| TaskGroups.VerdictByDepth | RompLib/src/Core.cpp:572-581 | the verdict compares nesting depths, in the order of the operations |
| TaskGroups.VerdictExactness | RompLib/src/Core.cpp:572-581 | for a child created inside a group, the verdict against every later sibling is whether that group has ended, iff no group nests deeper afterwards or a deeper one is begun at once and stays open |
| TaskGroups.OneLevelExact | RompLib/src/Core.cpp:572-581 | without nesting, the verdict is exactly that the group ended before the sibling was created |
| TaskGroups.OutsideGroups | RompLib/src/Core.cpp:572-581 | a child outside any group is held by none, but taken to be awaited iff a group was touched since and the sibling is outside too |
| TaskGroups.InnerGroupMisleads | RompLib/src/Core.cpp:572-581 | a group begun and ended inside the child's own makes the verdict wrong |
| LockSets.SmallLockSet.constructor | RompLib/src/LockSet.cpp:9-14 | a new set is empty |
| LockSets.SmallLockSet.AddLock | RompLib/src/LockSet.cpp:32-38 | appends, or refuses a fifth lock and changes nothing |
| LockSets.SmallLockSet.RemoveLock | RompLib/src/LockSet.cpp:64-79 | removes the first occurrence and keeps the order, or reports an absent lock |
| LockSets.SmallLockSet.HasCommon | RompLib/src/LockSet.cpp:45-58 | true iff the two sets of locks intersect |
| LockSets.SmallLockSet.Clone | RompLib/src/LockSet.cpp:112-114 | a new set with the same contents |
| LockSets.IsSubsetOf | RompLib/src/LockSet.cpp:87-110 | the loops decide `IsSubset`, null pointers included |
| LockSets.SubsetIsIncluded | RompLib/src/LockSet.cpp:87-110 | a yes implies inclusion |
| LockSets.SubsetMeans | RompLib/src/LockSet.cpp:87-110 | a null set is in every set and contains only itself; otherwise yes iff the first is empty, or not longer and all locks of both are one |
| LockSets.SubsetExactness | RompLib/src/LockSet.cpp:100-108 | between included sets the answer is yes iff the first is empty or the second a singleton |
| LockSets.RemoveFirstMultiset | RompLib/src/LockSet.cpp:64-79 | removal takes one occurrence out of the multiset |
| LockSets.LockSetIsHeld | RompLib/src/Callbacks.cpp:209-268 | after any run of acquisitions and releases the lock set is the multiset of held locks, and the program runs on iff releases are of held locks and at most four are held |
| LockSets.AcquireThenRelease | RompLib/src/LockSet.cpp:32-79 | four locks fit and a fifth aborts; releasing an absent lock aborts; acquiring a lock and releasing it restores the set |
| LockSets.TaskLocks.OnMutex | RompLib/src/Callbacks.cpp:223-264 | the callback installs a fresh set and writes no existing one |
| LockSets.RecordRun | RompLib/src/Callbacks.cpp:223-264 | over a whole run, every lock set seen so far keeps the contents it had |
| AccessHistories.AccessHistory.CheckDataRace | RompLib/src/RompLib.cpp:30-107 | the loop that erases, flags and appends in place does what the specification `Check` says of the history |
| AccessHistories.JudgeRecord | RompLib/src/Core.cpp:28-65 | one turn of the loop: verdict, decision and the out-parameters left for the next record |
| AccessHistories.ScanEffect | RompLib/src/Core.cpp:693-726 | a scan flags a race iff a record races with the access; each erased record is dominated by it, and it is skipped only for a record with the same label that dominates it |
| AccessHistories.DeletedIsDominated | RompLib/src/Core.cpp:693-710 | whatever races with a deleted record races with the access that deleted it |
| AccessHistories.SkippedIsDominated | RompLib/src/Core.cpp:693-710 | whatever races with a skipped access races with the record it was skipped for |
| AccessHistories.CheckIsFaithful | RompLib/src/RompLib.cpp:65-106 | one access keeps the pruned history as good as the full one |
| AccessHistories.PruningLosesNothing | RompLib/src/RompLib.cpp:65-106 | with a transitive order, interchangeable equal labels and no scan that meets a wrong leftover (`OwnVerdicts`): after any number of accesses the race flag is set iff a history that keeps every record has found a race |
| AccessHistories.NoExitNoLeftover | RompLib/src/Core.cpp:32-40 | one scan: with no common lock and no reduction no verdict is left over |
| AccessHistories.HarmlessRun | RompLib/src/Core.cpp:32-40 | whole runs: if each pair that shares a lock or meets in a reduction is harmless in itself, no scan meets a wrong leftover |
| AccessHistories.UnsharedRun | RompLib/src/Core.cpp:32-40 | so too if no two accesses share a lock and none is in a reduction |
| AccessHistories.DecisionAt | RompLib/src/Core.cpp:28-65 | the out-parameters at each record are those of the last one compared, and the decision they lead to |
| AccessHistories.CheckKeeps | RompLib/src/RompLib.cpp:65-106 | an access is reported iff it races with a record, and the list afterwards holds exactly what was not deleted and the access unless skipped, leftovers included |
| AccessHistories.LeftoverExactness | RompLib/src/Core.cpp:32-40 | after a scan all races of later accesses with a given label, of any kind and under any locks, are still found iff each record or access dropped on a leftover and unordered with that label is dominated by one kept |
| AccessHistories.RunOrderFor | RompLib/src/Core.cpp:693-710 | on a transitive order with interchangeable labels that theorem applies to every two accesses of a run |
| AccessHistories.ProbeVerdict | RompLib/src/Core.cpp:32-64 | the task's next write without locks is reported iff a record unordered with it is still in the list |
| AccessHistories.ProbeExactness | RompLib/src/Core.cpp:32-40 | that report is right iff there is no record unordered with the access before it, or one such that is not deleted on a leftover verdict |
| AccessHistories.OrderedIsDeleted | RompLib/src/Core.cpp:693-726 | an access without locks removes each lock-free record ordered before it that is not a write where it is a read |
| AccessHistories.WriteClears | RompLib/src/Core.cpp:693-726 | a write ordered after every record leaves only itself |
| AccessHistories.SameLabelKeepsOne | RompLib/src/Core.cpp:693-710 | of two lock-free accesses with one label one is kept, the write if there is one |
| AccessHistories.SameLabelUnderLocks | RompLib/src/Core.cpp:693-710 | an access under locks is skipped for a lock-free record with its label, unless it writes where that one reads |
| AccessHistories.ConcurrentReadsStay | RompLib/src/Core.cpp:693-710 | unordered reads with different labels are both kept |
| AccessHistories.FoundForGood | RompLib/src/RompLib.cpp:43-55 | a location once flagged stays flagged, and its records are dropped |
| AccessHistories.RecycledForgets | RompLib/src/RompLib.cpp:56-64 | after recycling, nothing before the second access from then is left |
| AccessHistories.IgnoredIsUnseen | RompLib/src/RompLib.cpp:34-41 | accesses under hardware locks or to thread-private data leave no trace |
| Detector.OrderIsReachability | RompLib/src/Core.cpp:41-43 | the order the history uses is reachability in the event graph of the run |
| Detector.OrderIsTransitive | RompLib/src/Core.cpp:98-176 | on the accesses of a run the verdict is transitive |
| Detector.SameTagSameOrder | RompLib/src/Label.cpp:76-95 | accesses with the same label are interchangeable |
| Detector.LabelOrderReadsTags | RompLib/src/Core.cpp:98-107 | the verdict reads labels only and orders a label with itself |
| Detector.DetectorIsExact | RompLib/src/RompLib.cpp:30-107 | if no scan meets a wrong leftover (`OwnVerdicts`), a location is flagged iff two of its accesses conflict, hold no common lock and are not connected in the event graph |
| Detector.DetectorIsExactIfHarmless | RompLib/src/RompLib.cpp:30-107 | the same, if each pair of its accesses that shares a lock or meets in a reduction is harmless in itself |
| Detector.DetectorIsExactUnshared | RompLib/src/RompLib.cpp:30-107 | the same, if no two of its accesses share a lock and none is in a reduction |
| Detector.LeftoverExactnessOfRuns | RompLib/src/Core.cpp:32-40 | in every run with no race found so far, the races of the accesses that follow are still found iff what was dropped on a leftover is covered |
| LostRace.StaleVerdictLosesRace | RompLib/src/Core.cpp:32-40 | four accesses on which a verdict left over makes the detector lose a race |
| LostRace.LostRaceIsReal | RompLib/src/Core.cpp:32-40 | a run of one region of two members with a barrier makes those accesses, none of them the initial task's, and the lost race is one of its event graph |
| McsLock.MutualExclusion | RompLib/src/McsLock.cpp:76-185 | in every interleaving at most one thread is between acquire and release |
| McsLock.FifoService | RompLib/src/McsLock.cpp:91-117 | the lock is granted in the order of the tail exchanges; those not granted are the waiters in queue order |
| McsLock.QueueChange | RompLib/src/McsLock.cpp:91-117 | a step appends one thread that was not queued, removes the head, or leaves the queue alone |
| McsLock.PositionNeverGrows | RompLib/src/McsLock.cpp:149-184 | a queued thread never moves back |
| McsLock.HelperHelps | RompLib/src/McsLock.cpp:149-184 | while a thread waits, the head is in its section or a step that does not spin is enabled, and it brings the waiter closer |
| McsLock.NoLostHandOff | RompLib/src/McsLock.cpp:149-184 | those steps lead the waiter into its section |
| McsCalls.LockJoins | RompLib/src/McsLock.cpp:76-117 | whatever others do, a lock call joins the end of the queue with its second step, and enters at once iff the tail was null then |
| McsCalls.TryEnters | RompLib/src/McsLock.cpp:122-143 | a trylock call enters iff the tail is null at its second step, and otherwise leaves the lock as it was |
| McsCalls.WaiterIsServed | RompLib/src/McsLock.cpp:76-117 | from every reachable state every thread inside a lock call can still get the lock |
| McsCalls.UnlockReturns | RompLib/src/McsLock.cpp:146-185 | from every reachable state every thread inside an unlock call can still return |
| McsCalls.LockAndUnlock | RompLib/include/McsLock.h:120-131 | from every reachable state a thread in no call can take the lock and give it back |
| McsCalls.TryReturns | RompLib/src/McsLock.cpp:122-143 | a trylock call returns after two steps of its own |
| McsLock.NoStepSetsBack | RompLib/src/McsLock.cpp:76-185 | whatever step whoever makes, a thread that goes on waiting is no farther from the lock, and closer if it was the helper's |
| McsLock.WaitIsBounded | RompLib/src/McsLock.cpp:76-185 | under every schedule a thread waits through no more steps of the helper than its distance |
| McsLock.NodeLifetime | RompLib/include/McsLock.h:120-131 | when an unlock has returned, no tail, link or pending store refers to the node it used |
| McsLock.StoresHitLiveNodes | RompLib/src/McsLock.cpp:149-184 | each store to another thread's node hits a queued node, a wake-up one that still spins |
| McsLock.RunInv | RompLib/src/McsLock.cpp:76-185 | the queue shape: tail, next and blocked as functions of the waiters, whatever happens to unused nodes' memory |
| LockOrder.RunInv | RompLib/src/RompLib.cpp:32-33 | held guards are at the head of their queues and ranks grow inwards |
| LockOrder.EdgeAdvances | RompLib/src/Core.cpp:55-56 | waiting for a waiting thread goes up in rank or forward in one queue |
| LockOrder.NoCircularWait | RompLib/src/RompLib.cpp:85-86 | in no reachable state do threads wait for each other in a circle |
| GuardedLocks.RunShows | RompLib/include/McsLock.h:120-131 | every run of nested guards over MCS locks is a run of `LockOrder`: the same queues, the same held locks, and wanted is what a thread is queued for |
| GuardedLocks.GuardsNeverDeadlock | RompLib/src/RompLib.cpp:32-33 | in no reachable state of many MCS locks under the code's nesting do threads wait for each other in a circle |
| GuardedLocks.GuardsNest | RompLib/src/Core.cpp:55-56 | runs in which the guards nest in each of the ways the code nests them |
| AddressSplit.ShrAndMask | RompLib/include/ShadowMemory.h:290-292 | the page mask and shift take exactly the address bits between the granularity and the page size |
| AddressSplit.IndexBits | RompLib/include/ShadowMemory.h:154-166 | the three indices are three adjacent runs of address bits |
| AddressSplit.IndicesInRange | RompLib/include/ShadowMemory.h:86-128 | all indices are within their tables |
| AddressSplit.TablesFit | RompLib/include/ShadowMemory.h:112-121 | the tables together have one entry for each block of the 48-bit address space |
| AddressSplit.BlockIsQuotient | RompLib/include/ShadowMemory.h:92-111 | a block is 1, 4 or 8 aligned bytes of the low 48 address bits |
| AddressSplit.BlockSizes | RompLib/include/ShadowMemory.h:92-111 | blocks are of 1, 4 and 8 bytes |
| AddressSplit.SameIndicesIffSameBlock | RompLib/include/ShadowMemory.h:211-213 | two addresses share all indices iff they lie in one block |
| PageTable.NoNullIsDereferenced | RompLib/include/ShadowMemory.h:184-207 | no step of any interleaving reads through a null entry, and every enabled step continues a run |
| PageTable.ApplyInv | RompLib/include/ShadowMemory.h:184-207 | every step keeps the invariant, and entries go from null to one page and never change |
| PageTable.InstalledOnce | RompLib/include/ShadowMemory.h:197-206 | one page serves one pair of indices |
| PageTable.LookupsAgree | RompLib/include/ShadowMemory.h:172-207 | over all lookups of a run, two get the same slot iff their addresses lie in one block |
| PageTable.LookupEnds | RompLib/include/ShadowMemory.h:172-207 | whatever others do, a lookup has an answer for its address after at most twelve steps of its own |
| PageTable.CallEnds | RompLib/include/ShadowMemory.h:172-207 | counted from the moment it is begun |
| PageTable.LookupPossible | RompLib/include/ShadowMemory.h:172-207 | from every reachable state a thread can get an answer for any address |
| PageTable.ResolvedIsRead | RompLib/include/ShadowMemory.h:184-207 | a lookup whose entries are set takes no page and changes no table |
| PageTable.SavePlaces | RompLib/include/ShadowMemory.h:267-282 | whoever saves a page finds its cache empty |
| PageTable.PagesAreConserved | RompLib/include/ShadowMemory.h:226-282 | each allocated page is in an entry, a cache or a hand and is never lost; spare first-level pages are all zero |
| PageTable.PlacesExclude | RompLib/include/ShadowMemory.h:226-282 | these three exclude each other, and each page is in one entry, one cache or one hand only |
| TaskDepGraphs.TaskDepGraph.AddDeps | RompLib/src/TaskDepGraph.cpp:27-82 | the maps after a declaration; the set of mutexinoutset tasks |
| TaskDepGraphs.TaskDepGraph.InsertEdge | RompLib/src/TaskDepGraph.cpp:84-92 | appends one successor |
| TaskDepGraphs.TaskDepGraph.HasPath | RompLib/src/TaskDepGraph.cpp:97-121 | on any finite graph, cyclic or not, the search ends and answers whether there is a path; the entries it inserts add no edge |
| TaskDepGraphs.AnswerAll | RompLib/src/TaskDepGraph.cpp:97-121 | any sequence of queries on distinct tasks is answered by paths in the first graph |
| TaskDepGraphs.DistinctPathStartsInGraph | RompLib/src/TaskDepGraph.cpp:98-101 | for distinct tasks the test for the source costs no path |
| TaskDepGraphs.DeclareAll | RompLib/src/Callbacks.cpp:571-576 | the object after a run of declarations |
| TaskDepGraphs.DepsAreFirsts | RompLib/src/TaskDepGraph.cpp:38-46 | per variable only the first tracked declaration is remembered |
| TaskDepGraphs.EdgesExact | RompLib/src/TaskDepGraph.cpp:46-81 | an edge is there iff it leads from the first task that named a variable to a later-created one naming it with a conflicting kind |
| TaskDepGraphs.EdgesByKind | RompLib/src/TaskDepGraph.cpp:46-81 | the same with the kinds spelled out: the later task writes, or it reads or excludes what the first one does in another way |
| TaskDepGraphs.TwoDeclarations | RompLib/src/TaskDepGraph.cpp:55-78 | of two tasks naming one variable the later depends on the first unless both only read or both exclude each other |
| TaskDepGraphs.PathsFollowCreation | RompLib/src/Callbacks.cpp:484-487 | paths go from smaller to strictly larger creation ids |
| TaskDepGraphs.StrictOrder | RompLib/src/TaskDepGraph.cpp:48-80 | dependence has no cycles and composes |
| TaskDepGraphs.SecondTaskIsForgotten | RompLib/src/TaskDepGraph.cpp:46-81 | a run in which the second and third task conflict and no path connects them |
| PackedSegments.PutIsReplace | RompLib/src/Segment.cpp:92-96 | the mask-and-or of every setter replaces the bits of its field and no others |
| PackedSegments.GetIsField | RompLib/src/Segment.cpp:98-101 | the mask-and-shift of every getter reads the bits of its field |
| PackedSegments.GetPut | RompLib/src/Segment.cpp:198-241 | what was set is what is read, cut to the field, and other fields are untouched |
| PackedSegments.WordEqualityIsFieldEquality | RompLib/src/Segment.cpp:188-190 | packed words are equal iff all fields kept in them are |
| PackedSegments.PhaseWord | RompLib/src/Segment.cpp:136-141 | the phase setter leaves the bitwise or of the old and the new phase |
| PackedSegments.SegmentObject.constructor | RompLib/src/Segment.cpp:74-82 | a new segment has its type, offset and span and nothing else set |
| PackedSegments.SegmentObject.SetOffsetSpan | RompLib/src/Segment.cpp:92-96 | changes offset and span only |
| PackedSegments.SegmentObject.SetTaskwait | RompLib/src/Segment.cpp:198-202 | changes the taskwait count only |
| PackedSegments.SegmentObject.SetTaskcreate | RompLib/src/Segment.cpp:209-213 | changes the creation count only |
| PackedSegments.SegmentObject.SetPhase | RompLib/src/Segment.cpp:220-225 | changes the phase only |
| PackedSegments.SegmentObject.SetLoopCount | RompLib/src/Segment.cpp:232-236 | changes the loop count only |
| PackedSegments.SegmentObject.SetFlag2 | RompLib/src/Segment.cpp:278-284 | changes the mark in bit 2 only |
| PackedSegments.SegmentObject.SetTaskwaited | RompLib/src/Segment.cpp:165-167 | sets the taskwait mark only |
| PackedSegments.SegmentObject.SetTaskGroupSync | RompLib/src/Segment.cpp:173-175 | sets the taskgroup mark only |
| PackedSegments.SegmentObject.SetTaskGroup | RompLib/src/Segment.cpp:111-116 | changes the group id and level only, in 16 bits each |
| PackedSegments.SegmentObject.SetTaskwaitPhase | RompLib/src/Segment.cpp:136-141 | changes the phase word as the code's mask does |
| PackedSegments.SegmentObject.Equals | RompLib/src/Segment.cpp:286-293 | the comparison of words is `SameSegment` on the fields; it is true iff the value words and, for work-share segments, the id words are equal bit by bit |
| PackedSegments.WordLayout | RompLib/src/Segment.cpp:42-56 | where each field is, as a number |
| PackedSegments.Store | RompLib/src/Segment.cpp:74-241 | a segment whose fields fit can be stored through the setters and read back |
| LabelObjects.Compare | RompLib/src/Label.cpp:76-95 | the index loop computes `CompareLabels` |
| LabelObjects.InitTask | RompLib/src/Label.cpp:111-116 | the label of the initial task |
| LabelObjects.ImpTask | RompLib/src/Label.cpp:97-109 | the parent's label and a new implicit segment; the rest is shared |
| LabelObjects.ExpTask | RompLib/src/Label.cpp:121-126 | the parent's label and a new explicit segment |
| LabelObjects.DropLast | RompLib/src/Label.cpp:128-132 | the label without its last segment |
| LabelObjects.ParentTaskCreate | RompLib/src/Label.cpp:138-146 | one more task created, in a clone of the last segment |
| LabelObjects.BarrierEnd | RompLib/src/Label.cpp:153-164 | the second last offset advanced by its span in 16 bits, in a clone |
| LabelObjects.TaskWait | RompLib/src/Label.cpp:171-180 | one more taskwait, in a clone |
| LabelObjects.TaskGroupBegin | RompLib/src/Label.cpp:325-337 | group counters after a begin, in a clone |
| LabelObjects.TaskGroupEnd | RompLib/src/Label.cpp:344-357 | group counters after an end, in a clone |
| LabelObjects.LoopBegin | RompLib/src/Label.cpp:202-208 | a place-holder segment appended |
| LabelObjects.LoopEnd | RompLib/src/Label.cpp:215-225 | the place-holder dropped and the loop counted, in a clone |
| LabelObjects.OrderSection | RompLib/src/Label.cpp:187-196 | one more phase, in a clone |
| LabelObjects.SingleBegin | RompLib/src/Label.cpp:244-276 | a segment with the executor's or the others' flag appended |
| LabelObjects.WorkShareDispatch | RompLib/src/Label.cpp:302-310 | the last segment replaced by one with the iteration's or section's id |
| LabelObjects.MarkTaskwaited | RompLib/src/Callbacks.cpp:106-117 | the mark and the phase written on the last segment, in place |
| LabelObjects.TaskGroupSyncChild | RompLib/src/Label.cpp:379-384 | the taskgroup mark written on the last segment, in place |
| LabelObjects.MakeFrozen | RompLib/src/Label.cpp:97-357 | no transition reads or writes the marks and the recorded phase |
| LabelObjects.LabelsFit | RompLib/src/Segment.cpp:198-241 | in every run of transitions every field of every label fits its bits |
| LabelObjects.CountersAbort | RompLib/src/Segment.cpp:198-225 | a counter that would leave its field aborts the program, and only then |
| LabelObjects.MarkStep | RompLib/src/Callbacks.cpp:106-150 | marks made in place leave every label as recorded up to the marks and the phase |
| LabelObjects.RunTransitions | RompLib/src/Label.cpp:8-16 | after any run of transitions every label has the length, and its segments the type, offset, span and counters, it was made with |

## Left out

- InstrumentClient, symbol lookup, reporting and logging: foreign calls and output.
- OMPT query wrappers and callback registration: runtime events are the actions of the state machines.
- Weak memory: atomic steps are sequentially consistent.
- Detector.DetectorIsExact: asks that no scan meets a wrong leftover, one way only, since a wrong one need not lose a race of the run; exactly when it does is `LeftoverExactness`, one scan at a time.
- AccessHistories.LeftoverExactness: the accesses that follow may hold any number of locks; the program aborts on a fifth.
- ForkJoin.Run: also has accesses of the initial task, which the program never compares; the theorems hold of those too.
- Detector.OrderIsReachability: for runs of nested parallel regions; explicit tasks have their own theorems and dependence edges theirs, but no single run mixes them, so the `hasPath` call inside `analyzeRaceCondition` is part of the order that `AccessHistories` takes as a parameter.
- Hardware locks: an access under one is not checked at all (`ignored`); the record constructor leaves the state bits it reads for them uninitialised, so the hardware-lock half of `analyzeMutualExclusion` is not modelled.
- ForkJoin.VerdictIsReachability: offsets that fit 16 bits and teams below 2^16, each region ending in a barrier after which its members make no access.
- Barriers: the completion of a barrier is one event; in `ForkJoin` its arrivals and the callbacks that follow it are separate steps, in `TeamTasks` a barrier is one step.
- TeamTasks.TeamExactness: one team under any enclosing tasks, explicit tasks are leaves, no taskgroup is open at a barrier; members do not fork (`ForkJoin` has nested regions without explicit tasks).
- TeamTasks.Run: a taskwait after a barrier still marks children of before; such marks change no verdict (`PairVerdictRemarked`, and the stores `st` of `TeamVerdict`) and are no step of the run.
- TaskVerdicts.ChildExactness: leaf tasks of one implicit task in a team of at least two, within one barrier epoch that begins outside any taskgroup (several epochs and members are `TeamTasks`); grandchildren are not matched by the label rules.
- TaskSync.Run: fewer than 2^16 group begins and ends, so that the group id does not wrap.
- Ordered sections: the phases order, and iteration ids decide only which segments differ; the verdict is stated exactly (`VerdictShapes.IterationsPart`, `WorkSharing.OrderedIterations`) but no event graph is attached to it, since it orders accesses inside ordered sections whichever iteration comes first.
- Loops, sections and single constructs: the verdicts are stated on their labels (`WorkSharing`); no run machine has them.
- `taskloop`, `target` and `distribute`: not implemented by the label rules.
- GuardedLocks.GuardsNeverDeadlock: `mcsTryLock` is not part of the guards and is left to `McsLock`.
- PageTable.PagesAreConserved: one shadow memory; the per-thread caches are static and would be shared by several.
- Memory exhaustion: allocations succeed.
- LabelObjects.RunTransitions: segments hold unpacked fields; that packing loses nothing is `PackedSegments`. Labels are never freed.
- LabelObjects.DropLast: stands for the three transitions that drop the last segment; the check on task completion that it is an explicit one is not part of it.
- PackedSegments.SegmentObject.SetTaskGroup: one method for the two setters of the group word, which the program always calls together.
- The setters of the type, of the single flag and of the work-share id: used only on fresh work-share segments.
- Memory recycling and stack classification: environment queries; the flag `recycled` is modelled, what sets it is not.
