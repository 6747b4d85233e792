/** Explicit task dependences (TaskDepGraph.cpp): edge insertion and path search. */
module TaskDepGraphs {
  /** A task is the address of its data, which holds the id given at creation. */
  datatype Task = Task(address: nat, localId: nat)

  datatype Kind = In | Out | InOut | MutexInOutSet | Source | Sink | Other

  datatype Decl = Decl(variable: nat, kind: Kind, task: Task)

  type Graph = map<Task, seq<Task>>

  /** Per variable, the pairs that later tasks are compared with. */
  type Deps = map<nat, seq<Decl>>

  function Succ(g: Graph, a: Task): seq<Task> {
    if a in g then g[a] else []
  }

  predicate HasEdge(g: Graph, a: Task, b: Task) {
    b in Succ(g, a)
  }

  ghost predicate SameEdges(g: Graph, g': Graph) {
    forall a :: Succ(g', a) == Succ(g, a)
  }

  predicate IsPath(g: Graph, p: seq<Task>) {
    p != [] && forall i | 0 < i < |p| :: HasEdge(g, p[i - 1], p[i])
  }

  ghost predicate PathFrom(g: Graph, a: Task, b: Task, p: seq<Task>) {
    IsPath(g, p) && p[0] == a && p[|p| - 1] == b
  }

  /** There is a directed path, possibly empty. */
  ghost predicate Connected(g: Graph, a: Task, b: Task) {
    exists p :: PathFrom(g, a, b, p)
  }

  predicate IsTracked(kind: Kind) {
    !kind.Source? && !kind.Sink?
  }

  /** Does a task of kind `cur` depend on an earlier one of kind `other`? */
  predicate Conflicts(other: Kind, cur: Kind) {
    match cur
    case In => other.Out? || other.InOut? || other.MutexInOutSet?
    case Out => true
    case InOut => true
    case MutexInOutSet => other.In? || other.InOut? || other.Out?
    case _ => false
  }

  function AddEdge(g: Graph, a: Task, b: Task): Graph {
    g[a := Succ(g, a) + [b]]
  }

  predicate Ordered(other: Decl, d: Decl) {
    d.task.localId > other.task.localId && Conflicts(other.kind, d.kind)
  }

  function AddEdges(g: Graph, others: seq<Decl>, d: Decl): Graph {
    if others == [] then g
    else
      var n := |others| - 1;
      var g' := AddEdges(g, others[..n], d);
      if Ordered(others[n], d) then AddEdge(g', others[n].task, d.task) else g'
  }

  function RegisterDep(deps: Deps, d: Decl): Deps {
    if IsTracked(d.kind) && d.variable !in deps then deps[d.variable := [d]] else deps
  }

  function RegisterEdges(deps: Deps, g: Graph, d: Decl): Graph {
    if IsTracked(d.kind) && d.variable in deps then AddEdges(g, deps[d.variable], d) else g
  }

  class TaskDepGraph {
    var deps: Deps
    var graph: Graph
    var mutexTasks: set<Task>

    constructor ()
      ensures deps == map[] && graph == map[] && mutexTasks == {}
    {
      deps, graph, mutexTasks := map[], map[], {};
    }

    method AddDeps(d: Decl)
      modifies this
      ensures deps == RegisterDep(old(deps), d)
      ensures graph == RegisterEdges(old(deps), old(graph), d)
      ensures mutexTasks == old(mutexTasks) + if d.kind.MutexInOutSet? then {d.task} else {}
    {
      if d.kind.Source? || d.kind.Sink? { return; }
      if d.kind.MutexInOutSet? { mutexTasks := mutexTasks + {d.task}; }
      if d.variable !in deps {
        deps := deps[d.variable := [d]];
        return;
      }
      var others := deps[d.variable];
      for i := 0 to |others|
        invariant deps == old(deps) && graph == AddEdges(old(graph), others[..i], d)
        invariant mutexTasks == old(mutexTasks) + if d.kind.MutexInOutSet? then {d.task} else {}
      {
        var other := others[i];
        assert others[..i + 1][..i] == others[..i];
        if d.task.localId > other.task.localId {
          match d.kind
          case In =>
            if other.kind.Out? || other.kind.InOut? || other.kind.MutexInOutSet? { InsertEdge(other.task, d.task); }
          case Out => InsertEdge(other.task, d.task);
          case InOut => InsertEdge(other.task, d.task);
          case MutexInOutSet =>
            if other.kind.In? || other.kind.InOut? || other.kind.Out? { InsertEdge(other.task, d.task); }
          case _ =>
        }
      }
      assert others[..|others|] == others;
    }

    method InsertEdge(a: Task, b: Task)
      modifies this`graph
      ensures graph == AddEdge(old(graph), a, b)
    {
      if a !in graph {
        assert [] + [b] == [b];
        graph := graph[a := [b]];
      } else {
        graph := graph[a := graph[a] + [b]];
      }
    }

    /** Depth-first search. Looking up a node without successors inserts an empty
        entry, which changes no edge. */
    method HasPath(source: Task, target: Task) returns (found: bool)
      modifies this`graph
      ensures found == (source in old(graph) && Connected(old(graph), source, target))
      ensures SameEdges(old(graph), graph)
    {
      if source !in graph { return false; }
      ghost var g := graph;
      ghost var all := Nodes(g) + {source};
      var visited: map<Task, bool> := map[];
      var todo := [source];
      assert PathFrom(g, source, source, [source]);
      while todo != []
        invariant SameEdges(g, graph) && Searching(g, source, target, visited.Keys, todo)
        decreases all - visited.Keys, |todo|
      {
        var cur := todo[|todo| - 1];
        Popped(g, source, target, visited.Keys, todo);
        todo := todo[..|todo| - 1];
        if cur == target { return true; }
        if cur in visited { continue; }
        ghost var seen := visited.Keys;
        visited := visited[cur := true];
        assert visited.Keys == seen + {cur};
        if cur !in graph { graph := graph[cur := []]; }
        var below := todo;
        todo := PushUnvisited(graph[cur], visited, below, g, cur, source);
        Visited(g, source, target, seen, below, cur, todo);
      }
      ClosedSetHoldsPaths(g, visited.Keys, source, target);
      found := false;
    }
  }

  /** All successors of any node. */
  function Nodes(g: Graph): set<Task> {
    set a, b | a in g && b in g[a] :: b
  }

  /** What has been visited or is still to do is reached from the source, and the
      visited nodes have no edge out of both. */
  ghost predicate Searching(g: Graph, source: Task, target: Task, visited: set<Task>, todo: seq<Task>) {
    && visited <= Nodes(g) + {source} && (forall t | t in todo :: t in Nodes(g) + {source})
    && (forall t | t in visited || t in todo :: Connected(g, source, t))
    && target !in visited && (source in visited || source in todo)
    && (forall t, u | t in visited && HasEdge(g, t, u) :: u in visited || u in todo)
  }

  /** The invariant with the node on top of the stack in hand. */
  lemma Popped(g: Graph, source: Task, target: Task, visited: set<Task>, todo: seq<Task>)
    requires Searching(g, source, target, visited, todo) && todo != []
    ensures var cur, below := todo[|todo| - 1], todo[..|todo| - 1];
      && Connected(g, source, cur) && cur in Nodes(g) + {source}
      && (cur in visited ==> Searching(g, source, target, visited, below))
      && (forall t | t in todo :: t == cur || t in below)
      && (forall t | t in below :: t in todo)
      && (source in visited || source in below || source == cur)
      && (forall t, u | t in visited && HasEdge(g, t, u) :: u in visited || u in below || u == cur)
  {
    assert todo == todo[..|todo| - 1] + [todo[|todo| - 1]];
  }

  lemma Visited(g: Graph, source: Task, target: Task, seen: set<Task>, below: seq<Task>, cur: Task, todo: seq<Task>)
    requires cur != target && cur in Nodes(g) + {source} && Connected(g, source, cur) && target !in seen
    requires seen <= Nodes(g) + {source} && (forall t | t in below :: t in Nodes(g) + {source})
    requires forall t | t in seen || t in below :: Connected(g, source, t)
    requires source in seen || source in below || source == cur
    requires forall t, u | t in seen && HasEdge(g, t, u) :: u in seen || u in below || u == cur
    requires below <= todo
    requires forall t | t in todo :: t in below || (HasEdge(g, cur, t) && Connected(g, source, t))
    requires forall t | HasEdge(g, cur, t) :: t in seen + {cur} || t in todo
    ensures Searching(g, source, target, seen + {cur}, todo)
  {
    assert forall t | t in below :: t in todo;
    assert forall u | HasEdge(g, cur, u) :: u in Nodes(g);
  }

  /** The inner loop of the search. */
  method PushUnvisited(neighbors: seq<Task>, visited: map<Task, bool>, todo: seq<Task>, ghost g: Graph, ghost cur: Task, ghost source: Task)
    returns (todo': seq<Task>)
    requires neighbors == Succ(g, cur) && Connected(g, source, cur)
    ensures todo <= todo'
    ensures forall t | t in todo' :: t in todo || (HasEdge(g, cur, t) && Connected(g, source, t))
    ensures forall t | HasEdge(g, cur, t) :: t in visited || t in todo'
  {
    todo' := todo;
    for i := 0 to |neighbors|
      invariant todo <= todo'
      invariant forall t | t in todo' :: t in todo || (HasEdge(g, cur, t) && Connected(g, source, t))
      invariant forall j | 0 <= j < i :: neighbors[j] in visited || neighbors[j] in todo'
    {
      if neighbors[i] !in visited {
        PathExtends(g, source, cur, neighbors[i]);
        todo' := todo' + [neighbors[i]];
      }
    }
  }

  lemma PathExtends(g: Graph, a: Task, b: Task, c: Task)
    requires Connected(g, a, b) && HasEdge(g, b, c)
    ensures Connected(g, a, c)
  {
    var p :| PathFrom(g, a, b, p);
    assert PathFrom(g, a, c, p + [c]);
  }

  /** A set of nodes closed under edges holds every path that starts in it. */
  lemma ClosedSetHoldsPaths(g: Graph, closed: set<Task>, a: Task, b: Task)
    requires a in closed && forall t, u | t in closed && HasEdge(g, t, u) :: u in closed
    ensures Connected(g, a, b) ==> b in closed
  {
    if Connected(g, a, b) {
      var p :| PathFrom(g, a, b, p);
      PathStaysInside(g, closed, p, |p| - 1);
    }
  }

  lemma {:induction false} PathStaysInside(g: Graph, closed: set<Task>, p: seq<Task>, i: nat)
    requires IsPath(g, p) && p[0] in closed && i < |p|
    requires forall t, u | t in closed && HasEdge(g, t, u) :: u in closed
    ensures p[i] in closed
  {
    if i > 0 {
      PathStaysInside(g, closed, p, i - 1);
      assert HasEdge(g, p[i - 1], p[i]);
    }
  }

  /** For distinct tasks the answer is whether a directed path exists. */
  lemma DistinctPathStartsInGraph(g: Graph, a: Task, b: Task)
    requires a != b
    ensures (a in g && Connected(g, a, b)) <==> Connected(g, a, b)
  {
    if Connected(g, a, b) {
      var p :| PathFrom(g, a, b, p);
      assert HasEdge(g, p[0], p[1]);
    }
  }

  lemma SameEdgesSamePaths(g: Graph, g': Graph, a: Task, b: Task)
    requires SameEdges(g, g')
    ensures Connected(g, a, b) <==> Connected(g', a, b)
  {
    assert forall x, y :: HasEdge(g, x, y) <==> HasEdge(g', x, y);
    if p :| PathFrom(g, a, b, p) { assert PathFrom(g', a, b, p); }
    if p :| PathFrom(g', a, b, p) { assert PathFrom(g, a, b, p); }
  }

  /** Any number of queries on distinct tasks is answered as on the first graph,
      although each may insert entries. */
  method AnswerAll(graph: TaskDepGraph, queries: seq<(Task, Task)>) returns (answers: seq<bool>)
    requires forall q | q in queries :: q.0 != q.1
    modifies graph
    ensures |answers| == |queries|
    ensures forall i | 0 <= i < |queries| :: answers[i] == Connected(old(graph.graph), queries[i].0, queries[i].1)
    ensures SameEdges(old(graph.graph), graph.graph)
  {
    answers := [];
    for i := 0 to |queries|
      invariant |answers| == i && SameEdges(old(graph.graph), graph.graph)
      invariant forall j | 0 <= j < i :: answers[j] == Connected(old(graph.graph), queries[j].0, queries[j].1)
    {
      var (a, b) := queries[i];
      assert queries[i] in queries;
      DistinctPathStartsInGraph(graph.graph, a, b);
      SameEdgesSamePaths(old(graph.graph), graph.graph, a, b);
      var found := graph.HasPath(a, b);
      answers := answers + [found];
    }
  }

  // Runs of dependence declarations.

  function DepsAfter(decls: seq<Decl>): Deps {
    if decls == [] then map[] else RegisterDep(DepsAfter(decls[..|decls| - 1]), decls[|decls| - 1])
  }

  function GraphAfter(decls: seq<Decl>): Graph {
    if decls == [] then map[]
    else
      var before := decls[..|decls| - 1];
      RegisterEdges(DepsAfter(before), GraphAfter(before), decls[|decls| - 1])
  }

  /** The object's maps after a run are those of the specification. */
  method DeclareAll(decls: seq<Decl>) returns (graph: TaskDepGraph)
    ensures fresh(graph) && graph.deps == DepsAfter(decls) && graph.graph == GraphAfter(decls)
  {
    graph := new TaskDepGraph();
    for i := 0 to |decls|
      invariant fresh(graph) && graph.deps == DepsAfter(decls[..i]) && graph.graph == GraphAfter(decls[..i])
    {
      assert decls[..i + 1][..i] == decls[..i];
      graph.AddDeps(decls[i]);
    }
    assert decls[..|decls|] == decls;
  }

  /** The declaration at `j` is the first tracked one of its variable. */
  predicate IsFirst(decls: seq<Decl>, j: nat) {
    j < |decls| && IsTracked(decls[j].kind) &&
    forall k | 0 <= k < j :: decls[k].variable == decls[j].variable ==> !IsTracked(decls[k].kind)
  }

  /** Only the first declaration of a variable is ever remembered. */
  lemma {:induction false} DepsAreFirsts(decls: seq<Decl>, v: nat)
    ensures v in DepsAfter(decls) ==> |DepsAfter(decls)[v]| == 1
    ensures v in DepsAfter(decls) ==>
      exists j :: 0 <= j < |decls| && IsFirst(decls, j) && decls[j] == DepsAfter(decls)[v][0] && decls[j].variable == v
    ensures v !in DepsAfter(decls) ==> forall j | 0 <= j < |decls| && decls[j].variable == v :: !IsTracked(decls[j].kind)
  {
    if decls != [] {
      var n := |decls| - 1;
      var before := decls[..n];
      DepsAreFirsts(before, v);
      assert DepsAfter(decls) == RegisterDep(DepsAfter(before), decls[n]);
      if v in DepsAfter(before) {
        var j :| 0 <= j < n && IsFirst(before, j) && before[j] == DepsAfter(before)[v][0] && before[j].variable == v;
        IsFirstOfPrefix(decls, n, j);
      } else {
        forall k | 0 <= k < n && decls[k].variable == v ensures !IsTracked(decls[k].kind) { assert before[k] == decls[k]; }
        if v in DepsAfter(decls) { assert IsFirst(decls, n); }
      }
    }
  }

  /** The edge from `a` to `b` is due to the declarations `j` and `i`. */
  predicate DueTo(decls: seq<Decl>, a: Task, b: Task, j: nat, i: nat) {
    && j < i < |decls| && IsFirst(decls, j)
    && decls[j].variable == decls[i].variable && Ordered(decls[j], decls[i])
    && decls[j].task == a && decls[i].task == b
  }

  /** Exactly which edges a run inserts: from the first task that named a variable to
      every later-created task that names it with a conflicting kind. */
  lemma {:induction false} EdgesExact(decls: seq<Decl>, a: Task, b: Task)
    ensures HasEdge(GraphAfter(decls), a, b) <==> exists j: nat, i: nat :: DueTo(decls, a, b, j, i)
  {
    if decls != [] {
      var n := |decls| - 1;
      var before := decls[..n];
      EdgesExact(before, a, b);
      forall j: nat, i: nat | i < n ensures DueTo(decls, a, b, j, i) <==> DueTo(before, a, b, j, i) {
        assert forall k | 0 <= k < n :: before[k] == decls[k];
      }
      LastEdges(decls, n, before, a, b);
      if j: nat, i: nat :| DueTo(before, a, b, j, i) { assert DueTo(decls, a, b, j, i); }
    }
  }

  lemma AddOneEdge(g: Graph, others: seq<Decl>, d: Decl, a: Task, b: Task)
    requires |others| == 1
    ensures HasEdge(AddEdges(g, others, d), a, b) <==>
            HasEdge(g, a, b) || (Ordered(others[0], d) && others[0].task == a && d.task == b)
  {
    assert others[..0] == [];
  }

  lemma IsFirstOfPrefix(decls: seq<Decl>, n: nat, j: nat)
    requires n <= |decls| && j < n
    ensures decls[..n][j] == decls[j] && (IsFirst(decls[..n], j) <==> IsFirst(decls, j))
  {
    assert forall k | 0 <= k < n :: decls[..n][k] == decls[k];
  }

  /** What the last declaration adds. */
  lemma LastEdges(decls: seq<Decl>, n: nat, before: seq<Decl>, a: Task, b: Task)
    requires |decls| == n + 1 && before == decls[..n]
    ensures HasEdge(GraphAfter(decls), a, b) <==>
            HasEdge(GraphAfter(before), a, b) || exists j: nat :: DueTo(decls, a, b, j, n)
  {
    var d, deps := decls[n], DepsAfter(before);
    DepsAreFirsts(before, d.variable);
    if d.variable in deps {
      var j: nat :| j < n && IsFirst(before, j) && before[j] == deps[d.variable][0] && before[j].variable == d.variable;
      IsFirstOfPrefix(decls, n, j);
      AddOneEdge(GraphAfter(before), deps[d.variable], d, a, b);
      forall k: nat | DueTo(decls, a, b, k, n) ensures k == j {}
      assert DueTo(decls, a, b, j, n) <==> Ordered(before[j], d) && before[j].task == a && d.task == b;
    } else {
      forall k: nat ensures !DueTo(decls, a, b, k, n) {
        if k < n { assert before[k] == decls[k]; }
      }
    }
  }

  /** Every path goes from a smaller to a strictly larger creation id. */
  lemma PathsFollowCreation(decls: seq<Decl>, a: Task, b: Task)
    requires Connected(GraphAfter(decls), a, b)
    ensures a == b || a.localId < b.localId
  {
    var p :| PathFrom(GraphAfter(decls), a, b, p);
    PathFollowsCreation(decls, p, |p| - 1);
  }

  lemma {:induction false} PathFollowsCreation(decls: seq<Decl>, p: seq<Task>, i: nat)
    requires IsPath(GraphAfter(decls), p) && i < |p|
    ensures i == 0 || p[0].localId < p[i].localId
  {
    if i > 0 {
      PathFollowsCreation(decls, p, i - 1);
      assert HasEdge(GraphAfter(decls), p[i - 1], p[i]);
      EdgesExact(decls, p[i - 1], p[i]);
    }
  }

  /** Dependence is a strict partial order on tasks: no cycles, and it composes. */
  lemma StrictOrder(decls: seq<Decl>, a: Task, b: Task, c: Task)
    ensures Connected(GraphAfter(decls), a, b) && Connected(GraphAfter(decls), b, a) ==> a == b
    ensures Connected(GraphAfter(decls), a, b) && Connected(GraphAfter(decls), b, c) ==> Connected(GraphAfter(decls), a, c)
  {
    var g := GraphAfter(decls);
    if Connected(g, a, b) && Connected(g, b, a) {
      PathsFollowCreation(decls, a, b);
      PathsFollowCreation(decls, b, a);
    }
    if Connected(g, a, b) && Connected(g, b, c) {
      var q :| PathFrom(g, b, c, q);
      PathsCompose(g, a, q, |q| - 1);
    }
  }

  lemma {:induction false} PathsCompose(g: Graph, a: Task, q: seq<Task>, i: nat)
    requires IsPath(g, q) && i < |q| && Connected(g, a, q[0])
    ensures Connected(g, a, q[i])
  {
    if i > 0 {
      PathsCompose(g, a, q, i - 1);
      PathExtends(g, a, q[i - 1], q[i]);
    }
  }

  /** What section 2.17.11 of the OpenMP API 5.0 asks of a pair of declarations, kept to the
      first task that named the variable: the later one writes, or it reads or excludes what
      the first one does in another way. Kinds outside the four order nothing before readers. */
  predicate Dependent(decls: seq<Decl>, a: Task, b: Task, j: nat, i: nat) {
    j < i < |decls| &&
    var first, later := decls[j], decls[i];
    && first.task == a && later.task == b && a.localId < b.localId && first.variable == later.variable
    && first.kind != Source && first.kind != Sink
    && (forall k | 0 <= k < j && decls[k].variable == first.variable :: decls[k].kind == Source || decls[k].kind == Sink)
    && (later.kind == Out || later.kind == InOut ||
        ((later.kind == In || later.kind == MutexInOutSet) && first.kind != later.kind && first.kind != Other))
  }

  lemma DueToIsDependent(decls: seq<Decl>, a: Task, b: Task, j: nat, i: nat)
    ensures DueTo(decls, a, b, j, i) <==> Dependent(decls, a, b, j, i)
  {
  }

  /** The edges of a run are exactly those dependences. */
  lemma EdgesByKind(decls: seq<Decl>, a: Task, b: Task)
    ensures HasEdge(GraphAfter(decls), a, b) <==> exists j: nat, i: nat :: Dependent(decls, a, b, j, i)
  {
    EdgesExact(decls, a, b);
    forall j: nat, i: nat ensures DueTo(decls, a, b, j, i) <==> Dependent(decls, a, b, j, i) {
      DueToIsDependent(decls, a, b, j, i);
    }
  }

  /** For two declarations of one variable with kinds among the four, the edge is there unless
      both only read, or both exclude each other. */
  lemma TwoDeclarations(v: nat, o: Kind, k: Kind, a: Task, b: Task)
    requires a.localId < b.localId
    requires o.In? || o.Out? || o.InOut? || o.MutexInOutSet?
    requires k.In? || k.Out? || k.InOut? || k.MutexInOutSet?
    ensures HasEdge(GraphAfter([Decl(v, o, a), Decl(v, k, b)]), a, b) <==>
      !(o == In && k == In) && !(o == MutexInOutSet && k == MutexInOutSet)
  {
    var decls := [Decl(v, o, a), Decl(v, k, b)];
    EdgesByKind(decls, a, b);
    assert Dependent(decls, a, b, 0, 1) <==> !(o == In && k == In) && !(o == MutexInOutSet && k == MutexInOutSet);
  }

  // The comments ask for an edge from every earlier conflicting task.

  predicate Documented(decls: seq<Decl>, a: Task, b: Task, j: nat, i: nat) {
    && j < i < |decls| && IsTracked(decls[j].kind)
    && decls[j].variable == decls[i].variable && Ordered(decls[j], decls[i])
    && decls[j].task == a && decls[i].task == b
  }

  /** A task that reads, one that writes and one that reads the same variable:
      the edge from the second to the third is missing, and no path replaces it. */
  lemma SecondTaskIsForgotten()
    ensures var a, b, c := Task(1, 0), Task(2, 1), Task(3, 2);
      var decls := [Decl(7, In, a), Decl(7, Out, b), Decl(7, In, c)];
      Documented(decls, b, c, 1, 2) && !Connected(GraphAfter(decls), b, c)
  {
    var a, b, c := Task(1, 0), Task(2, 1), Task(3, 2);
    var decls := [Decl(7, In, a), Decl(7, Out, b), Decl(7, In, c)];
    var g := GraphAfter(decls);
    forall u ensures !HasEdge(g, b, u) {
      EdgesExact(decls, b, u);
    }
    ClosedSetHoldsPaths(g, {b}, b, c);
  }
}
