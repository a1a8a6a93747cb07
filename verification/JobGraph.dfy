/** The dependency graph of jobs, `internal/job/dag.go`. */
module JobGraph {
  import opened Text
  import opened JobModel
  import opened Ordering
  import opened Digraph

  type Adjacency = map<string, set<string>>

  /** The two adjacency maps describe the same edges. */
  ghost predicate Mirrored(parents: Adjacency, children: Adjacency) {
    && parents.Keys == children.Keys
    && (forall a, b | a in children && b in children[a] :: b in parents && a in parents[b])
    && (forall a, b | b in parents && a in parents[b] :: a in children && b in children[a])
  }

  class Graph {
    var nodes: set<string>
    var parents: Adjacency
    var children: Adjacency

    ghost predicate Valid()
      reads this
    {
      parents.Keys == nodes && Mirrored(parents, children)
    }

    ghost function Value(): (g: Digraph)
      requires Valid()
      reads this
      ensures g.Valid() && g.nodes == nodes
    {
      Digraph(parents)
    }

    constructor ()
      ensures Valid() && nodes == {}
    {
      nodes, parents, children := {}, map[], map[];
    }

    method AddNode(id: string)
      requires Valid()
      modifies this
      ensures Valid() && nodes == old(nodes) + {id}
      ensures parents == WithNode(old(parents), id) && children == WithNode(old(children), id)
    {
      nodes := nodes + {id};
      if id !in parents {
        parents := parents[id := {}];
      }
      if id !in children {
        children := children[id := {}];
      }
    }

    method AddEdge(from: string, to: string)
      requires Valid()
      modifies this
      ensures Valid() && nodes == old(nodes) + {from, to}
      ensures parents == WithEdge(old(parents), from, to)
    {
      EdgeAdded(parents, children, from, to);
      AddNode(from);
      AddNode(to);
      children := children[from := children[from] + {to}];
      parents := parents[to := parents[to] + {from}];
    }

    /**
     `TopoSort`: fails exactly when there is a cycle; otherwise the result lists every node
     once, dependencies first, and is the smallest such list.
     */
    method TopoSort() returns (r: Option<seq<string>>)
      requires Valid()
      ensures r.Some? <==> Value().Acyclic()
      ensures r.Some? ==> Value().IsTopological(r.value)
      ensures r.Some? ==> forall other | Value().IsTopological(other) :: LexAtMost(r.value, other)
    {
      var order := Kahn(parents, children);
      ghost var g := Value();
      GreedyIsDistinct(g, order);
      DistinctSize(order);
      if |order| != |nodes| {
        NothingAvailable(g, SetOf(order));
        return None;
      }
      SameSize(SetOf(order), nodes);
      GreedyIsTopological(g, order);
      TopologicalIsAcyclic(g, order);
      forall other | g.IsTopological(other)
        ensures LexAtMost(order, other)
      {
        GreedyIsLeast(g, order, other);
      }
      return Some(order);
    }
  }

  /** The map with an entry for id, as it was or empty. */
  ghost function WithNode(m: Adjacency, id: string): (m': Adjacency)
    ensures m'.Keys == m.Keys + {id}
  {
    if id in m then m else m[id := {}]
  }

  ghost function WithBoth(m: Adjacency, a: string, b: string): (m': Adjacency)
    ensures m'.Keys == m.Keys + {a, b}
  {
    WithNode(WithNode(m, a), b)
  }

  /** The parents with one more edge, and its ends recorded as nodes. */
  ghost function WithEdge(parents: Adjacency, from: string, to: string): Adjacency {
    var p := WithBoth(parents, from, to);
    p[to := p[to] + {from}]
  }

  lemma NodeKeepsEdges(parents: Adjacency, children: Adjacency, id: string)
    requires Mirrored(parents, children)
    ensures Mirrored(WithNode(parents, id), WithNode(children, id))
    ensures forall a, b :: Digraph(WithNode(parents, id)).Edge(a, b) <==> Digraph(parents).Edge(a, b)
  {
  }

  lemma EdgeLinked(parents: Adjacency, children: Adjacency, from: string, to: string)
    requires Mirrored(parents, children) && from in children && to in parents
    ensures var parents' := parents[to := parents[to] + {from}];
      && Mirrored(parents', children[from := children[from] + {to}])
      && forall a, b :: Digraph(parents').Edge(a, b) <==> Digraph(parents).Edge(a, b) || (a == from && b == to)
  {
  }

  lemma EdgeAdded(parents: Adjacency, children: Adjacency, from: string, to: string)
    requires Mirrored(parents, children)
    ensures var c := WithBoth(children, from, to);
      Mirrored(WithEdge(parents, from, to), c[from := c[from] + {to}])
    ensures forall a, b :: Digraph(WithEdge(parents, from, to)).Edge(a, b) <==>
                           Digraph(parents).Edge(a, b) || (a == from && b == to)
  {
    NodeKeepsEdges(parents, children, from);
    NodeKeepsEdges(WithNode(parents, from), WithNode(children, from), to);
    EdgeLinked(WithBoth(parents, from, to), WithBoth(children, from, to), from, to);
  }

  lemma SameSize(a: set<string>, b: set<string>)
    requires a <= b && |a| == |b|
    ensures a == b
  {
    assert b == a + (b - a);
  }

  ghost function Unfinished(waits: set<string>, done: set<string>): set<string> {
    set u | u in waits && u !in done
  }

  /** How many of these dependencies are unfinished. */
  ghost function Left(waits: set<string>, done: set<string>): nat {
    |Unfinished(waits, done)|
  }

  lemma LeftAtStart(waits: set<string>)
    ensures Left(waits, {}) == |waits|
  {
    assert Unfinished(waits, {}) == waits;
  }

  lemma NoneLeft(waits: set<string>, done: set<string>)
    ensures Left(waits, done) == 0 <==> waits <= done
  {
    if waits <= done {
      assert Unfinished(waits, done) == {};
    } else {
      var u :| u in waits && u !in done;
      assert u in Unfinished(waits, done);
    }
  }

  lemma OneLess(waits: set<string>, done: set<string>, n: string)
    requires n !in done
    ensures Left(waits, done + {n}) == Left(waits, done) - (if n in waits then 1 else 0)
  {
    if n in waits {
      assert Unfinished(waits, done) == Unfinished(waits, done + {n}) + {n};
    } else {
      assert Unfinished(waits, done) == Unfinished(waits, done + {n});
    }
  }

  /** The counts of the loops: the unfinished dependencies of every node. */
  ghost predicate CountsLeft(parents: Adjacency, indeg: map<string, int>, done: set<string>) {
    indeg.Keys == parents.Keys && forall v | v in parents :: indeg[v] == Left(parents[v], done)
  }

  /** v may come next once `done` is finished. */
  ghost predicate Free(parents: Adjacency, v: string, done: set<string>) {
    v in parents && v !in done && parents[v] <= done
  }

  /** The queue holds what is available, each node once. */
  ghost predicate Queued(parents: Adjacency, queue: seq<string>, done: set<string>) {
    Distinct(queue) && forall v :: v in queue <==> Free(parents, v, done)
  }

  /** The first loop: the number of dependencies of every node. */
  method InDegrees(parents: Adjacency) returns (indeg: map<string, int>)
    ensures CountsLeft(parents, indeg, {})
  {
    indeg := map[];
    var rest := parents.Keys;
    while rest != {}
      invariant rest <= parents.Keys && indeg.Keys == parents.Keys - rest
      invariant forall v | v in indeg :: indeg[v] == Left(parents[v], {})
    {
      var id :| id in rest;
      rest := rest - {id};
      LeftAtStart(parents[id]);
      indeg := indeg[id := |parents[id]|];
    }
  }

  /** The second loop: the nodes without dependencies. */
  method Roots(parents: Adjacency, indeg: map<string, int>) returns (queue: seq<string>)
    requires CountsLeft(parents, indeg, {})
    ensures Queued(parents, queue, {})
  {
    queue := [];
    var rest := parents.Keys;
    while rest != {}
      invariant rest <= parents.Keys && Distinct(queue)
      invariant forall v :: v in queue <==> v !in rest && Free(parents, v, {})
    {
      var id :| id in rest;
      rest := rest - {id};
      NoneLeft(parents[id], {});
      if indeg[id] == 0 {
        queue := queue + [id];
      }
    }
  }

  ghost predicate Closed(parents: Adjacency, done: set<string>) {
    done <= parents.Keys && forall v | v in done :: parents[v] <= done
  }

  /** The inner loop: n is finished, so each of its children waits for one dependency less. */
  method Release(parents: Adjacency, kids: set<string>, n: string, indeg0: map<string, int>, queue0: seq<string>,
                 ghost done: set<string>)
      returns (indeg: map<string, int>, queue: seq<string>)
    requires forall v :: v in kids <==> v in parents && n in parents[v]
    requires CountsLeft(parents, indeg0, done) && Closed(parents, done)
    requires Queued(parents, [n] + queue0, done)
    ensures CountsLeft(parents, indeg, done + {n})
    ensures Queued(parents, queue, done + {n})
  {
    indeg, queue := indeg0, queue0;
    var rest := kids;
    HeadIsNew(parents, n, queue0, done);
    forall v | v in parents
      ensures Left(parents[v], done + {n}) == Left(parents[v], done) - (if v in kids then 1 else 0)
    {
      OneLess(parents[v], done, n);
    }
    while rest != {}
      invariant rest <= kids && indeg.Keys == parents.Keys && Distinct(queue)
      invariant forall v | v in parents ::
        indeg[v] == Left(parents[v], done + {n}) + (if v in rest then 1 else 0)
      invariant forall v :: v in queue <==> v in queue0 || (v in kids && v !in rest && parents[v] <= done + {n})
    {
      var child :| child in rest;
      rest := rest - {child};
      indeg := indeg[child := indeg[child] - 1];
      NoneLeft(parents[child], done + {n});
      if indeg[child] == 0 {
        queue := queue + [child];
      }
    }
  }

  lemma HeadIsNew(parents: Adjacency, n: string, queue: seq<string>, done: set<string>)
    requires Queued(parents, [n] + queue, done)
    ensures Free(parents, n, done) && n !in queue && Distinct(queue)
    ensures forall v :: v in queue <==> Free(parents, v, done) && v != n
  {
    var all := [n] + queue;
    assert all[0] == n;
    assert forall i | 0 <= i < |queue| :: queue[i] == all[i + 1];
  }

  /** Sorting the queue brings its smallest element to the front. */
  lemma SortedQueue(parents: Adjacency, queue: seq<string>, done: set<string>)
    requires Queued(parents, queue, done) && queue != []
    ensures var sorted := Sort(queue, Less);
      && Queued(parents, [sorted[0]] + sorted[1..], done)
      && forall v | v in queue :: !Less(v, sorted[0])
  {
    var sorted := Sort(queue, Less);
    StringOrder();
    SortSorted(queue, Less);
    SameElements(queue, Less);
    assert [sorted[0]] + sorted[1..] == sorted;
    PermutationDistinct(queue, sorted);
    forall v | v in queue
      ensures !Less(v, sorted[0])
    {
      var i :| 0 <= i < |sorted| && sorted[i] == v;
      LessIrreflexive(sorted[0]);
    }
  }

  /** Kahn's algorithm with sorted ties; the maps may be iterated in any order. */
  method Kahn(parents: Adjacency, children: Adjacency) returns (order: seq<string>)
    requires Mirrored(parents, children)
    ensures var g := Digraph(parents); g.IsGreedy(order) && g.Available(SetOf(order)) == {}
  {
    var indeg := InDegrees(parents);
    var queue := Roots(parents, indeg);
    order := [];
    ghost var done: set<string> := {};
    while queue != []
      invariant Digraph(parents).IsGreedy(order) && SetOf(order) == done && Closed(parents, done)
      invariant CountsLeft(parents, indeg, done) && Queued(parents, queue, done)
      decreases parents.Keys - done
    {
      var n;
      n, queue := PopLeast(parents, queue, done);
      GreedyExtends(parents, order, n, done);
      Children(parents, children, n);
      Shrinks(parents.Keys, done, n);
      indeg, queue := Release(parents, children[n], n, indeg, queue, done);
      order, done := order + [n], done + {n};
    }
    Exhausted(parents, done);
  }

  lemma Exhausted(parents: Adjacency, done: set<string>)
    requires Queued(parents, [], done)
    ensures Digraph(parents).Available(done) == {}
  {
    assert forall v :: v in Digraph(parents).Available(done) ==> Free(parents, v, done);
  }

  lemma Children(parents: Adjacency, children: Adjacency, n: string)
    requires Mirrored(parents, children) && n in parents
    ensures n in children && forall v :: v in children[n] <==> v in parents && n in parents[v]
  {
  }

  lemma Shrinks(keys: set<string>, done: set<string>, n: string)
    requires n in keys && n !in done
    ensures keys - (done + {n}) < keys - done
  {
  }

  /** Sort the queue and take its first element. */
  method PopLeast(parents: Adjacency, queue0: seq<string>, ghost done: set<string>)
      returns (n: string, queue: seq<string>)
    requires Queued(parents, queue0, done) && queue0 != []
    ensures Queued(parents, [n] + queue, done)
    ensures Free(parents, n, done) && forall v | Free(parents, v, done) :: !Less(v, n)
  {
    SortedQueue(parents, queue0, done);
    queue := Sort(queue0, Less);
    n := queue[0];
    queue := queue[1..];
    HeadIsNew(parents, n, queue, done);
  }

  lemma GreedyExtends(parents: Adjacency, order: seq<string>, n: string, done: set<string>)
    requires Digraph(parents).IsGreedy(order) && SetOf(order) == done && Closed(parents, done)
    requires Free(parents, n, done) && forall v | Free(parents, v, done) :: !Less(v, n)
    ensures Digraph(parents).IsGreedy(order + [n]) && SetOf(order + [n]) == done + {n}
    ensures Closed(parents, done + {n})
  {
    var longer := order + [n];
    forall i | 0 <= i < |longer|
      ensures longer[..i] == order[..i]
    {
    }
    assert order[..|order|] == order;
  }

  // BuildGraph.

  datatype BuildError = UnknownDependency | Cycle

  datatype BuildResult = Built(graph: Graph) | Rejected(error: BuildError)

  ghost function Ids(jobs: seq<Job>): set<string> {
    set k | 0 <= k < |jobs| :: jobs[k].id
  }

  ghost predicate Declares(jobs: seq<Job>, dep: string, id: string) {
    exists k :: 0 <= k < |jobs| && jobs[k].id == id && dep in jobs[k].dependsOn
  }

  /** The graph the jobs declare: an edge from each dependency to the job that names it. */
  ghost function Declared(jobs: seq<Job>): Digraph {
    Digraph(map id | id in Ids(jobs) :: set dep | dep in Ids(jobs) && Declares(jobs, dep, id))
  }

  ghost predicate AllKnown(jobs: seq<Job>) {
    forall dep, id | Declares(jobs, dep, id) :: dep in Ids(jobs)
  }

  /** The first loop of `BuildGraph`: a node for every job. */
  method AddNodes(g: Graph, jobs: seq<Job>)
    requires g.Valid() && g.nodes == {}
    modifies g
    ensures g.Valid() && g.nodes == Ids(jobs)
    ensures forall b | b in g.parents :: g.parents[b] == {}
  {
    var k := 0;
    while k < |jobs|
      invariant 0 <= k <= |jobs| && g.Valid() && g.nodes == Ids(jobs[..k])
      invariant forall b | b in g.parents :: g.parents[b] == {}
    {
      assert Ids(jobs[..k + 1]) == Ids(jobs[..k]) + {jobs[k].id} by {
        assert forall i | 0 <= i < k :: jobs[..k][i] == jobs[..k + 1][i];
        assert jobs[..k + 1][k] == jobs[k];
      }
      g.AddNode(jobs[k].id);
      k := k + 1;
    }
    assert jobs[..k] == jobs;
  }

  ghost predicate AllIn(deps: seq<string>, known: set<string>) {
    forall i | 0 <= i < |deps| :: deps[i] in known
  }

  /** The inner loop of `BuildGraph`: the edges into one job, unless a dependency is unknown. */
  method AddDependencies(g: Graph, known: set<string>, id: string, deps: seq<string>) returns (ok: bool)
    requires g.Valid() && g.nodes == known && id in known
    modifies g
    ensures g.Valid() && g.nodes == known
    ensures ok <==> AllIn(deps, known)
    ensures ok ==> g.parents == WithDependencies(old(g.parents), deps, id)
  {
    var k := 0;
    assert g.parents[id] + SetOf(deps[..0]) == g.parents[id];
    while k < |deps|
      invariant 0 <= k <= |deps| && g.Valid() && g.nodes == known
      invariant AllIn(deps[..k], known)
      invariant g.parents == WithDependencies(old(g.parents), deps[..k], id)
    {
      if deps[k] !in known {
        return false;
      }
      OneMoreDependency(old(g.parents), deps, k, id);
      g.AddEdge(deps[k], id);
      k := k + 1;
    }
    assert deps[..k] == deps;
    return true;
  }

  /** The parents after an edge from each of the dependencies to a known id. */
  ghost function WithDependencies(parents: Adjacency, deps: seq<string>, id: string): Adjacency
    requires id in parents
  {
    parents[id := parents[id] + SetOf(deps)]
  }

  lemma OneMoreDependency(parents: Adjacency, deps: seq<string>, k: nat, id: string)
    requires k < |deps| && id in parents && deps[k] in parents
    ensures WithDependencies(parents, deps[..k + 1], id) ==
            WithEdge(WithDependencies(parents, deps[..k], id), deps[k], id)
  {
    assert deps[..k + 1] == deps[..k] + [deps[k]];
    assert SetOf(deps[..k + 1]) == SetOf(deps[..k]) + {deps[k]};
    assert parents[id] + SetOf(deps[..k + 1]) == parents[id] + SetOf(deps[..k]) + {deps[k]};
  }

  /** The parents after the edges of each of the jobs, in turn. */
  ghost function WithJobs(parents: Adjacency, jobs: seq<Job>): (p: Adjacency)
    requires forall k | 0 <= k < |jobs| :: jobs[k].id in parents
    ensures p.Keys == parents.Keys
  {
    if jobs == [] then parents
    else
      var last := jobs[|jobs| - 1];
      WithDependencies(WithJobs(parents, jobs[..|jobs| - 1]), last.dependsOn, last.id)
  }

  lemma OneMoreJob(parents: Adjacency, jobs: seq<Job>, k: nat)
    requires k < |jobs| && forall i | 0 <= i < |jobs| :: jobs[i].id in parents
    ensures WithJobs(parents, jobs[..k + 1]) ==
            WithDependencies(WithJobs(parents, jobs[..k]), jobs[k].dependsOn, jobs[k].id)
  {
    assert jobs[..k + 1][..k] == jobs[..k];
  }

  lemma {:induction false} JobEdges(parents: Adjacency, jobs: seq<Job>, a: string, b: string)
    requires forall k | 0 <= k < |jobs| :: jobs[k].id in parents
    ensures Digraph(WithJobs(parents, jobs)).Edge(a, b) <==> Digraph(parents).Edge(a, b) || Declares(jobs, a, b)
  {
    if jobs != [] {
      var n := |jobs| - 1;
      JobEdges(parents, jobs[..n], a, b);
      DeclaresOneMore(jobs, n, a, b);
      assert jobs[..n + 1] == jobs;
    }
  }

  lemma DeclaresOneMore(jobs: seq<Job>, k: nat, dep: string, id: string)
    requires k < |jobs|
    ensures Declares(jobs[..k + 1], dep, id) <==>
            Declares(jobs[..k], dep, id) || (jobs[k].id == id && dep in jobs[k].dependsOn)
  {
  }

  /** The second loop of `BuildGraph`. */
  method AddEdges(g: Graph, known: set<string>, jobs: seq<Job>) returns (ok: bool)
    requires g.Valid() && g.nodes == known && forall i | 0 <= i < |jobs| :: jobs[i].id in known
    modifies g
    ensures g.Valid() && g.nodes == known
    ensures ok <==> forall i | 0 <= i < |jobs| :: AllIn(jobs[i].dependsOn, known)
    ensures ok ==> g.parents == WithJobs(old(g.parents), jobs)
  {
    var k := 0;
    while k < |jobs|
      invariant 0 <= k <= |jobs| && g.Valid() && g.nodes == known
      invariant forall i | 0 <= i < k :: AllIn(jobs[i].dependsOn, known)
      invariant g.parents == WithJobs(old(g.parents), jobs[..k])
    {
      ok := AddDependencies(g, known, jobs[k].id, jobs[k].dependsOn);
      if !ok {
        return;
      }
      OneMoreJob(old(g.parents), jobs, k);
      k := k + 1;
    }
    assert jobs[..k] == jobs;
    ok := true;
  }

  lemma AllKnownIff(jobs: seq<Job>)
    ensures AllKnown(jobs) <==> forall k | 0 <= k < |jobs| :: AllIn(jobs[k].dependsOn, Ids(jobs))
  {
    if AllKnown(jobs) {
      forall k, i | 0 <= k < |jobs| && 0 <= i < |jobs[k].dependsOn|
        ensures jobs[k].dependsOn[i] in Ids(jobs)
      {
        assert Declares(jobs, jobs[k].dependsOn[i], jobs[k].id);
      }
    }
  }

  lemma SameGraph(g: Digraph, jobs: seq<Job>)
    requires g.Valid() && g.nodes == Ids(jobs) && AllKnown(jobs)
    requires forall a, b :: g.Edge(a, b) <==> Declares(jobs, a, b)
    ensures g == Declared(jobs)
  {
    forall b | b in g.parents
      ensures g.parents[b] == Declared(jobs).parents[b]
    {
      forall a
        ensures a in g.parents[b] <==> a in Declared(jobs).parents[b]
      {
        assert g.Edge(a, b) <==> Declares(jobs, a, b);
      }
    }
    assert g.parents == Declared(jobs).parents;
  }

  /** `BuildGraph`: accepts exactly the job lists whose dependencies are known and acyclic. */
  method BuildGraph(jobs: seq<Job>) returns (r: BuildResult)
    ensures r.Built? <==> AllKnown(jobs) && Declared(jobs).Acyclic()
    ensures r == Rejected(UnknownDependency) <==> !AllKnown(jobs)
    ensures r.Built? ==> fresh(r.graph) && r.graph.Valid() && r.graph.Value() == Declared(jobs)
  {
    var g := new Graph();
    AddNodes(g, jobs);
    ghost var start := g.parents;
    assert forall a, b :: !Digraph(start).Edge(a, b);
    AllKnownIff(jobs);
    var ok := AddEdges(g, g.nodes, jobs);
    if !ok {
      return Rejected(UnknownDependency);
    }
    forall a, b
      ensures g.Value().Edge(a, b) <==> Declares(jobs, a, b)
    {
      JobEdges(start, jobs, a, b);
    }
    SameGraph(g.Value(), jobs);
    var order := g.TopoSort();
    if order.None? {
      return Rejected(Cycle);
    }
    return Built(g);
  }
}
