/** Finite directed graphs over job IDs: cycles, topological orders, and the least of them. */
module Digraph {
  import opened Counting
  import opened Ordering

  /** A graph given by the nodes with an edge into each node. */
  datatype Digraph = Digraph(parents: map<string, set<string>>) {
    ghost const nodes: set<string> := parents.Keys

    ghost predicate Valid() {
      forall v | v in parents :: parents[v] <= nodes
    }

    ghost predicate Edge(u: string, v: string) {
      v in parents && u in parents[v]
    }

    /** The nodes that may come next once `done` is finished. */
    ghost function Available(done: set<string>): set<string> {
      set v | v in nodes && v !in done && parents[v] <= done
    }

    /** A closed walk along edges; a self-loop is the shortest one. */
    ghost predicate IsCycle(walk: seq<string>) {
      |walk| >= 2 && walk[0] == walk[|walk| - 1] && IsWalk(walk)
    }

    ghost predicate IsWalk(walk: seq<string>) {
      forall i, j | 0 <= i < |walk| && 0 <= j < |walk| && j == i + 1 :: Edge(walk[i], walk[j])
    }

    ghost predicate Acyclic() {
      !exists walk :: IsCycle(walk)
    }

    /** All nodes, each once, and every edge leading forward. */
    ghost predicate IsTopological(order: seq<string>) {
      && Distinct(order)
      && SetOf(order) == nodes
      && forall i, j | 0 <= i < |order| && 0 <= j < |order| && Edge(order[i], order[j]) :: i < j
    }

    /** Each element is the smallest of those available after the ones before it. */
    ghost predicate IsGreedy(order: seq<string>) {
      forall i | 0 <= i < |order| ::
        && order[i] in Available(SetOf(order[..i]))
        && forall v | v in Available(SetOf(order[..i])) :: !Less(v, order[i])
    }
  }

  ghost function SetOf(s: seq<string>): set<string> {
    set x | x in s
  }

  /** a comes before b, or equals it, in the lexicographic order on sequences of IDs. */
  ghost predicate LexAtMost(a: seq<string>, b: seq<string>) {
    a == b || exists i :: 0 <= i < |a| && i < |b| && a[..i] == b[..i] && Less(a[i], b[i])
  }

  lemma {:induction false} DistinctSize(s: seq<string>)
    requires Distinct(s)
    ensures |SetOf(s)| == |s|
  {
    if s != [] {
      var init, last := s[..|s| - 1], s[|s| - 1];
      DistinctSize(init);
      assert SetOf(s) == SetOf(init) + {last};
      assert last !in SetOf(init);
    }
  }

  lemma GreedyIsDistinct(g: Digraph, order: seq<string>)
    requires g.IsGreedy(order)
    ensures Distinct(order) && SetOf(order) <= g.nodes
  {
  }

  /** A greedy order of all nodes is topological. */
  lemma GreedyIsTopological(g: Digraph, order: seq<string>)
    requires g.Valid() && g.IsGreedy(order) && SetOf(order) == g.nodes
    ensures g.IsTopological(order)
  {
  }

  /** And no topological order is smaller. */
  lemma GreedyIsLeast(g: Digraph, order: seq<string>, other: seq<string>)
    requires g.Valid() && g.IsGreedy(order) && SetOf(order) == g.nodes && g.IsTopological(other)
    ensures LexAtMost(order, other)
  {
    GreedyIsDistinct(g, order);
    DistinctSize(order);
    DistinctSize(other);
    if order != other {
      var i := FirstDifference(order, other);
      NextIsAvailable(g, other, i);
      LessTotal(order[i], other[i]);
    }
  }

  lemma {:induction false} FirstDifference(a: seq<string>, b: seq<string>) returns (i: nat)
    requires |a| == |b| && a != b
    ensures i < |a| && a[..i] == b[..i] && a[i] != b[i]
  {
    i := 0;
    while i < |a| && a[i] == b[i]
      invariant i <= |a| && forall k | 0 <= k < i :: a[k] == b[k]
    {
      i := i + 1;
    }
  }

  lemma NextIsAvailable(g: Digraph, order: seq<string>, i: nat)
    requires g.Valid() && g.IsTopological(order) && i < |order|
    ensures order[i] in g.Available(SetOf(order[..i]))
  {
  }

  /** Edges only lead forward in a topological order, so none leads back. */
  lemma TopologicalIsAcyclic(g: Digraph, order: seq<string>)
    requires g.Valid() && g.IsTopological(order)
    ensures g.Acyclic()
  {
    forall walk | g.IsCycle(walk)
      ensures false
    {
      var n := |walk| - 1;
      assert g.Edge(walk[0], walk[1]);
      assert walk[0] in SetOf(order);
      var first :| 0 <= first < |order| && order[first] == walk[0];
      var last := WalkGoesForward(g, order, walk, first, n);
    }
  }

  lemma {:induction false} WalkGoesForward(g: Digraph, order: seq<string>, walk: seq<string>, first: nat, n: nat)
      returns (at: nat)
    requires g.Valid() && g.IsTopological(order) && n < |walk|
    requires g.IsWalk(walk)
    requires first < |order| && order[first] == walk[0]
    ensures at < |order| && order[at] == walk[n] && first + n <= at
  {
    if n == 0 {
      at := first;
    } else {
      var before := WalkGoesForward(g, order, walk, first, n - 1);
      assert g.Edge(walk[n - 1], walk[n]);
      assert walk[n] in SetOf(order);
      at :| 0 <= at < |order| && order[at] == walk[n];
    }
  }

  /** parent leads from each node of the set to a parent of it in the set. */
  ghost predicate StaysInside(g: Digraph, stuck: set<string>, parent: map<string, string>) {
    && stuck <= parent.Keys
    && forall v {:trigger parent[v]} | v in stuck :: parent[v] in stuck && g.Edge(parent[v], v)
  }

  /** If every node of a non-empty set has a parent in it, following parents ends up in a cycle. */
  lemma StuckMeansCycle(g: Digraph, stuck: set<string>, parent: map<string, string>)
    requires stuck != {} && StaysInside(g, stuck, parent)
    ensures !g.Acyclic()
  {
    var walk := BackwardWalk(g, stuck, parent, |stuck|);
    var i, j := Repetition(walk, stuck);
    assert g.IsCycle(walk[i..j + 1]);
  }

  lemma {:induction false} BackwardWalk(g: Digraph, stuck: set<string>, parent: map<string, string>, n: nat)
      returns (walk: seq<string>)
    requires stuck != {} && StaysInside(g, stuck, parent)
    ensures |walk| == n + 1 && g.IsWalk(walk) && forall i | 0 <= i <= n :: walk[i] in stuck
  {
    if n == 0 {
      var v :| v in stuck;
      walk := [v];
    } else {
      var rest := BackwardWalk(g, stuck, parent, n - 1);
      walk := [parent[rest[0]]] + rest;
    }
  }

  /** When nothing is available and something is left, what is left holds a cycle. */
  lemma NothingAvailable(g: Digraph, done: set<string>)
    requires g.Valid() && done <= g.nodes && done != g.nodes && g.Available(done) == {}
    ensures !g.Acyclic()
  {
    var stuck := g.nodes - done;
    assert stuck != {} by {
      var v :| v in g.nodes && v !in done;
      assert v in stuck;
    }
    assert forall v | v in stuck :: v !in g.Available(done);
    var parent := map v | v in stuck :: UnfinishedParent(g, done, v);
    StuckMeansCycle(g, stuck, parent);
  }

  ghost function UnfinishedParent(g: Digraph, done: set<string>, v: string): (u: string)
    requires g.Valid() && v in g.nodes && v !in done && v !in g.Available(done)
    ensures u in g.nodes - done && g.Edge(u, v)
  {
    var u :| u in g.parents[v] && u !in done;
    u
  }

  /** A sequence longer than the set its elements come from repeats one of them. */
  lemma {:induction false} Repetition(walk: seq<string>, s: set<string>) returns (i: nat, j: nat)
    requires |walk| > |s| && forall k | 0 <= k < |walk| :: walk[k] in s
    ensures i < j < |walk| && walk[i] == walk[j]
  {
    if !Distinct(walk) {
      i, j :| 0 <= i < j < |walk| && walk[i] == walk[j];
    } else {
      DistinctSize(walk);
      SubsetSize(SetOf(walk), s);
      assert false;
    }
  }
}
