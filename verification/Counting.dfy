/** Sizes of finite sets. */
module Counting {

  lemma {:induction false} SubsetSize<A>(a: set<A>, b: set<A>)
    requires a <= b
    ensures |a| <= |b| && (|a| == |b| ==> a == b)
  {
    if a != {} {
      var x :| x in a;
      SubsetSize(a - {x}, b - {x});
    }
  }

  lemma UnionSize<A>(a: set<A>, b: set<A>, c: set<A>)
    requires c == a + b && a !! b
    ensures |c| == |a| + |b|
  {
  }

  /** f sends different elements to different ones. */
  ghost predicate Injects<A(!new), B(!new)>(from: set<A>, f: map<A, B>, into: set<B>) {
    && (forall a | a in from :: a in f && f[a] in into)
    && (forall a, b | a in from && b in from && f[a] == f[b] :: a == b)
  }

  lemma {:induction false} InjectionSize<A(!new), B(!new)>(from: set<A>, f: map<A, B>, into: set<B>)
    requires Injects(from, f, into)
    ensures |from| <= |into|
    ensures (forall y | y in into :: exists a :: a in from && f[a] == y) ==> |from| == |into|
    decreases |from|
  {
    if from != {} {
      var x :| x in from;
      var from', into' := from - {x}, into - {f[x]};
      InjectionSize(from', f, into');
      if forall y | y in into :: exists a :: a in from && f[a] == y {
        forall y | y in into'
          ensures exists a :: a in from' && f[a] == y
        {
          var a :| a in from && f[a] == y;
          assert a in from';
        }
      }
    }
  }
}
