/** Facts about sequences and sets that several components need. */
module Collections {

  predicate Distinct<T(==)>(s: seq<T>) {
    forall i, j | 0 <= i < j < |s| :: s[i] != s[j]
  }

  lemma Any<T>(s: set<T>) returns (x: T)
    requires s != {}
    ensures x in s
  {
    x :| x in s;
  }

  lemma SubsetSize<T>(a: set<T>, b: set<T>)
    requires a <= b
    ensures |a| <= |b|
    ensures |a| == |b| ==> a == b
  {
    var rest := b - a;
    assert b == a + rest && |b| == |a| + |rest|;
  }

  predicate IsLeast(s: set<int>, r: int) {
    r in s && forall t | t in s :: r <= t
  }

  lemma {:induction false} LeastExists(s: set<int>)
    requires s != {}
    ensures exists r :: IsLeast(s, r)
    decreases |s|
  {
    var x := Any(s);
    var rest := s - {x};
    if rest == {} {
      assert s == {x} && IsLeast(s, x);
    } else {
      LeastExists(rest);
      var r :| IsLeast(rest, r);
      forall t | t in s ensures t == x || t in rest {}
      assert IsLeast(s, if x < r then x else r);
    }
  }

  ghost function Least(s: set<int>): (r: int)
    requires s != {}
    ensures IsLeast(s, r)
  {
    LeastExists(s);
    var r :| IsLeast(s, r);
    r
  }

  lemma {:induction false} SizeOfDistinct<T>(s: seq<T>)
    requires Distinct(s)
    ensures |set x | x in s| == |s|
  {
    if s != [] {
      var n := |s| - 1;
      SizeOfDistinct(s[..n]);
      assert (set x | x in s) == (set x | x in s[..n]) + {s[n]};
    }
  }
}
