/** Sizes of finite sets. */
module Sets {

  lemma {:induction false} SubsetIsSmaller<T>(a: set<T>, b: set<T>)
    requires a <= b
    ensures |a| <= |b|
    ensures a < b ==> |a| < |b|
  {
    if a != {} {
      var x :| x in a;
      SubsetIsSmaller(a - {x}, b - {x});
    }
  }

  lemma OneMore<T>(s: set<T>, e: T)
    ensures |s + {e}| == |s| + if e in s then 0 else 1
    ensures s + {} == s
  {
    if e in s { assert s + {e} == s; }
  }

  lemma {:induction false} FreshNumber(s: set<nat>) returns (n: nat)
    ensures n !in s && forall m | m in s :: m < n
  {
    if s == {} {
      n := 0;
    } else {
      var x :| x in s;
      n := FreshNumber(s - {x});
      n := if n <= x then x + 1 else n;
      assert s == (s - {x}) + {x};
    }
  }

  lemma TwoOf<T>(s: set<T>) returns (x: T, y: T)
    requires |s| >= 2
    ensures x in s && y in s && x != y
  {
    x :| x in s;
    assert |s - {x}| >= 1;
    assert s - {x} != {};
    y :| y in s - {x};
  }
}
