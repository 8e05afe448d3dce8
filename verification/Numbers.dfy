/** Powers of two, quotients, and the sizes of finite sets. */
module Numbers {
  function Pow2(n: nat): (p: nat)
    ensures p > 0
  {
    if n == 0 then 1 else 2 * Pow2(n - 1)
  }

  lemma {:induction false} Pow2Add(i: nat, j: nat)
    ensures Pow2(i + j) == Pow2(i) * Pow2(j)
    decreases i
  {
    if i > 0 {
      Pow2Add(i - 1, j);
      DoubleProduct(Pow2(i - 1), Pow2(j));
    }
  }

  lemma DoubleProduct(p: nat, q: nat)
    ensures 2 * p * q == 2 * (p * q)
  {
  }

  lemma Grows(d: nat, a: int, b: int)
    requires a < b
    ensures d * a + d <= d * b
  {
    var e := b - a - 1;
    assert d * (a + 1 + e) == d * a + d + d * e;
    assert d * e >= 0;
  }

  lemma SameQuotient(d: nat, q: int, r: nat, q': int, r': nat)
    requires d * q + r == d * q' + r' && r < d && r' < d
    ensures q == q' && r == r'
  {
    if q < q' {
      Grows(d, q, q');
    } else if q' < q {
      Grows(d, q', q);
    }
  }

  lemma QuotientIs(v: int, d: nat, q: int, r: nat)
    requires v == d * q + r && r < d
    ensures v / d == q && v % d == r
  {
    SameQuotient(d, q, r, v / d, v % d);
  }

  ghost function Range(lo: nat, hi: nat): (r: set<nat>)
    requires lo <= hi
    ensures |r| == hi - lo && forall a {:trigger a in r} :: a in r <==> lo <= a < hi
    decreases hi
  {
    if lo == hi then {} else Range(lo, hi - 1) + {hi - 1}
  }

  lemma {:induction false} SubsetSize<T>(a: set<T>, b: set<T>)
    requires a <= b
    ensures |a| <= |b| && (|a| == |b| ==> a == b)
    decreases |a|
  {
    if a != {} {
      var x :| x in a;
      SubsetSize(a - {x}, b - {x});
      assert a == a - {x} + {x} && b == b - {x} + {x};
    } else {
      assert |b| == 0 ==> b == {};
    }
  }
}
