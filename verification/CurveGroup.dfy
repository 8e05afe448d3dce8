/** ecjacobian::mul of src/shared/crypto.cpp over any commutative group, and the two sides of the
    challenge that players authenticate with. The point formulas are not part of this model: `plus`
    stands for add and for mul2, which adds a point to itself. */
module CurveGroup {
  import opened Numbers
  import opened Digits
  import opened PrimeField

  datatype Group<!Point> = Group(plus: (Point, Point) -> Point, origin: Point)

  ghost predicate Abelian<Point(!new)>(g: Group<Point>) {
    && (forall a :: g.plus(g.origin, a) == a)
    && (forall a, b :: g.plus(a, b) == g.plus(b, a))
    && (forall a, b, c :: g.plus(g.plus(a, b), c) == g.plus(a, g.plus(b, c)))
  }

  // p taken n times.
  function Multiple<Point>(g: Group<Point>, p: Point, n: nat): Point {
    if n == 0 then g.origin else g.plus(Multiple(g, p, n - 1), p)
  }

  lemma {:induction false} MultipleAdd<Point(!new)>(g: Group<Point>, p: Point, m: nat, n: nat)
    requires Abelian(g)
    ensures Multiple(g, p, m + n) == g.plus(Multiple(g, p, m), Multiple(g, p, n))
    decreases n
  {
    if n == 0 {
      assert g.plus(Multiple(g, p, m), g.origin) == g.plus(g.origin, Multiple(g, p, m));
    } else {
      MultipleAdd(g, p, m, n - 1);
      assert g.plus(g.plus(Multiple(g, p, m), Multiple(g, p, n - 1)), p)
        == g.plus(Multiple(g, p, m), g.plus(Multiple(g, p, n - 1), p));
    }
  }

  lemma {:induction false} MultipleMultiple<Point(!new)>(g: Group<Point>, p: Point, m: nat, n: nat)
    requires Abelian(g)
    ensures Multiple(g, Multiple(g, p, m), n) == Multiple(g, p, m * n)
    decreases n
  {
    hide Abelian;
    if n > 0 {
      MultipleMultiple(g, p, m, n - 1);
      MultipleAdd(g, p, m * (n - 1), m);
      assert m * (n - 1) + m == m * n;
    } else {
      assert m * n == 0;
    }
  }

  // The bits of q from the n-th up.
  function High(q: nat, n: nat): nat { Over(q, Pow2(n)) }

  function Over(q: nat, d: nat): nat
    requires d > 0
  {
    q / d
  }

  // ecjacobian::mul: from the top bit down, doubling and adding.
  method Mul<Point(!new)>(g: Group<Point>, p: Point, q: nat) returns (r: Point)
    requires Abelian(g)
    ensures r == Multiple(g, p, q)
  {
    r := g.origin;
    var i := NumBits(q);
    TopBits(q, i);
    assert r == Multiple(g, p, High(q, i));
    hide *;
    while i > 0
      invariant r == Multiple(g, p, High(q, i))
    {
      i := i - 1;
      NextBit(g, p, q, i);
      r := g.plus(r, r);
      if Bit(q, i) { r := g.plus(r, p); }
    }
    HighAll(q);
  }

  lemma HighAll(q: nat)
    ensures High(q, 0) == q
  {
  }

  lemma NextBit<Point(!new)>(g: Group<Point>, p: Point, q: nat, i: nat)
    requires Abelian(g)
    ensures var half := Multiple(g, p, High(q, i + 1));
      Multiple(g, p, High(q, i)) == if Bit(q, i) then g.plus(g.plus(half, half), p) else g.plus(half, half)
  {
    MultipleOne(g, p);
    BitBelow(q, i);
    hide *;
    var n := High(q, i + 1);
    MultipleAdd(g, p, n, n);
    MultipleAdd(g, p, 2 * n, 1);
  }

  lemma MultipleOne<Point(!new)>(g: Group<Point>, p: Point)
    requires Abelian(g)
    ensures Multiple(g, p, 1) == p
  {
    assert Multiple(g, p, 0) == g.origin;
  }

  lemma TopBits(q: nat, n: nat)
    requires HasBits(q, n)
    ensures High(q, n) == 0
  {
    QuotientIs(q, Pow2(n), 0, q);
  }

  lemma BitBelow(q: nat, i: nat)
    ensures High(q, i) == 2 * (High(q, i + 1)) + if Bit(q, i) then 1 else 0
  {
    Pow2Next(i);
    hide Pow2;
    DivTwice(q, Pow2(i), 2);
  }

  // --- The challenge. ---

  // genprivkey makes the public key, the base taken `key` times. genchallenge takes it `challenge`
  // times and expects that for an answer to the base taken `challenge` times, of which
  // answerchallenge takes `key` times.
  lemma ChallengeAgrees<Point(!new)>(g: Group<Point>, base: Point, key: nat, challenge: nat)
    requires Abelian(g)
    ensures Multiple(g, Multiple(g, base, challenge), key) == Multiple(g, Multiple(g, base, key), challenge)
  {
    hide Abelian;
    MultipleMultiple(g, base, key, challenge);
    MultipleMultiple(g, base, challenge, key);
    assert key * challenge == challenge * key;
  }
}
