/** Division of polynomials over GF(2): on paper, and by a shift register that takes one bit, a block of
    bits or a table at a time. */
module BinaryDivision {
  type Bits = seq<bool>

  // --- Polynomials over GF(2): coefficients, highest first. ---

  function Zeros(n: nat): (z: Bits)
    ensures |z| == n
  {
    seq(n, _ => false)
  }

  function Ones(n: nat): (z: Bits)
    ensures |z| == n
  {
    seq(n, _ => true)
  }

  function Plus(a: Bits, b: Bits): (c: Bits)
    requires |a| == |b|
    ensures |c| == |a|
  {
    seq(|a|, i requires 0 <= i < |a| => a[i] != b[i])
  }

  function Complement(a: Bits): (c: Bits)
    ensures |c| == |a|
  {
    seq(|a|, i requires 0 <= i < |a| => !a[i])
  }

  function Reverse(a: Bits): (r: Bits)
    ensures |r| == |a|
  {
    seq(|a|, i requires 0 <= i < |a| => a[|a| - 1 - i])
  }

  // g stands for the monic polynomial of degree |g| with these lower coefficients.
  function Times(q: Bits, g: Bits): (p: Bits)
    ensures |p| == |q| + |g|
  {
    if q == [] then Zeros(|g|)
    else Plus(if q[0] then [true] + g + Zeros(|q| - 1) else Zeros(|q| + |g|), [false] + Times(q[1..], g))
  }

  // What one step of a long division leaves.
  function Reduced(p: Bits, g: Bits): (rest: Bits)
    requires |p| > |g|
    ensures |rest| == |p| - 1
  {
    if p[0] then Plus(p[1..], g + Zeros(|p| - 1 - |g|)) else p[1..]
  }

  function Remainder(p: Bits, g: Bits): (r: Bits)
    requires |p| >= |g|
    ensures |r| == |g|
    decreases |p|
  {
    if |p| == |g| then p
    else Remainder(Reduced(p, g), g)
  }

  function Quotient(p: Bits, g: Bits): (q: Bits)
    requires |p| >= |g|
    ensures |q| == |p| - |g|
    decreases |p|
  {
    if |p| == |g| then []
    else [p[0]] + Quotient(Reduced(p, g), g)
  }

  // What a step adds to the product of quotient and divisor.
  lemma StepIs(p: Bits, g: Bits, t: Bits, r: Bits)
    requires |p| > |g| == |r| && |t| == |p| - 1
    ensures Reduced(p, g) == Plus(t, Zeros(|p| - 1 - |g|) + r)
      <==> p == Plus(Plus(if p[0] then [true] + g + Zeros(|p| - 1 - |g|) else Zeros(|p|), [false] + t),
        Zeros(|p| - |g|) + r)
  {
    var s, b := Plus(t, Zeros(|p| - 1 - |g|) + r), g + Zeros(|p| - 1 - |g|);
    if p[0] {
      ProductWith(g, t, r);
      PlusBack(p[1..], b, s);
    } else {
      ProductWithout(g, t, r);
    }
    hide Plus, Zeros;
    assert p == [p[0]] + p[1..];
  }

  lemma ProductWith(g: Bits, t: Bits, r: Bits)
    requires |t| >= |g| == |r|
    ensures var k := |t| - |g|;
      Plus(Plus([true] + g + Zeros(k), [false] + t), Zeros(k + 1) + r)
        == [true] + Plus(Plus(t, Zeros(k) + r), g + Zeros(k))
  {
  }

  lemma ProductWithout(g: Bits, t: Bits, r: Bits)
    requires |t| >= |g| == |r|
    ensures var k := |t| - |g|;
      Plus(Plus(Zeros(|t| + 1), [false] + t), Zeros(k + 1) + r) == [false] + Plus(t, Zeros(k) + r)
  {
  }

  lemma PlusBack(a: Bits, b: Bits, c: Bits)
    requires |a| == |b| == |c|
    ensures Plus(a, b) == c <==> a == Plus(c, b)
  {
    assert Plus(Plus(a, b), b) == a && Plus(Plus(c, b), b) == c;
  }

  lemma {:induction false} DivisionIs(p: Bits, g: Bits)
    requires |p| >= |g|
    ensures p == Plus(Times(Quotient(p, g), g), Zeros(|p| - |g|) + Remainder(p, g))
    decreases |p|
  {
    if |p| > |g| {
      var q := Quotient(p, g);
      assert q[1..] == Quotient(Reduced(p, g), g);
      DivisionIs(Reduced(p, g), g);
      StepIs(p, g, Times(q[1..], g), Remainder(p, g));
    }
  }

  // The remainder is the only polynomial of lower degree that differs from p by a multiple of g.
  lemma {:induction false} RemainderUnique(p: Bits, g: Bits, q: Bits, r: Bits)
    requires |p| == |q| + |g| && |r| == |g| && p == Plus(Times(q, g), Zeros(|q|) + r)
    ensures r == Remainder(p, g)
    decreases |p|
  {
    if q == [] {
      assert r == p;
    } else {
      assert q[0] == p[0];
      StepIs(p, g, Times(q[1..], g), r);
      RemainderUnique(Reduced(p, g), g, q[1..], r);
    }
  }

  // --- Division by a shift register. ---

  function Step(r: Bits, g: Bits): (s: Bits)
    requires |r| == |g| > 0
    ensures |s| == |g|
  {
    if r[0] then Plus(r[1..] + [false], g) else r[1..] + [false]
  }

  function Steps(r: Bits, k: nat, g: Bits): (s: Bits)
    requires |r| == |g| > 0
    ensures |s| == |g|
    decreases k
  {
    if k == 0 then r else Steps(Step(r, g), k - 1, g)
  }

  // The register after the bits m, each added to its high end.
  function Register(r: Bits, m: Bits, g: Bits): (s: Bits)
    requires |r| == |g| > 0
    ensures |s| == |g|
    decreases |m|
  {
    if m == [] then r else Register(Step([r[0] != m[0]] + r[1..], g), m[1..], g)
  }

  // What the register computes: m is followed by zeros and its first bits are changed by the initial r.
  function Dividend(r: Bits, m: Bits): Bits { Plus(m + Zeros(|r|), r + Zeros(|m|)) }

  lemma {:induction false} RegisterIsRemainder(r: Bits, m: Bits, g: Bits)
    requires |r| == |g| > 0
    ensures Register(r, m, g) == Remainder(Dividend(r, m), g)
    decreases |m|
  {
    if m == [] {
      assert Dividend(r, m) == r;
    } else {
      var s := Step([r[0] != m[0]] + r[1..], g);
      RegisterIsRemainder(s, m[1..], g);
      StepReduces(r, m, g);
    }
  }

  lemma StepReduces(r: Bits, m: Bits, g: Bits)
    requires |r| == |g| > 0 && m != []
    ensures Dividend(Step([r[0] != m[0]] + r[1..], g), m[1..]) == Reduced(Dividend(r, m), g)
  {
    assert Dividend(r, m)[1..] == Plus(m[1..] + Zeros(|r|), r[1..] + [false] + Zeros(|m| - 1));
  }

  lemma {:induction false} RegisterJoins(r: Bits, a: Bits, b: Bits, g: Bits)
    requires |r| == |g| > 0
    ensures Register(r, a + b, g) == Register(Register(r, a, g), b, g)
    decreases |a|
  {
    if a == [] {
      assert a + b == b;
    } else {
      assert (a + b)[1..] == a[1..] + b;
      RegisterJoins(Step([r[0] != a[0]] + r[1..], g), a[1..], b, g);
    }
  }

  // A block of bits may be added at once.
  lemma {:induction false} RegisterAtOnce(r: Bits, m: Bits, g: Bits)
    requires |m| <= |r| == |g| && |g| > 0
    ensures Register(r, m, g) == Steps(Plus(r, m + Zeros(|r| - |m|)), |m|, g)
    decreases |m|
  {
    var x := Plus(r, m + Zeros(|r| - |m|));
    if m == [] {
      assert x == r;
    } else {
      var s := Step([r[0] != m[0]] + r[1..], g);
      RegisterAtOnce(s, m[1..], g);
      RegisterStep(r, m, g);
    }
  }

  lemma RegisterStep(r: Bits, m: Bits, g: Bits)
    requires 0 < |m| <= |r| == |g|
    ensures var s := Step([r[0] != m[0]] + r[1..], g);
      Plus(s, m[1..] + Zeros(|r| - (|m| - 1))) == Step(Plus(r, m + Zeros(|r| - |m|)), g)
  {
  }

  lemma {:induction false} StepsLinear(a: Bits, b: Bits, k: nat, g: Bits)
    requires |a| == |b| == |g| > 0
    ensures Steps(Plus(a, b), k, g) == Plus(Steps(a, k, g), Steps(b, k, g))
    decreases k
  {
    if k > 0 {
      assert Step(Plus(a, b), g) == Plus(Step(a, g), Step(b, g));
      StepsLinear(Step(a, g), Step(b, g), k - 1, g);
    }
  }

  lemma {:induction false} StepsShift(k: nat, high: Bits, g: Bits)
    requires k + |high| == |g| > 0
    ensures Steps(Zeros(k) + high, k, g) == high + Zeros(k)
    decreases k
  {
    if k > 0 {
      assert Step(Zeros(k) + high, g) == Zeros(k - 1) + (high + [false]);
      StepsShift(k - 1, high + [false], g);
      assert high + [false] + Zeros(k - 1) == high + Zeros(k);
    } else {
      assert Zeros(k) + high == high + Zeros(k);
    }
  }

  // The step by table: the low bits select a row, the high ones are shifted down.
  lemma StepsByTable(low: Bits, high: Bits, g: Bits)
    requires |low| + |high| == |g| > 0
    ensures Steps(low + high, |low|, g) == Plus(high + Zeros(|low|), Steps(low + Zeros(|high|), |low|, g))
  {
    Apart(low, high);
    hide *;
    StepsLinear(Zeros(|low|) + high, low + Zeros(|high|), |low|, g);
    StepsShift(|low|, high, g);
  }

  lemma Apart(low: Bits, high: Bits)
    ensures low + high == Plus(Zeros(|low|) + high, low + Zeros(|high|))
  {
  }
}
