/** Numbers as sequences of 16-bit digits, the least significant first. */
module Digits {
  import opened Words
  import opened Numbers

  function Pow(i: nat): (p: nat)
    ensures p > 0
  {
    if i == 0 then 1 else HALF * Pow(i - 1)
  }

  function Value(s: seq<u16>): nat {
    if s == [] then 0 else s[0] + HALF * Value(s[1..])
  }

  lemma ValueHead(s: seq<u16>)
    requires s != []
    ensures Value(s) == s[0] + HALF * Value(s[1..])
  {
  }

  lemma {:induction false} PowAdd(i: nat, j: nat)
    ensures Pow(i + j) == Pow(i) * Pow(j)
    decreases i
  {
    if i > 0 {
      PowAdd(i - 1, j);
      assert HALF * (Pow(i - 1) * Pow(j)) == (HALF * Pow(i - 1)) * Pow(j);
    }
  }

  lemma {:induction false} ValueJoin(s: seq<u16>, t: seq<u16>)
    ensures Value(s + t) == Value(s) + Pow(|s|) * Value(t)
    decreases |s|
  {
    if s == [] {
      assert s + t == t;
    } else {
      ValueJoin(s[1..], t);
      assert (s + t)[1..] == s[1..] + t;
      assert HALF * (Pow(|s| - 1) * Value(t)) == Pow(|s|) * Value(t);
    }
  }

  lemma ValueMore(s: seq<u16>, d: u16)
    ensures Value(s + [d]) == Value(s) + Pow(|s|) * d
  {
    assert Value([d]) == d by { assert [d][1..] == []; }
    hide Value, Pow;
    ValueJoin(s, [d]);
  }

  lemma {:induction false} ValueBound(s: seq<u16>)
    ensures Value(s) < Pow(|s|)
  {
    if s != [] { ValueBound(s[1..]); }
  }

  lemma {:induction false} ValueZeros(s: seq<u16>)
    requires forall i :: 0 <= i < |s| ==> s[i] == 0
    ensures Value(s) == 0
  {
    if s != [] { ValueZeros(s[1..]); }
  }

  // Without leading zeros.
  predicate Normal(s: seq<u16>) { s == [] || s[|s| - 1] != 0 }

  lemma NormalBound(s: seq<u16>)
    requires Normal(s) && s != []
    ensures Value(s) >= Pow(|s| - 1)
  {
    hide Value, Pow;
    var n := |s| - 1;
    assert s == s[..n] + [s[n]];
    ValueMore(s[..n], s[n]);
    assert Pow(n) * s[n] >= Pow(n);
  }

  lemma {:induction false} PowMonotone(i: nat, j: nat)
    requires i <= j
    ensures Pow(i) <= Pow(j)
    decreases j - i
  {
    if i < j { PowMonotone(i + 1, j); }
  }

  // A longer number is a greater one.
  lemma LongerIsGreater(s: seq<u16>, t: seq<u16>)
    requires |s| < |t| && Normal(t)
    ensures Value(s) < Value(t)
  {
    ValueBound(s);
    NormalBound(t);
    PowMonotone(|s|, |t| - 1);
  }

  // Of equally long ones the first difference from the top decides.
  lemma TopDecides(s: seq<u16>, t: seq<u16>, i: nat)
    requires |s| == |t| && i < |s| && s[i + 1..] == t[i + 1..] && s[i] < t[i]
    ensures Value(s) < Value(t)
  {
    hide Value, Pow;
    Split(s, i);
    Split(t, i);
    ValueBound(s[..i]);
    ValueHead(s[i..]);
    ValueHead(t[i..]);
    assert s[i..][1..] == s[i + 1..] && t[i..][1..] == t[i + 1..];
    ScaledLess(Pow(i), Value(s[..i]), Value(s[i..]), Value(t[i..]));
  }

  lemma ScaledLess(p: nat, low: nat, a: nat, b: nat)
    requires low < p && a < b
    ensures low + p * a < p * b
  {
    assert p * a + p == p * (a + 1) <= p * b;
  }

  lemma Split(s: seq<u16>, i: nat)
    requires i <= |s|
    ensures Value(s) == Value(s[..i]) + Pow(i) * Value(s[i..])
  {
    hide Value, Pow;
    assert s == s[..i] + s[i..];
    ValueJoin(s[..i], s[i..]);
  }

  lemma LowDigit(s: seq<u16>)
    requires s != []
    ensures s[0] == Value(s) % HALF && Value(s[1..]) == Value(s) / HALF
  {
  }

  // One number, one normal form.
  lemma {:induction false} Unique(s: seq<u16>, t: seq<u16>)
    requires Normal(s) && Normal(t) && Value(s) == Value(t)
    ensures s == t
    decreases |s|
  {
    if |s| < |t| { LongerIsGreater(s, t); }
    if |t| < |s| { LongerIsGreater(t, s); }
    if s != [] {
      LowDigit(s);
      LowDigit(t);
      Unique(s[1..], t[1..]);
      assert s == [s[0]] + s[1..] && t == [t[0]] + t[1..];
    }
  }

  // --- One step of each digit loop. ---

  // Adding: what the digits so far are short of the sum is the carry.
  lemma AddStep(v: nat, p: nat, a: nat, b: nat, c: nat, d: nat, c': nat, x: nat, y: nat)
    requires v + p * c == x + y && d + HALF * c' == c + a + b
    ensures v + p * d + (HALF * p) * c' == (x + p * a) + (y + p * b)
  {
    assert p * (d + HALF * c') == p * (c + a + b);
    assert p * d + (HALF * p) * c' == p * (d + HALF * c');
    assert p * (c + a + b) == p * c + p * a + p * b;
  }

  // Subtracting: the borrow makes up for what was taken too much.
  lemma SubStep(v: nat, p: nat, a: nat, b: nat, w: nat, d: nat, w': nat, x: nat, y: nat)
    requires v + y == x + p * w && d + b + w == a + HALF * w'
    ensures v + p * d + (y + p * b) == (x + p * a) + (HALF * p) * w'
  {
    assert p * (d + b + w) == p * (a + HALF * w');
    assert p * (d + b + w) == p * d + p * b + p * w;
    assert p * (a + HALF * w') == p * a + (HALF * p) * w';
  }

  // Multiplying by one digit m, onto what stands there.
  lemma MulStep(v: nat, p: nat, b: nat, o: nat, m: nat, c: nat, d: nat, c': nat, old': nat, y: nat)
    requires v + p * c == old' + m * y && d + HALF * c' == c + m * b + o
    ensures v + p * d + (HALF * p) * c' == (old' + p * o) + m * (y + p * b)
  {
    assert p * (d + HALF * c') == p * (c + m * b + o);
    assert p * d + (HALF * p) * c' == p * (d + HALF * c');
    assert p * (c + m * b + o) == p * c + p * (m * b) + p * o;
    assert m * (y + p * b) == m * y + m * (p * b) && p * (m * b) == m * (p * b);
  }

  // --- Whole additions and subtractions, digit by digit. ---

  function At(s: seq<u16>, i: nat): u16 { if i < |s| then s[i] else 0 }

  function Low(s: seq<u16>, i: nat): seq<u16> { if i <= |s| then s[..i] else s }

  lemma LowMore(s: seq<u16>, i: nat)
    ensures Value(Low(s, i + 1)) == Value(Low(s, i)) + Pow(i) * At(s, i)
  {
    if i < |s| {
      assert s[..i + 1] == s[..i] + [s[i]];
      ValueMore(s[..i], s[i]);
    } else {
      assert i == |s| ==> s[..i] == s;
    }
  }

  lemma LowBound(s: seq<u16>, i: nat)
    ensures Value(Low(s, i)) <= Value(s)
  {
    if i <= |s| { Split(s, i); }
  }

  // A number that small has no more digits.
  lemma LengthBound(s: seq<u16>, n: nat)
    requires Normal(s) && Value(s) < Pow(n)
    ensures |s| <= n
  {
    if |s| > n {
      NormalBound(s);
      PowMonotone(n, |s| - 1);
    }
  }

  lemma ZeroTop(s: seq<u16>)
    requires s != [] && s[|s| - 1] == 0
    ensures Value(s) < Pow(|s| - 1)
  {
    var n := |s| - 1;
    assert s == s[..n] + [0];
    ValueMore(s[..n], 0);
    ValueBound(s[..n]);
  }

  lemma NormalBy(s: seq<u16>)
    requires s != [] ==> Value(s) >= Pow(|s| - 1)
    ensures Normal(s)
  {
    if s != [] && s[|s| - 1] == 0 { ZeroTop(s); }
  }

  // ds are the lowest digits of the sum of xs and ys but for the carry.
  ghost predicate Adding(xs: seq<u16>, ys: seq<u16>, ds: seq<u16>, carry: nat) {
    var i := |ds|;
    && carry <= 1 && Value(ds) + Pow(i) * carry == Value(Low(xs, i)) + Value(Low(ys, i))
    && (i <= |ys| || Value(xs) + Value(ys) >= Pow(i - 1))
  }

  lemma AddingStart(xs: seq<u16>, ys: seq<u16>)
    ensures Adding(xs, ys, [], 0)
  {
  }

  lemma AddingStep(xs: seq<u16>, ys: seq<u16>, ds: seq<u16>, carry: nat)
    requires Adding(xs, ys, ds, carry) && (|ds| < |ys| || carry > 0)
    ensures var sum := carry + At(xs, |ds|) + At(ys, |ds|);
      sum / HALF <= 1 && Adding(xs, ys, ds + [sum % HALF], sum / HALF)
  {
    hide Value, Pow, Low;
    var i, sum := |ds|, carry + At(xs, |ds|) + At(ys, |ds|);
    LowMore(xs, i);
    LowMore(ys, i);
    ValueMore(ds, sum % HALF);
    PowNext(i);
    AddStep(Value(ds), Pow(i), At(xs, i), At(ys, i), carry, sum % HALF, sum / HALF, Value(Low(xs, i)),
      Value(Low(ys, i)));
    if i >= |ys| { CarryFits(xs, ys, ds, carry); }
  }

  lemma PowNext(i: nat)
    ensures Pow(i + 1) == HALF * Pow(i)
  {
  }

  lemma CarryFits(xs: seq<u16>, ys: seq<u16>, ds: seq<u16>, carry: nat)
    requires Adding(xs, ys, ds, carry) && carry > 0
    ensures Value(xs) + Value(ys) >= Pow(|ds|)
  {
    hide Value, Pow, Low;
    LowBound(xs, |ds|);
    LowBound(ys, |ds|);
  }

  lemma AddingFits(xs: seq<u16>, ys: seq<u16>, ds: seq<u16>, carry: nat, n: nat)
    requires Adding(xs, ys, ds, carry) && Normal(ys) && Value(xs) + Value(ys) < Pow(n) && |ds| <= n
    requires |ds| < |ys| || carry > 0
    ensures |ds| < n
  {
    if carry > 0 { CarryFits(xs, ys, ds, carry); } else { LengthBound(ys, n); }
  }

  lemma AddingEnd(xs: seq<u16>, ys: seq<u16>, ds: seq<u16>)
    requires Adding(xs, ys, ds, 0) && |ds| >= |ys| && Normal(xs) && Normal(ys)
    ensures var s := if |ds| < |xs| then ds + xs[|ds|..] else ds;
      Value(s) == Value(xs) + Value(ys) && Normal(s)
  {
    hide Value, Pow;
    var i := |ds|;
    assert Low(ys, i) == ys;
    if i < |xs| {
      ValueJoin(ds, xs[i..]);
      Split(xs, i);
      assert (ds + xs[i..])[|xs| - 1] == xs[|xs| - 1];
    } else {
      assert Low(xs, i) == xs;
      if i == |ys| && i > 0 { NormalBound(ys); }
      NormalBy(ds);
    }
  }

  // And of the difference, but for what was borrowed.
  ghost predicate Subtracting(xs: seq<u16>, ys: seq<u16>, ds: seq<u16>, borrow: nat) {
    var i := |ds|;
    borrow <= 1 && i <= |xs| && Value(ds) + Value(Low(ys, i)) == Value(Low(xs, i)) + Pow(i) * borrow
  }

  lemma SubtractingFits(xs: seq<u16>, ys: seq<u16>, ds: seq<u16>, borrow: nat)
    requires Subtracting(xs, ys, ds, borrow) && Normal(ys) && Value(xs) >= Value(ys)
    requires |ds| < |ys| || borrow > 0
    ensures |ds| < |xs|
  {
    var i := |ds|;
    if |ys| > |xs| { LongerIsGreater(xs, ys); }
    if i == |xs| {
      hide Value, Pow;
      assert Low(xs, i) == xs && Low(ys, i) == ys;
      ValueBound(ds);
    }
  }

  lemma SubtractingStart(xs: seq<u16>, ys: seq<u16>)
    ensures Subtracting(xs, ys, [], 0)
  {
  }

  lemma SubtractingStep(xs: seq<u16>, ys: seq<u16>, ds: seq<u16>, borrow: nat)
    requires Subtracting(xs, ys, ds, borrow) && |ds| < |xs|
    ensures var rest := HALF + xs[|ds|] - At(ys, |ds|) - borrow;
      0 <= rest < 2 * HALF && Subtracting(xs, ys, ds + [rest % HALF], 1 - rest / HALF)
  {
    hide Value, Pow, Low;
    var i, rest := |ds|, HALF + xs[|ds|] - At(ys, |ds|) - borrow;
    LowMore(xs, i);
    LowMore(ys, i);
    ValueMore(ds, rest % HALF);
    PowNext(i);
    SubStep(Value(ds), Pow(i), xs[i], At(ys, i), borrow, rest % HALF, 1 - rest / HALF, Value(Low(xs, i)),
      Value(Low(ys, i)));
  }

  lemma SubtractingEnd(xs: seq<u16>, ys: seq<u16>, ds: seq<u16>)
    requires Subtracting(xs, ys, ds, 0) && |ds| >= |ys|
    ensures Value(ds + xs[|ds|..]) == Value(xs) - Value(ys)
  {
    hide Value, Pow;
    var i := |ds|;
    assert Low(ys, i) == ys;
    ValueJoin(ds, xs[i..]);
    Split(xs, i);
  }

  // --- Multiplication by one more digit. ---

  lemma DigitSum(carry: nat, m: u16, b: u16, o: u16)
    requires carry < HALF
    ensures carry + m * b + o < WORD && (carry + m * b + o) / HALF < HALF
  {
    AtMost(m, b, HALF - 1);
    AtMost(HALF - 1, m, HALF - 1);
  }

  lemma AtMost(m: nat, a: nat, b: nat)
    requires a <= b
    ensures m * a <= m * b
  {
  }

  // low are the lowest digits of was and m times ys, but for the carry.
  ghost predicate Rowing(low: seq<u16>, was: seq<u16>, ys: seq<u16>, m: u16, carry: nat) {
    && |low| <= |was| == |ys| && carry < HALF
    && Value(low) + Pow(|low|) * carry == Value(was[..|low|]) + m * Value(ys[..|low|])
  }

  // carry + m * b + o
  function MulAdd(carry: nat, m: nat, b: nat, o: nat): nat { carry + m * b + o }

  lemma RowingStart(was: seq<u16>, ys: seq<u16>, m: u16)
    requires |was| == |ys|
    ensures Rowing([], was, ys, m, 0)
  {
    assert was[..0] == [] && ys[..0] == [];
  }

  lemma RowingEnd(low: seq<u16>, was: seq<u16>, ys: seq<u16>, m: u16, carry: nat)
    requires Rowing(low, was, ys, m, carry) && |low| == |was|
    ensures carry < HALF && Value(low + [carry]) == Value(was) + m * Value(ys)
  {
    hide Value, Pow;
    assert was[..|low|] == was && ys[..|low|] == ys;
    ValueMore(low, carry);
  }

  lemma MulRowStep(low: seq<u16>, was: seq<u16>, ys: seq<u16>, m: u16, carry: nat)
    requires Rowing(low, was, ys, m, carry) && |low| < |was|
    ensures var sum := MulAdd(carry, m, ys[|low|], was[|low|]);
      sum < WORD && Rowing(low + [sum % HALF], was, ys, m, sum / HALF)
  {
    var j := |low|;
    var sum := MulAdd(carry, m, ys[j], was[j]);
    DigitSum(carry, m, ys[j], was[j]);
    PowNext(j);
    hide Value, Pow;
    assert was[..j + 1] == was[..j] + [was[j]] && ys[..j + 1] == ys[..j] + [ys[j]];
    ValueMore(low, sum % HALF);
    ValueMore(was[..j], was[j]);
    ValueMore(ys[..j], ys[j]);
    MulStep(Value(low), Pow(j), ys[j], was[j], m, carry, sum % HALF, sum / HALF, Value(was[..j]), Value(ys[..j]));
  }

  lemma MulRowSum(before: seq<u16>, after: seq<u16>, xs: seq<u16>, y: nat, i: nat)
    requires i < |xs| && i <= |before| && i <= |after| && after[..i] == before[..i]
    requires Value(after[i..]) == Value(before[i..]) + xs[i] * y
    requires Value(before) == Value(xs[..i]) * y
    ensures Value(after) == Value(xs[..i + 1]) * y
  {
    hide Value, Pow;
    Split(before, i);
    Split(after, i);
    assert xs[..i + 1] == xs[..i] + [xs[i]];
    ValueMore(xs[..i], xs[i]);
    RowSum(Value(before), Value(after), Value(before[..i]), Pow(i), Value(before[i..]), Value(after[i..]),
           Value(xs[..i]), Value(xs[..i + 1]), xs[i], y);
  }

  lemma RowSum(before: nat, after: nat, low: nat, p: nat, b: nat, a: nat, x: nat, x': nat, m: nat, y: nat)
    requires before == low + p * b && after == low + p * a && a == b + m * y && before == x * y && x' == x + p * m
    ensures after == x' * y
  {
    assert p * a == p * b + p * (m * y);
    assert x' * y == x * y + (p * m) * y && (p * m) * y == p * (m * y);
  }

  // --- Bits. ---

  lemma Sixteen()
    ensures Pow2(16) == HALF
  {
    assert Pow2(4) == 16;
    Pow2Add(4, 4);
    Pow2Add(8, 8);
  }

  lemma {:induction false} PowIs(i: nat)
    ensures Pow(i) == Pow2(16 * i)
  {
    if i > 0 {
      PowIs(i - 1);
      Sixteen();
      Pow2Add(16, 16 * (i - 1));
    }
  }

  function Bit(v: nat, n: nat): bool { v / Pow2(n) % 2 == 1 }

  lemma DivTwice(v: nat, a: nat, b: nat)
    requires a > 0 && b > 0
    ensures a * b > 0 && v / (a * b) == v / a / b
  {
    var q, r := v / a, v % a;
    var q', r' := q / b, q % b;
    TwoQuotients(v, a, b, q, r, q', r');
    QuotientIs(v, a * b, q', a * r' + r);
  }

  lemma TwoQuotients(v: nat, a: nat, b: nat, q: nat, r: nat, q': nat, r': nat)
    requires v == a * q + r && r < a && q == b * q' + r' && r' < b
    ensures v == (a * b) * q' + (a * r' + r) && a * r' + r < a * b
  {
    assert a * q == a * (b * q') + a * r' && a * (b * q') == (a * b) * q';
    Grows(a, r', b);
  }

  // Dropping whole digits divides by their power.
  lemma DropDigits(s: seq<u16>, i: nat)
    requires i <= |s|
    ensures Value(s) / Pow(i) == Value(s[i..])
  {
    hide Value, Pow;
    Split(s, i);
    ValueBound(s[..i]);
    QuotientIs(Value(s), Pow(i), Value(s[i..]), Value(s[..i]));
  }

  // A bit of a number is a bit of one of its digits.
  lemma BitOfDigit(s: seq<u16>, n: nat)
    ensures Bit(Value(s), n) <==> n / 16 < |s| && Bit(s[n / 16], n % 16)
  {
    var i, k := n / 16, n % 16;
    Pow2Add(16 * i, k);
    PowIs(i);
    hide Pow;
    DivTwice(Value(s), Pow(i), Pow2(k));
    if i < |s| {
      DropDigits(s, i);
      ValueHead(s[i..]);
      assert s[i..][0] == s[i];
      LowBits(s[i], Value(s[i..][1..]), k);
    } else {
      ValueBound(s);
      PowMonotone(|s|, i);
      hide Value;
      QuotientIs(Value(s), Pow(i), 0, Value(s));
      QuotientIs(0, Pow2(k), 0, 0);
    }
  }

  // Bits below the sixteenth do not see what stands above.
  lemma LowBits(d: u16, rest: nat, k: nat)
    requires k < 16
    ensures (d + HALF * rest) / Pow2(k) % 2 == d / Pow2(k) % 2
  {
    Sixteen();
    Pow2Add(k, 16 - k);
    assert Pow2(16 - k) == 2 * Pow2(15 - k);
    hide Pow2;
    LowBitsOf(d, rest, Pow2(k), Pow2(15 - k));
  }

  lemma LowBitsOf(d: u16, rest: nat, p: nat, q: nat)
    requires p > 0 && HALF == p * (2 * q)
    ensures (d + HALF * rest) / p % 2 == d / p % 2
  {
    Regroup(p, q, rest, d / p);
    EvenPart(d + HALF * rest, d / p, q * rest, d % p, p);
  }

  lemma EvenPart(v: nat, a: nat, b: nat, r: nat, p: nat)
    requires r < p && v == p * (a + 2 * b) + r
    ensures v / p % 2 == a % 2
  {
    QuotientIs(v, p, a + 2 * b, r);
  }

  lemma Regroup(p: nat, q: nat, rest: nat, a: nat)
    ensures p * (a + 2 * (q * rest)) == p * a + (p * (2 * q)) * rest
  {
    assert (p * (2 * q)) * rest == p * ((2 * q) * rest) == p * (2 * (q * rest));
  }

  // --- Shifting right by k bits within digits. ---

  lemma AtLeast(w: nat, h: nat, hi: nat)
    requires hi >= h
    ensures w * hi >= w * h
  {
    assert w * hi == w * h + w * (hi - h);
  }

  lemma ShiftWidths(k: nat)
    requires 0 < k <= 16
    ensures Pow2(k) * Pow2(16 - k) == HALF
  {
    Sixteen();
    Pow2Add(k, 16 - k);
  }

  // The two parts that a digit falls into: tmp << n within the digit, and tmp >> n.
  function Lower(d: u16, h: nat): nat { d * h % HALF }

  function Upper(d: u16, w: nat): nat
    requires w > 0
  {
    d / w
  }

  lemma ShiftDigit(d: u16, w: nat, h: nat)
    requires w > 0 && w * h == HALF
    ensures d / w < h && d * h % HALF == (d % w) * h <= HALF - h
  {
    var hi, lo := d / w, d % w;
    assert d == w * hi + lo;
    if hi >= h { AtLeast(w, h, hi); }
    Grows(h, lo, w);
    Spread(w, hi, lo, h);
    QuotientIs(d * h, HALF, hi, lo * h);
  }

  lemma Spread(w: nat, hi: nat, lo: nat, h: nat)
    ensures (w * hi + lo) * h == (w * h) * hi + lo * h && (w * h > 0 ==> h > 0)
  {
    assert (w * hi) * h == (w * h) * hi;
  }

  // One more digit d of the number shifted, u being HALF times p.
  lemma ShiftSum(v: nat, p: nat, u: nat, w: nat, h: nat, hi: nat, lo: nat, low: nat, carry: nat, d: nat, out: nat)
    requires w > 0 && w * h == HALF && u == HALF * p
    requires low + p * carry == v / w && d == w * hi + lo && out == lo * h + carry
    ensures (low + p * out) + u * hi == (v + u * d) / w
  {
    ShiftedWhole(v, p, u, w, h, hi, lo, d);
    assert p * out == p * (h * lo) + p * carry by {
      Swapped(lo, h, 1);
      Sums(p, h * lo, carry, 0);
    }
  }

  lemma ShiftedWhole(v: nat, p: nat, u: nat, w: nat, h: nat, hi: nat, lo: nat, d: nat)
    requires w > 0 && w * h == HALF && u == HALF * p && d == w * hi + lo
    ensures (v + u * d) / w == v / w + u * hi + p * (h * lo)
  {
    var q, r := v / w, v % w;
    assert u * d == w * (u * hi) + w * (p * (h * lo)) by {
      Sums(u, w * hi, lo, 0);
      Swapped(w, u, hi);
      Regrouped(w, h, p, lo);
    }
    Sums(w, q, u * hi, p * (h * lo));
    QuotientIs(v + u * d, w, q + u * hi + p * (h * lo), r);
  }

  lemma Swapped(a: nat, b: nat, c: nat)
    ensures a * (b * c) == b * (a * c)
  {
  }

  lemma Regrouped(a: nat, b: nat, c: nat, d: nat)
    ensures a * (c * (b * d)) == (a * b) * (c * d)
  {
    Swapped(a, c, b * d);
    assert a * (b * d) == (a * b) * d;
    Swapped(c, a * b, d);
  }

  lemma Sums(a: nat, b: nat, c: nat, d: nat)
    ensures a * (b + c + d) == a * b + a * c + a * d
  {
  }

  // low are the lowest digits of tail shifted, but for the carry.
  ghost predicate Shifting(low: seq<u16>, tail: seq<u16>, w: nat, h: nat, carry: nat) {
    && |low| < |tail| && w > 0 && w * h == HALF && carry < h
    && Value(low) + Pow(|low|) * carry == Value(tail[..|low| + 1]) / w
  }

  lemma ShiftStart(tail: seq<u16>, w: nat, h: nat)
    requires tail != [] && w > 0 && w * h == HALF
    ensures Shifting([], tail, w, h, Upper(tail[0], w))
  {
    assert tail[..1][1..] == [];
    ShiftDigit(tail[0], w, h);
  }

  lemma ShiftMore(low: seq<u16>, tail: seq<u16>, w: nat, h: nat, carry: nat)
    requires Shifting(low, tail, w, h, carry) && |low| + 1 < |tail|
    ensures var d := tail[|low| + 1];
      Lower(d, h) + carry < HALF && Shifting(low + [Lower(d, h) + carry], tail, w, h, Upper(d, w))
  {
    hide Value, Pow;
    var m := |low| + 1;
    var d, out := tail[m], tail[m] * h % HALF + carry;
    ShiftDigit(d, w, h);
    PowNext(m - 1);
    assert tail[..m + 1] == tail[..m] + [d];
    ValueMore(tail[..m], d);
    ValueMore(low, out);
    ShiftSum(Value(tail[..m]), Pow(m - 1), Pow(m), w, h, d / w, d % w, Value(low), carry, d, out);
  }

  lemma ShiftEnd(low: seq<u16>, s: seq<u16>, dig: nat, k: nat, carry: nat)
    requires dig < |s| && 0 < k <= 16 && |low| == |s| - dig - 1
    requires Shifting(low, s[dig..], Pow2(k), Pow2(16 - k), carry)
    ensures carry < HALF && Value(low + [carry]) == Value(s) / Pow2(16 * dig + k)
  {
    PowIs(dig);
    Pow2Add(16 * dig, k);
    Sixteen();
    Pow2Add(k, 16 - k);
    hide Value, Pow, Pow2;
    AtLeast(Pow2(16 - k), 1, Pow2(k));
    assert s[dig..][..|low| + 1] == s[dig..];
    DropDigits(s, dig);
    DivTwice(Value(s), Pow(dig), Pow2(k));
    ValueMore(low, carry);
  }

  // Bits from the top: a number has n of them.
  ghost predicate HasBits(v: nat, n: nat) {
    v < Pow2(n) && (n > 0 ==> v >= Pow2(n - 1))
  }

  lemma TopBit(d: u16, b: nat)
    requires 0 < b <= 16 && d < Pow2(b)
    ensures Bit(d, b - 1) <==> d >= Pow2(b - 1)
  {
    assert Pow2(b) == 2 * Pow2(b - 1);
    hide Pow2;
    var p := Pow2(b - 1);
    if d >= p { QuotientIs(d, p, 1, d - p); } else { QuotientIs(d, p, 0, d); }
  }

  // The bits of a number are those of its top digit and sixteen for each digit below.
  lemma BitsOfTop(s: seq<u16>, b: nat)
    requires s != [] && 0 < b <= 16 && HasBits(s[|s| - 1], b)
    ensures HasBits(Value(s), 16 * (|s| - 1) + b)
  {
    hide Value, Pow, Pow2;
    var n := |s| - 1;
    PowIs(n);
    Pow2Add(16 * n, b);
    Pow2Add(16 * n, b - 1);
    assert s == s[..n] + [s[n]];
    ValueMore(s[..n], s[n]);
    ValueBound(s[..n]);
    ScaledLess(Pow(n), Value(s[..n]), s[n], Pow2(b));
    AtLeast(Pow(n), Pow2(b - 1), s[n]);
  }
}
