/** The field modulo the P-192 prime in src/shared/crypto.cpp: fast reduction, powers, square roots
    and inverses, on the numbers that bigints stand for. */
module PrimeField {
  import opened Words
  import opened Numbers
  import opened Digits

  const W: nat := 0x1_0000000000000000  // 2^64
  const W2: nat := 0x1_0000000000000000_0000000000000000
  const W3: nat := 0x1_0000000000000000_0000000000000000_0000000000000000
  const P: nat := 0xffffffffffffffff_fffffffffffffffe_ffffffffffffffff

  // --- Fast reduction (FIPS 186-4, Appendix D.2.1). ---

  // A value below 2^384: its low 192 bits and the three 64-bit words above.
  datatype Wide = Wide(low: nat, w3: nat, w4: nat, w5: nat)

  predicate IsWide(x: Wide) { x.low < W3 && x.w3 < W && x.w4 < W && x.w5 < W }

  function Total(x: Wide): nat { x.low + W3 * (x.w3 + W * x.w4 + W2 * x.w5) }

  function Parted(v: nat): Wide {
    Wide(v % W3, v / W3 % W, v / W3 / W % W, v / W3 / W2)
  }

  lemma PartedTotal(v: nat)
    requires v < W3 * W3
    ensures IsWide(Parted(v)) && Total(Parted(v)) == v
  {
    var h := v / W3;
    assert h / W / W == h / W2;
  }

  // gfield::add: one subtraction of P at most.
  function Plus(a: nat, b: nat): nat { if a + b >= P then a + b - P else a + b }

  // gfield::reduce: the words above the 192nd bit are folded onto those below, one after another.
  function Reduced(x: Wide): nat {
    var s1, s2, s3 := (W + 1) * x.w3, (W2 + W) * x.w4, (W2 + W + 1) * x.w5;
    if Total(x) < W3 then (if x.low >= P then x.low - P else x.low) else
      var r1 := Plus(x.low, s1);
      if x.w4 == 0 && x.w5 == 0 then r1 else
        var r2 := Plus(r1, s2);
        if x.w5 == 0 then r2 else Plus(r2, s3)
  }

  lemma SameResidue(a: nat, b: nat, k: int)
    requires a == b + P * k
    ensures a % P == b % P
  {
    var q, r := b / P, b % P;
    assert a == P * (q + k) + r;
  }

  // Folding the high words takes away a multiple of P.
  lemma Folds(x: Wide)
    ensures Total(x) ==
      x.low + (W + 1) * x.w3 + (W2 + W) * x.w4 + (W2 + W + 1) * x.w5 + P * (x.w3 + W * x.w4 + (W2 + 1) * x.w5)
  {
  }

  lemma PlusBy(a: nat, b: nat) returns (k: int)
    ensures a + b == Plus(a, b) + P * k
  {
    k := if a + b >= P then 1 else 0;
  }

  lemma ReducedBy(x: Wide) returns (k: int)
    requires IsWide(x)
    ensures Total(x) == Reduced(x) + P * k
  {
    hide Plus;
    var s1, s2, s3 := (W + 1) * x.w3, (W2 + W) * x.w4, (W2 + W + 1) * x.w5;
    Folds(x);
    k := x.w3 + W * x.w4 + (W2 + 1) * x.w5;
    if Total(x) < W3 {
      if x.low >= P { k := k + 1; }
      return;
    }
    var r1, r2 := Plus(x.low, s1), Plus(Plus(x.low, s1), s2);
    var k1 := PlusBy(x.low, s1);
    var k2, k3 := 0, 0;
    if x.w4 != 0 || x.w5 != 0 { k2 := PlusBy(r1, s2); }
    if x.w5 != 0 { k3 := PlusBy(r2, s3); }
    k := k + k1 + k2 + k3;
  }

  // The result is congruent to the value and fits in 192 bits,
  lemma ReducedIsCongruent(x: Wide)
    requires IsWide(x)
    ensures Reduced(x) % P == Total(x) % P && Reduced(x) < W3
  {
    var k := ReducedBy(x);
    hide Reduced, Total;
    SameResidue(Total(x), Reduced(x), k);
  }

  // but need not be below P: exactly for these values it is not.
  predicate LeftOver(x: Wide) {
    || (x.w5 == 0 && x.w4 == W - 1 && Total(x) % P == 0)
    || (x.w5 == W - 1 && (Total(x) % P < W || (Total(x) % P == W && x.w4 == W - 1 && Total(x.(w5 := 0)) % P == 0)))
  }

  lemma ResidueOf(v: nat, r: nat)
    requires v % P == r % P && r < 2 * P
    ensures v % P == if r < P then r else r - P
  {
  }

  lemma WithoutTop(x: Wide)
    requires IsWide(x) && x.w5 == 0
    ensures Reduced(x) <= P && (Reduced(x) == P <==> x.w4 == W - 1 && Total(x) % P == 0)
  {
    ReducedIsCongruent(x);
    ResidueOf(Total(x), Reduced(x));
  }

  lemma ReducedIsLess(x: Wide)
    requires IsWide(x)
    ensures Reduced(x) < P <==> !LeftOver(x)
  {
    if x.w5 == 0 {
      WithoutTop(x);
    } else {
      var y := x.(w5 := 0);
      WithoutTop(y);
      ReducedIsCongruent(x);
      ReducedIsCongruent(y);
      ResidueOf(Total(x), Reduced(x));
      ResidueOf(Total(y), Reduced(y));
    }
  }

  lemma TotalParted(x: Wide)
    requires IsWide(x)
    ensures Parted(Total(x)) == x
  {
    var h := x.w3 + W * x.w4 + W2 * x.w5;
    assert Total(x) / W3 == h && Total(x) % W3 == x.low;
    assert h / W == x.w4 + W * x.w5 && h / W2 == x.w5;
  }

  // Squaring P - 1, which is -1, does not give 1.
  lemma SquareOfMinusOne()
    ensures Reduced(Parted((P - 1) * (P - 1))) == P + 1
  {
    var x := Wide(W2 + 4 * W + 4, W - 4, W - 3, W - 1);
    assert Total(x) == (P - 1) * (P - 1);
    TotalParted(x);
    assert Reduced(x) == P + 1;
  }

  // gfield::mul
  function Times(a: nat, b: nat): nat { Reduced(Parted(a * b)) }

  lemma ProductFits(a: nat, b: nat)
    requires a < W3 && b < W3
    ensures a * b < W3 * W3
  {
    AtLeast(a, b, W3);
  }

  lemma SameProduct(a: nat, a': nat, b: nat, b': nat)
    requires a % P == a' % P && b % P == b' % P
    ensures (a * b) % P == (a' * b') % P
  {
    var q, q', s, s' := a / P, a' / P, b / P, b' / P;
    var r, t := a % P, b % P;
    Residues(a, b, q, r, s, t);
    Residues(a', b', q', r, s', t);
  }

  lemma Residues(a: nat, b: nat, q: nat, r: nat, s: nat, t: nat)
    requires a == P * q + r && b == P * s + t
    ensures (a * b) % P == (r * t) % P
  {
    var k := q * b + r * s;
    assert a * b == P * (q * b) + r * b && r * b == P * (r * s) + r * t;
    SameResidue(a * b, r * t, k);
  }

  lemma TimesIsProduct(a: nat, b: nat)
    requires a < W3 && b < W3
    ensures Times(a, b) < W3 && Times(a, b) % P == (a * b) % P
  {
    ProductFits(a, b);
    PartedTotal(a * b);
    ReducedIsCongruent(Parted(a * b));
  }

  // --- Powers. ---

  function Power(x: nat, n: nat): nat { if n == 0 then 1 else x * Power(x, n - 1) }

  lemma {:induction false} PowerAdd(x: nat, m: nat, n: nat)
    ensures Power(x, m + n) == Power(x, m) * Power(x, n)
    decreases m
  {
    if m > 0 {
      PowerAdd(x, m - 1, n);
      PowerNext(x, m - 1);
      PowerNext(x, m - 1 + n);
      hide Power;
      Associative(x, Power(x, m - 1), Power(x, n));
    }
  }

  lemma PowerNext(x: nat, m: nat)
    ensures Power(x, m + 1) == x * Power(x, m)
  {
  }

  lemma Associative(a: nat, b: nat, c: nat)
    ensures a * (b * c) == (a * b) * c
  {
  }

  function NumBits(y: nat): (n: nat)
    ensures HasBits(y, n)
  {
    if y == 0 then 0 else 1 + NumBits(y / 2)
  }

  // The low bits of the exponent, one more at a time.
  lemma BitMore(y: nat, i: nat)
    ensures y % Pow2(i + 1) == y % Pow2(i) + if Bit(y, i) then Pow2(i) else 0
  {
    var p, q, r := Pow2(i), y / Pow2(i), y % Pow2(i);
    hide Pow2;
    assert Pow2(i + 1) == 2 * p by { Pow2Next(i); }
    var h, b := q / 2, q % 2;
    assert y == p * (2 * h + b) + r;
    assert p * (2 * h + b) == (2 * p) * h + p * b;
    QuotientIs(y, 2 * p, h, p * b + r);
  }

  lemma Pow2Next(i: nat)
    ensures Pow2(i + 1) == 2 * Pow2(i)
  {
  }

  // What pow's two variables hold: x squared i times over, and the product of those for the bits of y
  // below i, each product reduced as it comes.
  function Squared(x: nat, i: nat): nat {
    if i == 0 then x else Times(Squared(x, i - 1), Squared(x, i - 1))
  }

  function Chain(x: nat, y: nat, i: nat): nat
    requires i > 0
  {
    if i == 1 then if Bit(y, 0) then x else 1
    else if Bit(y, i - 1) then Times(Chain(x, y, i - 1), Squared(x, i - 1))
    else Chain(x, y, i - 1)
  }

  function Width(y: nat): (n: nat)
    ensures n > 0 && HasBits(y, if y == 0 then 0 else n)
  {
    if y == 0 then 1 else NumBits(y)
  }

  // So the second is the power modulo P.
  lemma {:induction false} ChainIsPower(x: nat, y: nat, i: nat)
    requires x < W3 && i > 0
    ensures Squared(x, i - 1) < W3 && Squared(x, i - 1) % P == Power(x, Pow2(i - 1)) % P
    ensures Chain(x, y, i) < W3 && Chain(x, y, i) % P == Power(x, y % Pow2(i)) % P
    decreases i
  {
    hide Power, Pow2, Times, Bit;
    if i == 1 {
      LowBit(y, x);
    } else {
      ChainIsPower(x, y, i - 1);
      SquareStep(Squared(x, i - 2), x, i - 1);
      BitMore(y, i - 1);
      if Bit(y, i - 1) { ProductStep(Chain(x, y, i - 1), Squared(x, i - 1), x, y, i - 1); }
    }
  }

  lemma PowerIs(x: nat, y: nat)
    requires x < W3
    ensures Chain(x, y, Width(y)) < W3 && Chain(x, y, Width(y)) % P == Power(x, y) % P
  {
    hide Power, Pow2, Chain, Squared, HasBits;
    ChainIsPower(x, y, Width(y));
    BelowPower(y, if y == 0 then 0 else Width(y), Width(y));
  }

  lemma SquareStep(a: nat, x: nat, i: nat)
    requires i > 0 && a < W3 && a % P == Power(x, Pow2(i - 1)) % P
    ensures Times(a, a) < W3 && Times(a, a) % P == Power(x, Pow2(i)) % P
  {
    hide Power, Pow2, Times;
    TimesIsProduct(a, a);
    SameProduct(a, Power(x, Pow2(i - 1)), a, Power(x, Pow2(i - 1)));
    Pow2Next(i - 1);
    PowerAdd(x, Pow2(i - 1), Pow2(i - 1));
  }

  lemma ProductStep(r: nat, a: nat, x: nat, y: nat, i: nat)
    requires r < W3 && a < W3 && r % P == Power(x, y % Pow2(i)) % P && a % P == Power(x, Pow2(i)) % P
    ensures Times(r, a) < W3 && Times(r, a) % P == Power(x, y % Pow2(i) + Pow2(i)) % P
  {
    hide Power, Pow2, Times;
    TimesIsProduct(r, a);
    SameProduct(r, Power(x, y % Pow2(i)), a, Power(x, Pow2(i)));
    PowerAdd(x, y % Pow2(i), Pow2(i));
  }

  lemma {:induction false} BelowPower(y: nat, n: nat, i: nat)
    requires HasBits(y, n) && n <= i
    ensures y < Pow2(i) && y % Pow2(i) == y
    decreases i - n
  {
    if n < i {
      BelowPower(y, n, i - 1);
      Pow2Next(i - 1);
    }
    QuotientIs(y, Pow2(i), 0, y);
  }

  lemma LowBit(y: nat, x: nat)
    ensures Pow2(0) == 1 && Power(x, 0) == 1 && Power(x, Pow2(0)) == x && Power(x, 1) == x
    ensures y % Pow2(1) == if Bit(y, 0) then 1 else 0
  {
  }

  // --- Square roots. ---

  const HALF_ORDER: nat := (P - 1) / 2
  const QUARTER_ORDER: nat := (P + 1) / 4

  // Euler's criterion for x, which holds because P is prime.
  ghost predicate Euler(x: nat) {
    var e := Power(x, HALF_ORDER) % P;
    (e == 0 <==> x % P == 0) && (e == 0 || e == 1 || e == P - 1)
  }

  // The last product of x^HALF_ORDER comes out as P or more. This much about x decides whether a
  // square of the field is refused.
  predicate Refused(x: nat) {
    var n := NumBits(HALF_ORDER);
    n > 1 && LeftOver(Parted(Chain(x, HALF_ORDER, n - 1) * Squared(x, n - 1)))
  }

  lemma TopOn(y: nat)
    requires y > 1
    ensures var n := NumBits(y); n > 1 && Bit(y, n - 1)
  {
    var n := NumBits(y);
    assert n > 1;
    assert Pow2(n) == 2 * Pow2(n - 1);
    hide NumBits, Pow2;
    QuotientIs(y, Pow2(n - 1), 1, y - Pow2(n - 1));
  }

  // The last step of the power is a product, and only that can leave P or more.
  lemma PowerComesOut(x: nat, l: nat)
    requires x < W3 && l % P == Power(x, HALF_ORDER) % P && l == Chain(x, HALF_ORDER, Width(HALF_ORDER))
    ensures l == Power(x, HALF_ORDER) % P + if Refused(x) then P else 0
  {
    hide Power, Bit, NumBits, Chain, Squared, LeftOver, Reduced;
    TopOn(HALF_ORDER);
    var n := NumBits(HALF_ORDER);
    ChainIsPower(x, HALF_ORDER, n - 1);
    ChainIsPower(x, HALF_ORDER, n);
    ProductComesOut(Chain(x, HALF_ORDER, n - 1), Squared(x, n - 1), l, Power(x, HALF_ORDER));
    ChainTop(x, HALF_ORDER, n);
  }

  lemma ChainTop(x: nat, y: nat, n: nat)
    requires n > 1 && Bit(y, n - 1)
    ensures Chain(x, y, n) == Times(Chain(x, y, n - 1), Squared(x, n - 1))
  {
  }

  lemma ProductComesOut(f: nat, g: nat, l: nat, v: nat)
    requires f < W3 && g < W3
    ensures l == Times(f, g) && l % P == v % P ==> l == v % P + if LeftOver(Parted(f * g)) then P else 0
  {
    hide LeftOver, Reduced;
    ProductFits(f, g);
    PartedTotal(f * g);
    ReducedIsLess(Parted(f * g));
    ReducedIsCongruent(Parted(f * g));
    if l == Times(f, g) && l % P == v % P { ResidueOf(v, l); }
  }

  // P + 1 is 1 in the field, and is refused although 1 is its root; so is P, which is 0.
  lemma RefusesOne()
    ensures (1 * 1) % P == (P + 1) % P && P + 1 < W3
    ensures Euler(P + 1) && Power(P + 1, HALF_ORDER) % P == 1 && Refused(P + 1)
  {
    hide Power, Refused, Times, LeftOver;
    SquareOfPlusOne();
    StaysLeftOver(P + 1);
    PowerOfOne(HALF_ORDER);
  }

  // A number that is its own square, left over, is refused.
  lemma StaysLeftOver(x: nat)
    requires LeftOver(Parted(x * x)) && Times(x, x) == x
    ensures Refused(x)
  {
    hide NumBits, Chain, Squared, Bit, LeftOver, Times, Parted;
    TopOn(HALF_ORDER);
    OddHalf();
    Unchanged(x, HALF_ORDER, NumBits(HALF_ORDER) - 1);
  }

  lemma OddHalf()
    ensures Bit(HALF_ORDER, 0)
  {
    assert Pow2(0) == 1;
  }

  lemma SquareOfPlusOne()
    ensures LeftOver(Parted((P + 1) * (P + 1))) && Times(P + 1, P + 1) == P + 1
  {
    var x := Wide(W2, 0, W - 2, W - 1);
    assert Total(x) == (P + 1) * (P + 1);
    TotalParted(x);
    assert Reduced(x) == P + 1;
    ReducedIsLess(x);
  }

  lemma {:induction false} Unchanged(x: nat, y: nat, i: nat)
    requires Bit(y, 0) && i > 0 && Times(x, x) == x
    ensures Squared(x, i) == x && Chain(x, y, i) == x
  {
    hide Times, Bit;
    assert Squared(x, 0) == x;
    if i > 1 { Unchanged(x, y, i - 1); }
  }

  lemma {:induction false} PowerOfOne(n: nat)
    ensures Power(P + 1, n) % P == 1
  {
    if n > 0 {
      PowerOfOne(n - 1);
      hide Power;
      SameProduct(P + 1, 1, Power(P + 1, n - 1), 1);
    }
  }

  lemma RefusesZero()
    ensures (0 * 0) % P == P % P && P < W3
    ensures Euler(P) && Power(P, HALF_ORDER) % P == 0 && Refused(P)
  {
    hide Power, Refused, Times, LeftOver;
    SquareOfP();
    StaysLeftOver(P);
    PowerOfP(HALF_ORDER);
  }

  lemma PowerOfP(n: nat)
    requires n > 0
    ensures Power(P, n) % P == 0
  {
    hide Power;
    PowerAdd(P, 1, n - 1);
    LowBit(0, P);
    SameProduct(P, 0, Power(P, n - 1), Power(P, n - 1));
  }

  lemma SquareOfP()
    ensures LeftOver(Parted(P * P)) && Times(P, P) == P
  {
    var x := Wide(W2 + 2 * W + 1, W - 2, W - 3, W - 1);
    assert Total(x) == P * P;
    TotalParted(x);
    assert Reduced(x) == P;
    ReducedIsLess(x);
  }

  // The constant B of the curve is so far below P that adding it leaves less than P, whatever it is added
  // to: calcy, the one caller of sqrt, hands over such a sum.
  const CURVE_B: nat := 0x64210519_e59c80e7_0fa7e9ab_72243049_feb8deec_c146b9b1

  lemma SumWithB(v: nat)
    requires v < W3
    ensures Plus(v, CURVE_B) < P
  {
  }

  lemma RootSquared(x: nat)
    requires Power(x, HALF_ORDER) % P == 1
    ensures (Power(x, QUARTER_ORDER) * Power(x, QUARTER_ORDER)) % P == x % P
  {
    hide Power;
    PowerAdd(x, QUARTER_ORDER, QUARTER_ORDER);
    PowerAdd(x, 1, HALF_ORDER);
    LowBit(0, x);
    SameProduct(x, x, Power(x, HALF_ORDER), 1);
  }

  // --- Inverses: binary extended Euclid with shifts put off. ---

  ghost predicate Divides(d: nat, n: nat)
    requires d > 0
  {
    n % d == 0
  }

  ghost predicate Coprime(a: nat, b: nat) {
    forall d: nat {:trigger Divides(d, a)} {:trigger Divides(d, b)} :: d > 1 ==> !(Divides(d, a) && Divides(d, b))
  }

  // The factors A and C keep A x = u and C x = v modulo P.
  ghost predicate Represents(a: nat, x: nat, u: nat) { (a * x) % P == u % P }

  lemma HalfResidue(m: nat, n: nat)
    requires (2 * m) % P == (2 * n) % P
    ensures m % P == n % P
  {
    var k := (2 * m) / P - (2 * n) / P;
    assert 2 * m == 2 * n + P * k;
    assert k % 2 == 0;
    SameResidue(m, n, k / 2);
  }

  // One bit of u shifted out: its factor is halved too, made even first if need be.
  lemma HalfStep(a: nat, x: nat, u: nat, a': nat)
    requires Represents(a, x, 2 * u) && 2 * a' == if a % 2 == 0 then a else a + P
    ensures Represents(a', x, u)
  {
    Associative(2, a', x);
    if a % 2 != 0 {
      Distributes(a, P, x);
      SameResidue(2 * (a' * x), a * x, x);
    }
    HalfResidue(a' * x, u);
  }

  lemma Distributes(a: nat, b: nat, x: nat)
    ensures (a + b) * x == a * x + b * x
  {
  }

  lemma Difference(a: nat, c: nat, x: nat, u: nat, v: nat, a': nat)
    requires Represents(a, x, u) && Represents(c, x, v) && u >= v
    requires a' == if a < c then a + P - c else a - c
    requires a < P && c < P
    ensures Represents(a', x, u - v) && a' < P
  {
    var k := if a < c then 1 else 0;
    var i, j := (a * x) / P - u / P, (c * x) / P - v / P;
    assert a * x == u + P * i && c * x == v + P * j;
    assert a' * x == a * x - c * x + P * (k * x);
    SameResidue(a' * x, u - v, i - j + k * x);
  }

  // rshift, which must not be asked to shift everything out.
  function Shifted(v: nat, n: nat): nat
    requires v == 0 || Pow2(n) <= v
  {
    v / Pow2(n)
  }

  lemma ShiftBack(v: nat, w: nat, n: nat)
    requires v == w * Pow2(n)
    ensures v / Pow2(n) == w && (Bit(v, n) <==> w % 2 == 1) && (v == 0 || Pow2(n) <= v)
    ensures w % 2 == 0 ==> v == (w / 2) * Pow2(n + 1)
  {
    Pow2Next(n);
    hide Pow2;
    QuotientIs(v, Pow2(n), w, 0);
    if w > 0 { AtLeast(Pow2(n), 1, w); }
    var h := w / 2;
    assert h * (2 * Pow2(n)) == (2 * h) * Pow2(n);
  }

  lemma DividesDouble(d: nat, n: nat)
    requires d > 0 && Divides(d, n)
    ensures Divides(d, 2 * n)
  {
    QuotientIs(2 * n, d, 2 * (n / d), 0);
  }

  // Where the inner loops are: the factors 2 counted in ushift and ashift are still in u and b, and
  // without them these are uu and aa.
  ghost predicate Deferred(u: nat, b: nat, x: nat, uu: nat, aa: nat, ushift: nat, ashift: nat) {
    && u == uu * Pow2(ushift) && 0 < uu <= u
    && b == aa * Pow2(ashift) && b < 2 * P && aa < P && Represents(aa, x, uu)
    && forall d: nat {:trigger Divides(d, uu)} :: d > 1 && Divides(d, uu) ==> Divides(d, u)
  }

  lemma DeferredStart(u: nat, a: nat, x: nat)
    requires u > 0 && a < P && Represents(a, x, u)
    ensures Deferred(u, a, x, u, a, 0, 0)
  {
    PowZero();
    hide Represents, Divides, Pow2;
  }

  // What the bits tested tell.
  lemma DeferredBits(u: nat, b: nat, x: nat, uu: nat, aa: nat, ushift: nat, ashift: nat)
    requires Deferred(u, b, x, uu, aa, ushift, ashift)
    ensures (Bit(u, ushift) <==> uu % 2 == 1) && (Bit(b, ashift) <==> aa % 2 == 1)
    ensures (b == 0 || Pow2(ashift) <= b) && Shifted(b, ashift) == aa
    ensures (u == 0 || Pow2(ushift) <= u) && Shifted(u, ushift) == uu
    ensures uu <= u && aa < P && Represents(aa, x, uu)
    ensures forall d: nat {:trigger Divides(d, uu)} :: d > 1 && Divides(d, uu) ==> Divides(d, u)
  {
    hide Represents, Divides, Pow2, Bit;
    ShiftBack(u, uu, ushift);
    ShiftBack(b, aa, ashift);
  }

  // A further factor 2: the factor b is made even by adding P, where its own are first shifted out.
  lemma DeferredStep(u: nat, b: nat, x: nat, uu: nat, aa: nat, ushift: nat, ashift: nat, next: nat)
    requires Deferred(u, b, x, uu, aa, ushift, ashift) && uu % 2 == 0 && 2 * next == if aa % 2 == 0 then aa else aa + P
    ensures 0 < uu / 2 < uu
    ensures if aa % 2 == 0 then Deferred(u, b, x, uu / 2, next, ushift + 1, ashift + 1)
      else Deferred(u, aa + P, x, uu / 2, next, ushift + 1, 1)
  {
    hide Represents, Divides, Pow2, Bit;
    ShiftBack(u, uu, ushift);
    ShiftBack(b, aa, ashift);
    HalfStep(aa, x, uu / 2, next);
    PowZero();
    ShiftBack(2 * next, 2 * next, 0);
    forall d: nat | d > 1 && Divides(d, uu / 2) ensures Divides(d, u) { DividesDouble(d, uu / 2); }
  }

  lemma ShiftedNone(v: nat)
    ensures (v == 0 || Pow2(0) <= v) && Shifted(v, 0) == v
  {
    PowZero();
  }

  lemma PowZero()
    ensures Pow2(0) == 1
  {
  }

  // What each round of invert keeps.
  ghost predicate Euclid(x: nat, u: nat, v: nat, a: nat, c: nat) {
    && v > 0 && a < P && c < P && Represents(a, x, u) && Represents(c, x, v)
    && forall d: nat {:trigger Divides(d, u)} {:trigger Divides(d, v)} ::
      d > 1 && Divides(d, u) && Divides(d, v) ==> Divides(d, x) && Divides(d, P)
  }

  lemma EuclidStart(x: nat)
    ensures Euclid(x, x, P, 1, 0)
  {
  }

  lemma EuclidEnd(x: nat, v: nat, a: nat, c: nat)
    requires Euclid(x, 0, v, a, c)
    ensures c < P && (Coprime(x, P) ==> (c * x) % P == 1)
  {
    assert Divides(v, 0) && Divides(v, v);
    assert Coprime(x, P) ==> v == 1;
  }

  // One round's subtraction: the smaller off the greater, and so their factors.
  lemma EuclidRound(x: nat, u: nat, v: nat, a: nat, c: nat, u': nat, v': nat, a': nat, c': nat)
    requires Euclid(x, u, v, a, c) && u > 0
    requires 0 < u' <= u && a' < P && Represents(a', x, u') && 0 < v' <= v && c' < P && Represents(c', x, v')
    requires forall d: nat {:trigger Divides(d, u')} :: d > 1 && Divides(d, u') ==> Divides(d, u)
    requires forall d: nat {:trigger Divides(d, v')} :: d > 1 && Divides(d, v') ==> Divides(d, v)
    ensures u' >= v' ==> Euclid(x, u' - v', v', if a' < c' then a' + P - c' else a' - c', c')
    ensures u' < v' ==> Euclid(x, u', v' - u', a', if c' < a' then c' + P - a' else c' - a')
  {
    hide Represents, Divides;
    if u' >= v' {
      var rest := u' - v';
      forall d: nat | d > 1 && Divides(d, rest) && Divides(d, v') ensures Divides(d, u') { DividesSum(d, rest, v'); }
      Difference(a', c', x, u', v', if a' < c' then a' + P - c' else a' - c');
    } else {
      var rest := v' - u';
      forall d: nat | d > 1 && Divides(d, rest) && Divides(d, u') ensures Divides(d, v') { DividesSum(d, rest, u'); }
      Difference(c', a', x, v', u', if c' < a' then c' + P - a' else c' - a');
    }
  }

  lemma DividesSum(d: nat, a: nat, b: nat)
    requires d > 0 && Divides(d, a) && Divides(d, b)
    ensures Divides(d, a + b)
  {
    var i, j := a / d, b / d;
    assert a + b == d * (i + j);
    QuotientIs(a + b, d, i + j, 0);
  }
}
