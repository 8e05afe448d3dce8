/** pow, legendre, sqrt and invert of gfield, on the digit arrays of src/shared/crypto.cpp. */
module FieldPower {
  import opened Words
  import opened Numbers
  import opened Digits
  import opened BigInt
  import opened PrimeField
  import opened FieldDigits

  // Two numbers that share nothing.
  ghost predicate Other(x: Int, y: Int) { x != y && x.digits != y.digits }

  ghost predicate Prime(p: Int)
    reads p, p.digits
  {
    Field(p) && p.Number() == P
  }

  // The assignment of a number.
  method Assign(f: Int, x: Int)
    requires Field(f) && x.Valid() && x.len <= CAPACITY && Other(f, x)
    modifies f, f.digits
    ensures Field(f) && f.Number() == x.Number() && f.len == x.len
  {
    hide Value, Normal;
    f.len := x.len;
    forall j | 0 <= j < f.len { f.digits[j] := x.digits[j]; }
    assert f.digits[..f.len] == x.digits[..x.len] == old(x.digits[..x.len]);
  }

  method Copied(x: Int) returns (a: Int)
    requires x.Valid() && x.len <= CAPACITY
    ensures fresh(a) && fresh(a.digits) && Field(a) && a.Number() == x.Number() && a.len == x.len
  {
    a := new Int(CAPACITY);
    Assign(a, x);
  }

  // The number of one digit.
  method Single(d: u16) returns (a: Int)
    ensures fresh(a) && fresh(a.digits) && Field(a) && a.Number() == d
  {
    a := new Int(CAPACITY);
    Nothing();
    if d != 0 { SetDigit(a, d); }
  }

  method SetDigit(f: Int, d: u16)
    requires f.digits.Length == CAPACITY && d > 0
    modifies f, f.digits
    ensures Field(f) && f.Number() == d && f.len == 1
  {
    f.len := 1;
    f.digits[0] := d;
    assert f.digits[..1] == [d];
    OneDigit(d);
  }

  lemma OneDigit(d: u16)
    ensures Value([d]) == d && (d > 0 ==> Normal([d]))
  {
    assert [d][1..] == [] && [d][..0] == [];
  }

  // --- Powers. ---

  lemma Widths(y: nat, n: nat)
    requires HasBits(y, n)
    ensures y > 0 ==> n == Width(y)
  {
    hide Pow2, NumBits;
    if y > 0 {
      var w := Width(y);
      if n < w { Pow2Grows(n, w - 1); }
      if w < n { Pow2Grows(w, n - 1); }
    }
  }

  lemma TwelveDigits(s: seq<u16>)
    requires Normal(s)
    ensures |s| <= DIGITS <==> Value(s) < W3
  {
    FourDigits();
    LengthAtLeast(s, DIGITS);
  }

  // gfield::pow, also onto x itself.
  method Raise(f: Int, x: Int, y: Int, p: Int)
    requires Field(f) && x.Valid() && x.len <= DIGITS && y.Valid() && Prime(p) && Other(f, p) && Other(f, y)
    modifies f, f.digits
    ensures Field(f) && f.Number() == Chain(old(x.Number()), y.Number(), Width(y.Number()))
  {
    hide Value, Normal, Chain, Squared, Times, Power, Pow2, HasBits, Bit, Width;
    ghost var n, m := x.Number(), y.Number();
    TwelveDigits(x.digits[..x.len]);
    var a := Copied(x);
    ChainStart(n, m);
    Lengths(y);
    FirstFactor(f, a, y);
    if y.len == 0 { return; }
    var i: nat := 1;
    var j := y.NumBits();
    Widths(m, j);
    while i < j
      invariant 1 <= i <= j && Field(f) && Field(a)
      invariant a.Number() == Squared(n, i - 1) && f.Number() == Chain(n, m, i)
    {
      PowerStep(f, a, y, p, i, n);
      i := i + 1;
    }
  }

  // What it begins with.
  method FirstFactor(f: Int, a: Int, y: Int)
    requires Field(f) && Field(a) && y.Valid() && Other(f, a) && Other(f, y)
    modifies f, f.digits
    ensures Field(f) && f.Number() == if Bit(y.Number(), 0) then a.Number() else 1
  {
    hide Value, Normal, Bit;
    var on := y.HasBit(0);
    if on { Assign(f, a); } else { SetDigit(f, 1); }
  }

  // The body of its loop.
  method PowerStep(f: Int, a: Int, y: Int, p: Int, i: nat, ghost x: nat)
    requires Field(f) && Field(a) && y.Valid() && Prime(p) && i > 0 && x < W3
    requires Other(f, a) && Other(f, y) && Other(f, p) && Other(a, y) && Other(a, p)
    requires a.Number() == Squared(x, i - 1) && f.Number() == Chain(x, y.Number(), i)
    modifies f, f.digits, a, a.digits
    ensures Field(f) && Field(a)
    ensures a.Number() == Squared(x, i) && f.Number() == Chain(x, y.Number(), i + 1)
  {
    hide Value, Normal, Chain, Squared, Times, Power, Pow2, Bit;
    ghost var m := y.Number();
    ChainIsPower(x, m, i);
    ChainNext(x, m, i);
    TwelveDigits(a.digits[..a.len]);
    TwelveDigits(f.digits[..f.len]);
    Multiply(a, a, a, p);
    TimesIsProduct(Squared(x, i - 1), Squared(x, i - 1));
    TwelveDigits(a.digits[..a.len]);
    var on := y.HasBit(i);
    if on { Multiply(f, f, a, p); }
  }

  lemma Lengths(y: Int)
    requires y.Valid()
    ensures y.len == 0 <==> y.Number() == 0
    ensures y.len == 1 <==> 0 < y.Number() < HALF
  {
    LengthAtLeast(y.digits[..y.len], 0);
    LengthAtLeast(y.digits[..y.len], 1);
    assert Pow(0) == 1 && Pow(1) == HALF;
  }

  lemma ChainStart(x: nat, y: nat)
    ensures Squared(x, 0) == x && Chain(x, y, 1) == (if Bit(y, 0) then x else 1)
    ensures y == 0 ==> Width(y) == 1 && !Bit(y, 0)
  {
  }

  lemma ChainNext(x: nat, y: nat, i: nat)
    requires i > 0
    ensures Squared(x, i) == Times(Squared(x, i - 1), Squared(x, i - 1))
    ensures Chain(x, y, i + 1) == if Bit(y, i) then Times(Chain(x, y, i), Squared(x, i)) else Chain(x, y, i)
  {
  }

  // --- Square roots. ---

  // The constant of legendre.
  method HalfOrder(p: Int) returns (h: Int)
    requires Prime(p)
    ensures fresh(h) && fresh(h.digits) && Field(h) && h.Number() == HALF_ORDER
  {
    hide Value, Normal;
    var one := Single(1);
    h := new Int(CAPACITY);
    h.Sub(p, one);
    Lengths(h);
    h.RShift(1);
    assert Pow2(1) == 2;
  }

  // That of sqrt.
  method QuarterOrder(p: Int) returns (q: Int)
    requires Prime(p)
    ensures fresh(q) && fresh(q.digits) && Field(q) && q.Number() == QUARTER_ORDER
  {
    hide Value, Normal;
    var one := Single(1);
    q := new Int(CAPACITY);
    Room();
    q.Add(p, one);
    Lengths(q);
    q.RShift(2);
    assert Pow2(2) == 4;
  }

  // gfield::legendre: one digit is taken for 1. It tells the residue, unless the power is left over.
  method Legendre(x: Int, p: Int) returns (s: int)
    requires x.Valid() && x.len <= DIGITS && Prime(p) && Euler(x.Number())
    ensures s ==
      if Refused(x.Number()) || Power(x.Number(), HALF_ORDER) % P > 1 then -1 else Power(x.Number(), HALF_ORDER) % P
  {
    hide Value, Normal, Power, Chain, Refused, Width;
    ghost var n := x.Number();
    TwelveDigits(x.digits[..x.len]);
    var half := HalfOrder(p);
    var l := new Int(CAPACITY);
    Raise(l, x, half, p);
    PowerIs(n, HALF_ORDER);
    PowerComesOut(n, l.Number());
    Lengths(l);
    s := if l.len == 0 then 0 else if l.len == 1 then 1 else -1;
  }

  // gfield::sqrt, also of f itself: true comes with a root, and exactly for those squares of the field
  // whose power is not left over.
  method Sqrt(f: Int, x: Int, p: Int) returns (ok: bool)
    requires Field(f) && x.Valid() && x.len <= DIGITS && Prime(p) && Other(f, p) && Euler(x.Number())
    modifies f, f.digits
    ensures Field(f)
    ensures if ok then (f.Number() * f.Number()) % P == old(x.Number()) % P else f.Number() == old(f.Number())
    ensures old(x.Number()) > 0 ==>
      (ok <==> Power(old(x.Number()), HALF_ORDER) % P <= 1 && !Refused(old(x.Number())))
    ensures old(x.Number()) == 0 ==> ok
  {
    hide Value, Normal, Power, Refused, Chain, Width;
    ghost var n := x.Number();
    Lengths(x);
    TwelveDigits(x.digits[..x.len]);
    ok := true;
    if x.len == 0 { Zero(f); return; }
    var s := Legendre(x, p);
    if s == 0 { Zero(f); return; }
    if s == -1 { return false; }
    var quarter := QuarterOrder(p);
    Raise(f, x, quarter, p);
    PowerIs(n, QUARTER_ORDER);
    SameProduct(f.Number(), Power(n, QUARTER_ORDER), f.Number(), Power(n, QUARTER_ORDER));
    RootSquared(n);
  }

  method Zero(f: Int)
    requires Field(f)
    modifies f`len
    ensures Field(f) && f.Number() == 0
  {
    f.len := 0;
    Nothing();
  }

  // --- Inverses. ---

  // A number can be shifted as far as it has bits.
  lemma ShiftFits(s: seq<u16>, n: nat)
    requires Normal(s) && (Value(s) == 0 || Pow2(n) <= Value(s))
    ensures |s| > 0 && n > 0 ==> (n - 1) / 16 < |s|
  {
    hide Value, Pow;
    if |s| > 0 {
      NormalBound(s);
      ValueBound(s);
      PowIs(|s|);
      if n >= 16 * |s| { Pow2Grows(16 * |s|, n); }
    }
  }

  lemma {:induction false} Pow2Grows(i: nat, j: nat)
    requires i <= j
    ensures Pow2(i) <= Pow2(j)
    decreases j - i
  {
    if i < j { Pow2Grows(i, j - 1); }
  }

  // The inner loops: all factors 2 leave u, their number counted in ushift first; those of the
  // factor a are counted in ashift, and taken out only when P has to be added.
  method Halve(u: Int, a: Int, p: Int, ghost x: nat)
    requires Field(u) && Field(a) && Prime(p) && Other(u, a) && Other(u, p) && Other(a, p)
    requires u.Number() > 0 && a.Number() < P && Represents(a.Number(), x, u.Number())
    modifies u, u.digits, a, a.digits
    ensures Field(u) && Field(a) && a.Number() < P && Represents(a.Number(), x, u.Number())
    ensures u.Number() % 2 == 1 && u.Number() <= old(u.Number())
    ensures forall d: nat {:trigger Divides(d, u.Number())} ::
      d > 1 && Divides(d, u.Number()) ==> Divides(d, old(u.Number()))
  {
    hide Represents, Divides, Bit, Pow2, Deferred, Shifted, Value, Normal;
    ghost var uu: nat, aa: nat := u.Number(), a.Number();
    DeferredStart(uu, aa, x);
    var ushift: nat, ashift: nat := 0, 0;
    var on := u.HasBit(ushift);
    while !on
      invariant Field(u) && Field(a) && u.Number() == old(u.Number())
      invariant Deferred(u.Number(), a.Number(), x, uu, aa, ushift, ashift) && (on <==> Bit(u.Number(), ushift))
      decreases uu
    {
      ashift, uu, aa := DeferOne(u, a, p, ushift, ashift, x, uu, aa);
      ushift := ushift + 1;
      on := u.HasBit(ushift);
    }
    DeferredBits(u.Number(), a.Number(), x, uu, aa, ushift, ashift);
    TakeOut(u, ushift);
    TakeOut(a, ashift);
  }

  // if(shift) n.rshift(shift)
  method TakeOut(f: Int, shift: nat)
    requires Field(f) && (f.Number() == 0 || Pow2(shift) <= f.Number())
    modifies f, f.digits
    ensures Field(f) && f.Number() == Shifted(old(f.Number()), shift)
  {
    hide Value, Normal, Pow2;
    ShiftFits(f.digits[..f.len], shift);
    ShiftedNone(f.Number());
    if shift > 0 { f.RShift(shift); }
  }

  // The body of the loop, but for the counting of ushift.
  method DeferOne(u: Int, a: Int, p: Int, ushift: nat, ashift: nat, ghost x: nat, ghost uu: nat, ghost aa: nat)
      returns (ashift': nat, ghost uu': nat, ghost aa': nat)
    requires Field(u) && Field(a) && Prime(p) && Other(u, a) && Other(u, p) && Other(a, p)
    requires Deferred(u.Number(), a.Number(), x, uu, aa, ushift, ashift) && !Bit(u.Number(), ushift)
    modifies a, a.digits
    ensures Field(a) && Deferred(u.Number(), a.Number(), x, uu', aa', ushift + 1, ashift') && 0 <= uu' < uu
  {
    hide Represents, Divides, Bit, Pow2, Pow, Deferred, Shifted, Value, Normal;
    ghost var n, b := u.Number(), a.Number();
    DeferredBits(n, b, x, uu, aa, ushift, ashift);
    uu', aa' := uu / 2, (if aa % 2 == 0 then aa else aa + P) / 2;
    DeferredStep(n, b, x, uu, aa, ushift, ashift, aa');
    ashift' := ashift;
    var on := a.HasBit(ashift);
    if on {
      TakeOut(a, ashift);
      ashift' := 0;
      Room();
      a.Add(a, p);
    }
    ashift' := ashift' + 1;
  }

  // The numbers of invert share nothing.
  ghost predicate Separate(u: Int, v: Int, a: Int, c: Int, p: Int) {
    && Other(u, v) && Other(u, a) && Other(u, c) && Other(u, p) && Other(v, a) && Other(v, c) && Other(v, p)
    && Other(a, c) && Other(a, p) && Other(c, p)
  }

  // One round: the factors 2 out of both, then the smaller off the greater.
  method Round(u: Int, v: Int, a: Int, c: Int, p: Int, ghost x: nat)
    requires Field(u) && Field(v) && Field(a) && Field(c) && Prime(p) && Separate(u, v, a, c, p)
    requires Euclid(x, u.Number(), v.Number(), a.Number(), c.Number()) && u.Number() > 0
    modifies u, u.digits, v, v.digits, a, a.digits, c, c.digits
    ensures Field(u) && Field(v) && Field(a) && Field(c)
    ensures Euclid(x, u.Number(), v.Number(), a.Number(), c.Number())
    ensures u.Number() + v.Number() < old(u.Number() + v.Number())
  {
    hide Represents, Divides, Value, Normal, Pow, Prime;
    ghost var m, n, b, d := u.Number(), v.Number(), a.Number(), c.Number();
    Halve(u, a, p, x);
    Halve(v, c, p, x);
    EuclidRound(x, m, n, b, d, u.Number(), v.Number(), a.Number(), c.Number());
    var less := u.Less(v);
    if !less {
      u.Sub(u, v);
      SubtractModulo(a, c, p);
    } else {
      v.Sub(v, u);
      SubtractModulo(c, a, p);
    }
  }

  method SubtractModulo(a: Int, c: Int, p: Int)
    requires Field(a) && Field(c) && Prime(p) && Other(a, c) && Other(a, p) && a.Number() < P && c.Number() < P
    modifies a, a.digits
    ensures Field(a)
    ensures a.Number() ==
      if old(a.Number()) < c.Number() then old(a.Number()) + P - c.Number() else old(a.Number()) - c.Number()
  {
    hide Value, Normal, Pow;
    Room();
    var less := a.Less(c);
    if less { a.Add(a, p); }
    a.Sub(a, c);
  }

  method Rounds(u: Int, v: Int, a: Int, c: Int, p: Int, ghost x: nat)
    requires Field(u) && Field(v) && Field(a) && Field(c) && Prime(p) && Separate(u, v, a, c, p)
    requires Euclid(x, u.Number(), v.Number(), a.Number(), c.Number())
    modifies u, u.digits, v, v.digits, a, a.digits, c, c.digits
    ensures Field(u) && Field(v) && Field(a) && Field(c) && u.Number() == 0
    ensures Euclid(x, u.Number(), v.Number(), a.Number(), c.Number())
  {
    hide Value, Normal, Euclid;
    Lengths(u);
    while u.len != 0
      invariant Field(u) && Field(v) && Field(a) && Field(c) && (u.len == 0 <==> u.Number() == 0)
      invariant Euclid(x, u.Number(), v.Number(), a.Number(), c.Number())
      decreases u.Number() + v.Number()
    {
      Round(u, v, a, c, p, x);
      Lengths(u);
    }
  }

  // gfield::invert, also of f itself.
  method Invert(f: Int, x: Int, p: Int) returns (ok: bool)
    requires Field(f) && x.Valid() && x.len <= CAPACITY && Prime(p) && Other(f, p)
    modifies f, f.digits
    ensures Field(f) && (ok <==> old(x.Number()) != 0) && (!ok ==> f.Number() == old(f.Number()))
    ensures ok ==>
      f.Number() < P && (Coprime(old(x.Number()), P) ==> (f.Number() * old(x.Number())) % P == 1)
  {
    hide Value, Normal, Euclid, Coprime;
    ghost var n := x.Number();
    Lengths(x);
    if x.len == 0 { return false; }
    var c;
    ghost var v, a;
    c, v, a := Factor(x, p);
    ok := true;
    var less := c.Less(p);
    if !less { f.Sub(c, p); } else { Assign(f, c); }
    EuclidEnd(n, v, a, c.Number());
  }

  // Its four numbers, and what is left in C.
  method Factor(x: Int, p: Int) returns (c: Int, ghost v': nat, ghost a': nat)
    requires x.Valid() && x.len <= CAPACITY && Prime(p)
    ensures fresh(c) && fresh(c.digits) && Field(c) && Euclid(x.Number(), 0, v', a', c.Number())
  {
    hide Value, Normal, Euclid, Pow, Prime;
    var u, v, a;
    u, v, a, c := Begin(x, p);
    Rounds(u, v, a, c, p, x.Number());
    v', a' := v.Number(), a.Number();
  }

  method Begin(x: Int, p: Int) returns (u: Int, v: Int, a: Int, c: Int)
    requires x.Valid() && x.len <= CAPACITY && Prime(p)
    ensures fresh(u) && fresh(u.digits) && fresh(v) && fresh(v.digits)
    ensures fresh(a) && fresh(a.digits) && fresh(c) && fresh(c.digits) && Separate(u, v, a, c, p)
    ensures Field(u) && Field(v) && Field(a) && Field(c)
    ensures Euclid(x.Number(), u.Number(), v.Number(), a.Number(), c.Number())
  {
    hide Value, Normal, Euclid, Pow, Field;
    EuclidStart(x.Number());
    PrimeFits(p);
    u := Copied(x);
    v := Copied(p);
    a := Single(1);
    c := Single(0);
  }

  lemma PrimeFits(p: Int)
    requires Prime(p)
    ensures p.Valid() && p.len <= CAPACITY && p.Number() == P
  {
  }
}
