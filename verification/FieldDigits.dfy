/** gfield of src/shared/crypto.cpp on its digit arrays: the sums, the folding of the words of a
    product, and the product itself, each computing what PrimeField says of numbers. */
module FieldDigits {
  import opened Words
  import opened Digits
  import opened BigInt
  import opened PrimeField

  const DIGITS := 12   // GF_DIGITS
  const CAPACITY := 13

  ghost predicate Field(f: Int)
    reads f, f.digits
  {
    f.Valid() && f.digits.Length == CAPACITY
  }

  // --- The words of a value. ---

  function Zeros(n: nat): seq<u16> { if n == 0 then [] else Zeros(n - 1) + [0] }

  lemma {:induction false} ZerosAre(n: nat)
    ensures |Zeros(n)| == n && (forall i :: 0 <= i < n ==> Zeros(n)[i] == 0) && Value(Zeros(n)) == 0
  {
    if n > 0 { ZerosAre(n - 1); ValueMore(Zeros(n - 1), 0); }
  }

  // At 24 digits.
  function Padded(s: seq<u16>): (p: seq<u16>)
    requires |s| <= 24
    ensures |p| == 24 && p[..|s|] == s && forall i :: |s| <= i < 24 ==> p[i] == 0
  {
    ZerosAre(24 - |s|);
    s + Zeros(24 - |s|)
  }

  lemma JoinZeros(s: seq<u16>, z: seq<u16>)
    requires Value(z) == 0
    ensures Value(s + z) == Value(s)
  {
    hide Value, Pow;
    ValueJoin(s, z);
    assert Pow(|s|) * Value(z) == 0;
  }

  lemma PaddedValue(s: seq<u16>)
    requires |s| <= 24
    ensures Value(Padded(s)) == Value(s)
  {
    ZerosAre(24 - |s|);
    JoinZeros(s, Zeros(24 - |s|));
  }

  lemma FourDigits()
    ensures Pow(4) == W && Pow(8) == W2 && Pow(12) == W3
  {
    assert Pow(2) == HALF * HALF;
    PowAdd(2, 2);
    PowAdd(4, 4);
    PowAdd(4, 8);
  }

  // The digits of a word.
  function Word(s: seq<u16>, i: nat): (w: seq<u16>)
    requires |s| <= 24 && i + 4 <= 24
    ensures |w| == 4
  {
    Padded(s)[i..i + 4]
  }

  lemma WordsAre(s: seq<u16>)
    requires |s| <= 24
    ensures Parted(Value(s)) == Wide(Value(Padded(s)[..12]), Value(Word(s, 12)), Value(Word(s, 16)), Value(Word(s, 20)))
    ensures IsWide(Parted(Value(s)))
  {
    FourDigits();
    PaddedValue(s);
    hide Value, Pow, Padded;
    var p := Padded(s);
    Sliced(p);
    FourParts(p[..12], p[12..16], p[16..20], p[20..24]);
    TotalParted(Wide(Value(p[..12]), Value(p[12..16]), Value(p[16..20]), Value(p[20..24])));
  }

  // High digits standing above 4 or 12 low ones.
  function Above4(low: nat, high: nat): nat { low + W * high }
  function Above12(low: nat, high: nat): nat { low + W3 * high }

  lemma Sliced(p: seq<u16>)
    requires |p| == 24
    ensures p == p[..12] + (p[12..16] + (p[16..20] + p[20..24]))
  {
    assert p[16..] == p[16..20] + p[20..24];
    assert p[12..] == p[12..16] + p[16..];
    assert p == p[..12] + p[12..];
  }

  lemma FourParts(a: seq<u16>, b: seq<u16>, c: seq<u16>, d: seq<u16>)
    requires |a| == 12 && |b| == 4 && |c| == 4 && |d| == 4
    ensures var x := Wide(Value(a), Value(b), Value(c), Value(d));
      IsWide(x) && Value(a + (b + (c + d))) == Total(x)
  {
    var cd := c + d;
    var bcd := b + cd;
    hide *;
    JoinLow(a, bcd);
    JoinWord(b, cd);
    JoinWord(c, d);
    WordBound(d);
    Nested(Value(a + bcd), Value(a), Value(bcd), Value(b), Value(cd), Value(c), Value(d));
    AllWide(Value(a), Value(b), Value(c), Value(d));
  }

  lemma AllWide(a: nat, b: nat, c: nat, d: nat)
    requires a < W3 && b < W && c < W && d < W
    ensures IsWide(Wide(a, b, c, d))
  {
  }

  lemma Nested(p: nat, a: nat, bcd: nat, b: nat, cd: nat, c: nat, d: nat)
    requires p == Above12(a, bcd) && bcd == Above4(b, cd) && cd == Above4(c, d)
    ensures p == Total(Wide(a, b, c, d))
  {
  }

  lemma JoinLow(a: seq<u16>, t: seq<u16>)
    requires |a| == 12
    ensures Value(a + t) == Above12(Value(a), Value(t)) && Value(a) < W3
  {
    FourDigits();
    hide Value, Pow;
    ValueJoin(a, t);
    ValueBound(a);
  }

  lemma JoinWord(a: seq<u16>, t: seq<u16>)
    requires |a| == 4
    ensures Value(a + t) == Above4(Value(a), Value(t)) && Value(a) < W
  {
    FourDigits();
    hide Value, Pow;
    ValueJoin(a, t);
    ValueBound(a);
  }

  lemma WordBound(a: seq<u16>)
    requires |a| == 4
    ensures Value(a) < W
  {
    FourDigits();
    hide Value, Pow;
    ValueBound(a);
  }

  // Which words are there at all shows in the length.
  lemma LengthShows(s: seq<u16>)
    requires |s| <= 24 && Normal(s)
    ensures var x := Parted(Value(s));
      && (|s| <= 12 <==> Total(x) < W3)
      && (|s| > 12 ==> (|s| <= 16 <==> x.w4 == 0 && x.w5 == 0))
      && (|s| > 12 ==> (|s| <= 20 <==> x.w5 == 0))
  {
    hide Value, Pow, Padded, Total, Parted;
    FourDigits();
    PowAdd(12, 4);
    PowAdd(16, 4);
    PowAdd(12, 12);
    ValueBound(s);
    PowMonotone(|s|, 24);
    WordsShow(Value(s));
    LengthAtLeast(s, 12);
    LengthAtLeast(s, 16);
    LengthAtLeast(s, 20);
  }

  lemma LengthAtLeast(s: seq<u16>, n: nat)
    requires Normal(s)
    ensures |s| <= n <==> Value(s) < Pow(n)
  {
    hide Value, Pow;
    ValueBound(s);
    if |s| <= n {
      PowMonotone(|s|, n);
    } else {
      NormalBound(s);
      PowMonotone(n, |s| - 1);
    }
  }

  lemma WordsShow(v: nat)
    requires v < W3 * W3
    ensures var x := Parted(v);
      && Total(x) == v && (x.w4 == 0 && x.w5 == 0 <==> v < W3 * W) && (x.w5 == 0 <==> v < W3 * W2)
  {
    PartedTotal(v);
  }

  // --- The operations. ---

  lemma Room()
    ensures Pow(CAPACITY) == HALF * W3
  {
    FourDigits();
    PowNext(12);
  }

  // gfield::add onto this number itself.
  method AddIn(f: Int, s: Int, p: Int)
    requires Field(f) && Field(s) && Field(p) && f != s && f != p && f.digits != s.digits && f.digits != p.digits
    requires p.Number() == P && f.Number() < W3 && s.Number() < W3
    modifies f, f.digits
    ensures Field(f) && f.Number() == Plus(old(f.Number()), s.Number())
  {
    Room();
    hide Value, Pow;
    f.Add(f, s);
    var less := f.Less(p);
    if !less { f.Sub(f, p); }
  }

  function Placed(d: seq<u16>, at: nat, w: seq<u16>): (r: seq<u16>)
    requires |w| == 4 && at + 4 <= |d|
    ensures |r| == |d| && r[at..at + 4] == w
  {
    d[..at] + w + d[at + 4..]
  }

  lemma PlacedTwice(d: seq<u16>, w: seq<u16>)
    requires |d| == CAPACITY && |w| == 4
    ensures Placed(Placed(d, 0, w), 4, w)[..8] == w + w
  {
  }

  lemma PlacedThrice(d: seq<u16>, z: seq<u16>, w: seq<u16>)
    requires |d| == CAPACITY && |z| == |w| == 4
    ensures Placed(Placed(d, 0, z), 4, w)[0..4] == z
    ensures Placed(Placed(Placed(d, 0, z), 4, w), 8, w)[..12] == z + (w + w)
  {
    var a := Placed(d, 0, z);
    assert a == z + d[4..];
    var b := Placed(a, 4, w);
    assert b == z + w + d[8..];
    var c := Placed(b, 8, w);
    assert c == z + w + w + d[12..];
  }

  // memcpy of a word of the result, with memset where the result is too short for it.
  method Load(s: Int, at: nat, result: Int, from: nat)
    requires s.digits.Length == CAPACITY && result.Valid() && result.len <= 24 && s.digits != result.digits
    requires at + 4 <= CAPACITY && from + 4 <= 24
    modifies s.digits
    ensures s.digits[..] == Placed(old(s.digits[..]), at, Word(result.digits[..result.len], from))
  {
    ghost var d, w := s.digits[..], Word(result.digits[..result.len], from);
    WordAt(result.digits[..result.len], from);
    hide Word, Placed;
    forall j | 0 <= j < 4 {
      s.digits[at + j] := if from + j < result.len then result.digits[from + j] else 0;
    }
    PlacedIs(d, s.digits[..], at, w);
    assert result.digits[..result.len] == old(result.digits[..result.len]);
  }

  lemma WordAt(s: seq<u16>, i: nat)
    requires |s| <= 24 && i + 4 <= 24
    ensures forall j :: 0 <= j < 4 ==> Word(s, i)[j] == if i + j < |s| then s[i + j] else 0
  {
  }

  lemma PlacedIs(d: seq<u16>, d': seq<u16>, at: nat, w: seq<u16>)
    requires |w| == 4 && at + 4 <= |d| == |d'|
    requires forall j :: 0 <= j < |d| && !(at <= j < at + 4) ==> d'[j] == d[j]
    requires forall j :: 0 <= j < 4 ==> d'[at + j] == w[j]
    ensures d' == Placed(d, at, w)
  {
    forall j | 0 <= j < |d| ensures d'[j] == Placed(d, at, w)[j] {
      if at <= j < at + 4 { assert d'[at + (j - at)] == w[j - at]; }
    }
  }

  method Repeat(s: Int, from: nat, to: nat)
    requires s.digits.Length == CAPACITY && from + 4 <= to && to + 4 <= CAPACITY
    modifies s.digits
    ensures s.digits[..] == Placed(old(s.digits[..]), to, old(s.digits[from..from + 4]))
  {
    forall j | 0 <= j < 4 { s.digits[to + j] := s.digits[from + j]; }
  }

  lemma Folded(w: seq<u16>, z: seq<u16>)
    requires |w| == |z| == 4 && Value(z) == 0
    ensures Value(w) < W
    ensures Value(w + w) == (W + 1) * Value(w)
    ensures Value(z + (w + w)) == (W2 + W) * Value(w)
    ensures Value(w + (w + w)) == (W2 + W + 1) * Value(w)
  {
    hide Value;
    JoinWord(w, w);
    JoinWord(z, w + w);
    JoinWord(w, w + w);
  }

  function Zeros4(): (z: seq<u16>)
    ensures |z| == 4 && Value(z) == 0 && forall i :: 0 <= i < 4 ==> z[i] == 0
  {
    ZerosAre(4);
    Zeros(4)
  }

  // The three folds: word 3 onto words 0 and 1, word 4 onto 1 and 2, word 5 onto all three.
  method Fold3(s: Int, result: Int)
    requires Field(s) && result.Valid() && result.len <= 24 && s != result && s.digits != result.digits
    modifies s, s.digits
    ensures Field(s) && s.Number() == (W + 1) * Parted(result.Number()).w3 < W3
  {
    ghost var ds, d := result.digits[..result.len], s.digits[..];
    WordsAre(ds);
    ghost var w := Word(ds, 12);
    Folded(w, Zeros4());
    PlacedTwice(d, w);
    hide Value, Parted, Word, Placed;
    Load(s, 0, result, 12);
    assert s.digits[0..4] == s.digits[..][0..4];
    Repeat(s, 0, 4);
    assert s.digits[..8] == s.digits[..][..8];
    s.len := 8;
    s.Shrink();
  }

  method Fold4(s: Int, result: Int)
    requires Field(s) && result.Valid() && result.len <= 24 && s != result && s.digits != result.digits
    modifies s, s.digits
    ensures Field(s) && s.Number() == (W2 + W) * Parted(result.Number()).w4
  {
    ghost var ds, d := result.digits[..result.len], s.digits[..];
    WordsAre(ds);
    ghost var w, z := Word(ds, 16), Zeros4();
    Folded(w, z);
    PlacedThrice(d, z, w);
    Clear(s);
    hide Value, Parted, Word, Zeros4, Placed;
    Load(s, 4, result, 16);
    assert s.digits[4..8] == s.digits[..][4..8];
    Repeat(s, 4, 8);
    assert s.digits[..12] == s.digits[..][..12];
    s.len := DIGITS;
    s.Shrink();
  }

  method Clear(s: Int)
    requires s.digits.Length == CAPACITY
    modifies s.digits
    ensures s.digits[..] == Placed(old(s.digits[..]), 0, Zeros4())
  {
    forall j | 0 <= j < 4 { s.digits[j] := 0; }
  }

  method Fold5(s: Int, result: Int)
    requires Field(s) && result.Valid() && result.len <= 24 && s != result && s.digits != result.digits
    modifies s, s.digits
    ensures Field(s) && s.Number() == (W2 + W + 1) * Parted(result.Number()).w5
  {
    ghost var ds, d := result.digits[..result.len], s.digits[..];
    WordsAre(ds);
    ghost var w := Word(ds, 20);
    Folded(w, Zeros4());
    PlacedThrice(d, w, w);
    hide Value, Parted, Word, Placed;
    Load(s, 0, result, 20);
    assert s.digits[0..4] == s.digits[..][0..4];
    Repeat(s, 0, 4);
    assert s.digits[0..4] == s.digits[..][0..4];
    Repeat(s, 0, 8);
    assert s.digits[..12] == s.digits[..][..12];
    s.len := DIGITS;
    s.Shrink();
  }

  // The reduction by length: which words are folded, and that the sums on the way stay below 2^193.
  lemma ReducedByLength(s: seq<u16>, x: Wide, r1: nat, r2: nat)
    requires |s| <= 24 && Normal(s) && x == Parted(Value(s))
    requires r1 == Plus(x.low, (W + 1) * x.w3) && r2 == Plus(r1, (W2 + W) * x.w4)
    ensures Reduced(x) ==
      if |s| <= 12 then Plus(x.low, 0)
      else if |s| <= 16 then r1
      else if |s| <= 20 then r2
      else Plus(r2, (W2 + W + 1) * x.w5)
    ensures x.low < W3 && r1 < W3 && r2 < W3
    ensures (W + 1) * x.w3 < W3 && (W2 + W) * x.w4 < W3 && (W2 + W + 1) * x.w5 < W3
  {
    WordsAre(s);
    LengthShows(s);
    hide Value, Parted, Padded;
  }

  // gfield::reduce
  method Reduce(f: Int, result: Int, p: Int)
    requires Field(f) && Field(p) && p.Number() == P && result.Valid() && result.len <= 24
    requires f != result && f != p && f.digits != result.digits && f.digits != p.digits
    modifies f, f.digits
    ensures Field(f) && f.Number() == Reduced(Parted(result.Number()))
  {
    ghost var ds := result.digits[..result.len];
    ghost var x := Parted(Value(ds));
    ghost var r1 := Plus(x.low, (W + 1) * x.w3);
    ghost var r2 := Plus(r1, (W2 + W) * x.w4);
    ReducedByLength(ds, x, r1, r2);
    hide Value, Parted, Normal, Plus, Reduced;
    LoadLow(f, result);
    if result.len > 12 {
      var s := new Int(CAPACITY);
      Fold3(s, result);
      AddIn(f, s, p);
      if result.len > 16 { FoldRest(f, s, result, p); }
    } else {
      LessP(f, p);
    }
  }

  method FoldRest(f: Int, s: Int, result: Int, p: Int)
    requires Field(f) && Field(p) && p.Number() == P && result.Valid() && result.len <= 24 && Field(s)
    requires f != result && f != p && f.digits != result.digits && f.digits != p.digits
    requires s !in {f, p, result} && s.digits !in {f.digits, p.digits, result.digits}
    requires var x := Parted(result.Number());
      && (W2 + W) * x.w4 < W3 && (W2 + W + 1) * x.w5 < W3
      && f.Number() < W3 && Plus(f.Number(), (W2 + W) * x.w4) < W3
    modifies f, f.digits, s, s.digits
    ensures Field(f)
    ensures var x := Parted(result.Number()); var r2 := Plus(old(f.Number()), (W2 + W) * x.w4);
      f.Number() == if result.len <= 20 then r2 else Plus(r2, (W2 + W + 1) * x.w5)
  {
    hide Value, Parted, Normal, Plus;
    Fold4(s, result);
    AddIn(f, s, p);
    if result.len > 20 {
      Fold5(s, result);
      AddIn(f, s, p);
    }
  }

  method LoadLow(f: Int, result: Int)
    requires Field(f) && result.Valid() && result.len <= 24 && f != result && f.digits != result.digits
    modifies f, f.digits
    ensures Field(f) && f.Number() == Parted(result.Number()).low
  {
    ghost var ds := result.digits[..result.len];
    LowPart(ds);
    hide Value, Parted, Normal;
    f.len := if result.len < DIGITS then result.len else DIGITS;
    forall j | 0 <= j < f.len { f.digits[j] := result.digits[j]; }
    assert f.digits[..f.len] == ds[..f.len];
    f.Shrink();
  }

  // The one subtraction where nothing is folded.
  method LessP(f: Int, p: Int)
    requires Field(f) && Field(p) && f != p && f.digits != p.digits && p.Number() == P
    modifies f, f.digits
    ensures Field(f) && f.Number() == Plus(old(f.Number()), 0)
  {
    hide Value;
    var less := f.Less(p);
    if !less { f.Sub(f, p); }
  }

  // What is copied to begin with is the low 192 bits.
  lemma LowPart(s: seq<u16>)
    requires |s| <= 24
    ensures Value(s[..if |s| < 12 then |s| else 12]) == Parted(Value(s)).low
  {
    hide *;
    WordsAre(s);
    var p := Padded(s);
    if |s| < 12 {
      assert s[..|s|] == s;
      ValueZeros(p[|s|..12]);
      JoinZeros(s, p[|s|..12]);
      PrefixJoins(p, s, 12);
    } else {
      assert p[..12] == s[..12];
    }
  }

  lemma PrefixJoins(p: seq<u16>, s: seq<u16>, n: nat)
    requires |s| <= n <= |p| && p[..|s|] == s
    ensures p[..n] == s + p[|s|..n]
  {
  }

  // gfield::mul, through a product twice as long.
  method Multiply(f: Int, x: Int, y: Int, p: Int)
    requires Field(f) && x.Valid() && y.Valid() && x.len <= DIGITS && y.len <= DIGITS && Field(p) && p.Number() == P
    requires f != p && f.digits != p.digits
    modifies f, f.digits
    ensures Field(f) && f.Number() == Times(old(x.Number()), old(y.Number()))
  {
    var result := new Int(24);
    result.Mul(x, y);
    Reduce(f, result, p);
  }
}
