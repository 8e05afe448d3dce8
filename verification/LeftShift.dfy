/** lshift of the bigint template of src/shared/crypto.cpp. Its loop runs from the top digit down and
    hands the bits that overflow a digit to the digit below, so that it multiplies only where no such
    bits matter. Nothing in the repository calls it. */
module LeftShift {
  import opened Words
  import opened Numbers
  import opened Digits
  import opened BigInt

  // The bits of digit i that a shift moves out of it, w being 2^16 over the factor; digits run from 0.
  function Out(s: seq<u16>, i: int, w: nat): nat
    requires w > 0
  {
    if 0 <= i < |s| then s[i] / w else 0
  }

  predicate Factors(w: nat, h: nat) { w * h == HALF }

  lemma Parts(s: seq<u16>, i: nat, j: int, w: nat, h: nat)
    requires w > 0 && Factors(w, h) && i < |s|
    ensures Out(s, j, w) < h && Lower(s[i], h) + Out(s, j, w) < HALF
  {
    ShiftDigit(s[i], w, h);
    if 0 <= j < |s| { ShiftDigit(s[j], w, h); } else { HasRoom(w, h); }
  }

  // Digit i with what has been moved out of digit j.
  function Joint(s: seq<u16>, i: nat, j: int, w: nat, h: nat): u16
    requires w > 0 && Factors(w, h) && i < |s|
  {
    Parts(s, i, j, w, h);
    Lower(s[i], h) + Out(s, j, w)
  }

  // The digits as the loop makes them, and as a multiplication would.
  function Made(s: seq<u16>, w: nat, h: nat): (r: seq<u16>)
    requires w > 0 && Factors(w, h)
    ensures |r| == |s|
  {
    seq(|s|, i requires 0 <= i < |s| => Joint(s, i, i + 1, w, h))
  }

  function Meant(s: seq<u16>, w: nat, h: nat): (r: seq<u16>)
    requires w > 0 && Factors(w, h)
    ensures |r| == |s|
  {
    seq(|s|, i requires 0 <= i < |s| => Joint(s, i, i - 1, w, h))
  }

  lemma HasRoom(w: nat, h: nat)
    requires Factors(w, h)
    ensures h > 0
  {
  }

  // A multiplication by h is what was meant.
  lemma {:induction false} MeantIs(s: seq<u16>, w: nat, h: nat)
    requires w > 0 && Factors(w, h)
    ensures Value(Meant(s, w, h)) + Pow(|s|) * Out(s, |s| - 1, w) == Value(s) * h
    decreases |s|
  {
    if s != [] {
      var n, front, d := |s| - 1, s[..|s| - 1], s[|s| - 1];
      MeantIs(front, w, h);
      MeantMore(s, w, h);
      PowNext(n);
      ShiftDigit(d, w, h);
      MeantStep(Value(Meant(front, w, h)), Pow(n), Out(s, n - 1, w), Value(front), h, d, w, Joint(s, n, n - 1, w, h));
    }
  }

  lemma MeantMore(s: seq<u16>, w: nat, h: nat)
    requires w > 0 && Factors(w, h) && s != []
    ensures var n, front := |s| - 1, s[..|s| - 1];
      && Value(Meant(s, w, h)) == Value(Meant(front, w, h)) + Pow(n) * Joint(s, n, n - 1, w, h)
      && Value(s) == Value(front) + Pow(n) * s[n] && Out(front, n - 1, w) == Out(s, n - 1, w)
  {
    var n, front := |s| - 1, s[..|s| - 1];
    MeantFront(s, w, h);
    hide Value, Pow, Lower, Meant, Factors, Joint, Out;
    Extended(Meant(s, w, h), Meant(front, w, h), Joint(s, n, n - 1, w, h), n);
    Extended(s, front, s[n], n);
  }

  lemma Extended(s: seq<u16>, front: seq<u16>, d: u16, n: nat)
    requires |front| == n && s == front + [d]
    ensures Value(s) == Value(front) + Pow(n) * d
  {
    hide Value, Pow;
    ValueMore(front, d);
  }

  lemma MeantFront(s: seq<u16>, w: nat, h: nat)
    requires w > 0 && Factors(w, h) && s != []
    ensures var n, front := |s| - 1, s[..|s| - 1];
      Meant(s, w, h) == Meant(front, w, h) + [Joint(s, n, n - 1, w, h)] && Out(front, n - 1, w) == Out(s, n - 1, w)
  {
    var n, front := |s| - 1, s[..|s| - 1];
    hide Factors;
  }

  lemma MeantStep(v: nat, p: nat, out: nat, x: nat, h: nat, d: nat, w: nat, digit: nat)
    requires w > 0 && Factors(w, h) && v + p * out == x * h && digit == d % w * h + out
    ensures v + p * digit + HALF * p * (d / w) == (x + p * d) * h
  {
    var q, r := d / w, d % w;
    assert d == w * q + r;
    Distribute(v, p, out, x, h, q, r, w);
  }

  lemma Distribute(v: nat, p: nat, out: nat, x: nat, h: nat, q: nat, r: nat, w: nat)
    requires Factors(w, h) && v + p * out == x * h
    ensures v + p * (r * h + out) + HALF * p * q == (x + p * (w * q + r)) * h
  {
    assert p * (w * q) * h == (w * h) * p * q;
    assert p * r * h == p * (r * h);
  }

  // Where the loop does multiply: what overflows a digit is just what overflows the one two above,
  // none if there is none, and the lowest overflows as the top does.
  predicate Harmless(s: seq<u16>, w: nat)
    requires w > 0
  {
    (forall i :: 0 <= i < |s| ==> Alike(s, i, w)) && Out(s, 0, w) == Out(s, |s| - 1, w)
  }

  predicate Alike(s: seq<u16>, i: nat, w: nat)
    requires w > 0
  {
    Out(s, i + 1, w) == Out(s, i - 1, w)
  }

  lemma {:induction false} SameDigits(s: seq<u16>, t: seq<u16>)
    requires |s| == |t| && Value(s) == Value(t)
    ensures s == t
  {
    if s != [] {
      LowDigit(s);
      LowDigit(t);
      SameDigits(s[1..], t[1..]);
      assert s == [s[0]] + s[1..] && t == [t[0]] + t[1..];
    }
  }

  lemma MadeIsMeant(s: seq<u16>, w: nat, h: nat)
    requires w > 0 && Factors(w, h) && s != []
    ensures Out(s, 0, w) < HALF
    ensures Value(Made(s, w, h) + [Out(s, 0, w)]) == Value(s) * h <==> Harmless(s, w)
  {
    var n := |s| - 1;
    OutFits(s, 0, w);
    OutFits(s, n, w);
    var made, meant := Made(s, w, h) + [Out(s, 0, w)], Meant(s, w, h) + [Out(s, n, w)];
    MeantIs(s, w, h);
    ValueMore(Meant(s, w, h), Out(s, n, w));
    if Value(made) == Value(s) * h { SameDigits(made, meant); }
    hide Value, Pow;
    SameWhere(s, w, h);
  }

  lemma SameWhere(s: seq<u16>, w: nat, h: nat)
    requires w > 0 && Factors(w, h) && s != []
    ensures Out(s, 0, w) < HALF && Out(s, |s| - 1, w) < HALF
    ensures Made(s, w, h) + [Out(s, 0, w)] == Meant(s, w, h) + [Out(s, |s| - 1, w)] <==> Harmless(s, w)
  {
    OutFits(s, 0, w);
    OutFits(s, |s| - 1, w);
    var made, meant := Made(s, w, h) + [Out(s, 0, w)], Meant(s, w, h) + [Out(s, |s| - 1, w)];
    assert forall i :: 0 <= i < |s| ==> (made[i] == meant[i] <==> Alike(s, i, w));
    assert made[|s|] == meant[|s|] <==> Out(s, 0, w) == Out(s, |s| - 1, w);
    hide Made, Meant, Alike, Out;
    if made == meant {
      assert forall i :: 0 <= i < |s| ==> made[i] == meant[i];
    }
    if Harmless(s, w) {
      assert forall i :: 0 <= i < |s| ==> made[i] == meant[i];
    }
  }

  lemma OutFits(s: seq<u16>, i: nat, w: nat)
    requires w > 0
    ensures Out(s, i, w) < HALF
  {
  }

  function Zeros(n: nat): (z: seq<u16>)
    ensures |z| == n
  {
    seq(n, _ => 0)
  }

  // The whole result of a shift by 16 * dig + k bits.
  function Shifted(s: seq<u16>, dig: nat, w: nat, h: nat): seq<u16>
    requires w > 0 && Factors(w, h)
  {
    OutFits(s, 0, w);
    Zeros(dig) + Made(s, w, h) + if Out(s, 0, w) > 0 then [Out(s, 0, w)] else []
  }

  lemma Widths(k: nat)
    requires k < 16
    ensures Factors(Pow2(16 - k), Pow2(k))
  {
    Sixteen();
    Pow2Add(16 - k, k);
  }

  // The shift multiplies by the power of two exactly for those numbers.
  lemma ShiftedIsProduct(s: seq<u16>, dig: nat, k: nat)
    requires s != [] && k < 16
    ensures Factors(Pow2(16 - k), Pow2(k))
    ensures Value(Shifted(s, dig, Pow2(16 - k), Pow2(k))) == Value(s) * Pow2(16 * dig + k)
      <==> Harmless(s, Pow2(16 - k))
  {
    Widths(k);
    var w, h := Pow2(16 - k), Pow2(k);
    OutFits(s, 0, w);
    MadeIsMeant(s, w, h);
    var body, top := Made(s, w, h), Out(s, 0, w);
    ValueMore(body, top);
    var tail := body + if top > 0 then [top] else [];
    assert Value(tail) == Value(body + [top]) by { if top == 0 { assert tail == body; } }
    assert Shifted(s, dig, w, h) == Zeros(dig) + tail;
    ValueJoin(Zeros(dig), tail);
    ValueZeros(Zeros(dig));
    PowIs(dig);
    Pow2Add(16 * dig, k);
    hide Value, Pow, Pow2, Shifted, Harmless, Made;
    Cancel(Pow(dig), Value(tail), Value(s), h);
  }

  lemma Cancel(p: nat, t: nat, v: nat, h: nat)
    requires p > 0
    ensures p * t == v * (p * h) <==> t == v * h
  {
    assert v * (p * h) == p * (v * h);
    if t > v * h { Larger(p, v * h, t); }
    if t < v * h { Larger(p, t, v * h); }
  }

  lemma Larger(p: nat, a: nat, b: nat)
    requires p > 0 && a < b
    ensures p * a < p * b
  {
  }

  // 0x18000 shifted left by one gives 0x100020000, not 0x30000.
  lemma ShiftGoesWrong()
    ensures Value([0x8000, 1]) == 0x1_8000
    ensures Factors(Pow2(15), Pow2(1)) && Value(Shifted([0x8000, 1], 0, Pow2(15), Pow2(1))) == 0x1_0002_0000
  {
    Widths(1);
    assert Pow2(1) == 2 && Pow2(15) == 0x8000;
    var s := [0x8000, 1];
    assert Made(s, 0x8000, 2) == [0, 2];
    assert Shifted(s, 0, 0x8000, 2) == [0, 2, 1];
  }

  // Shifts by whole digits, and of single digits, are not concerned.
  lemma HarmlessWhere(s: seq<u16>, k: nat)
    requires k < 16 && (k == 0 || |s| <= 1)
    ensures Harmless(s, Pow2(16 - k))
  {
    if k == 0 { Sixteen(); }
  }

  // lshift of a number in place.
  method LShift(x: Int, n: int)
    requires x.Valid() && (x.len > 0 && n > 0 ==> x.len + n / 16 + 1 <= x.digits.Length)
    modifies x, x.digits
    ensures x.Fits()
    ensures n <= 0 ==> x.Number() == old(x.Number())
    ensures n > 0 && old(x.len) > 0 ==>
      (x.Number() == old(x.Number()) * Pow2(n) <==> Harmless(old(x.digits[..x.len]), Pow2(16 - n % 16)))
  {
    if x.len == 0 || n <= 0 { return; }
    var dig, k := n / 16, n % 16;
    ghost var s := x.digits[..x.len];
    ShiftedIsProduct(s, dig, k);
    hide Made, Out, Harmless, Value, Pow, Pow2, Normal;
    var carry := ShiftUp(x, dig, k);
    Complete(x, dig, carry, Made(s, Pow2(16 - k), Pow2(k)));
    assert x.digits[..x.len] == Shifted(s, dig, Pow2(16 - k), Pow2(k));
  }

  // What follows its loop: the carry on top, and zeros below.
  method Complete(x: Int, dig: nat, carry: u16, ghost made: seq<u16>)
    requires x.len == |made| && x.len + dig < x.digits.Length && x.digits[dig..dig + x.len] == made
    modifies x, x.digits
    ensures x.Fits() && x.digits[..x.len] == Zeros(dig) + made + if carry > 0 then [carry] else []
  {
    x.len := x.len + dig;
    if carry > 0 {
      x.digits[x.len] := carry;
      x.len := x.len + 1;
    }
    var i: nat := 0;
    ghost var n := x.len;
    ghost var done := made + if carry > 0 then [carry] else [];
    assert x.digits[dig..x.len] == done;
    while i < dig
      invariant i <= dig && x.len == n && (forall j :: 0 <= j < i ==> x.digits[j] == 0) && x.digits[dig..n] == done
    {
      x.digits[i] := 0;
      i := i + 1;
    }
    assert x.digits[..dig] == Zeros(dig);
  }

  lemma MadeFrom(s: seq<u16>, i: nat, w: nat, h: nat)
    requires w > 0 && Factors(w, h) && i < |s|
    ensures Lower(s[i], h) + Out(s, i + 1, w) < HALF && Upper(s[i], w) == Out(s, i, w) < HALF
    ensures Made(s, w, h)[i..] == [Lower(s[i], h) + Out(s, i + 1, w)] + Made(s, w, h)[i + 1..]
  {
    Parts(s, i, i + 1, w, h);
    OutFits(s, i, w);
  }

  lemma NoneOut(s: seq<u16>, w: nat)
    requires w > 0
    ensures Out(s, |s|, w) == 0
  {
  }

  // Its loop.
  method ShiftUp(x: Int, dig: nat, k: nat) returns (carry: u16)
    requires x.Fits() && x.len > 0 && k < 16 && x.len + dig < x.digits.Length
    modifies x.digits
    ensures Factors(Pow2(16 - k), Pow2(k))
    ensures x.digits[dig..dig + x.len] == Made(old(x.digits[..x.len]), Pow2(16 - k), Pow2(k))
    ensures carry == Out(old(x.digits[..x.len]), 0, Pow2(16 - k))
  {
    hide Pow2, Value, Pow, Normal, Made, Out, Factors, Lower, Upper;
    Widths(k);
    ghost var s := x.digits[..x.len];
    NoneOut(s, Pow2(16 - k));
    var i: nat := x.len;
    carry := 0;
    while i > 0
      invariant i <= x.len && (forall j :: 0 <= j < i ==> x.digits[j] == s[j]) && carry == Out(s, i, Pow2(16 - k))
      invariant x.digits[dig + i..dig + x.len] == Made(s, Pow2(16 - k), Pow2(k))[i..]
    {
      i := i - 1;
      var tmp := x.digits[i];
      ghost var was := x.digits[dig + i + 1..dig + x.len];
      MadeFrom(s, i, Pow2(16 - k), Pow2(k));
      x.digits[i + dig] := Lower(tmp, Pow2(k)) + carry;
      assert x.digits[dig + i + 1..dig + x.len] == was;
      assert x.digits[dig + i..dig + x.len] == [x.digits[i + dig]] + was;
      carry := Upper(tmp, Pow2(16 - k));
    }
  }
}
