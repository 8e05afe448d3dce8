/** The bigint template of src/shared/crypto.cpp: digit loops over arrays of fixed capacity, run in
    place. */
module BigInt {
  import opened Words
  import opened Numbers
  import opened Digits

  class Int {
    var len: nat
    const digits: array<u16>

    constructor (capacity: nat)
      ensures Valid() && Number() == 0 && digits.Length == capacity && fresh(digits)
    {
      digits := new u16[capacity];
      len := 0;
    }

    ghost predicate Fits()
      reads this, digits
    {
      len <= digits.Length
    }

    // Every operation leaves no leading zeros.
    ghost predicate Valid()
      reads this, digits
    {
      Fits() && Normal(digits[..len])
    }

    ghost function Number(): nat
      reads this, digits
      requires Fits()
    {
      Value(digits[..len])
    }

    // Arrays are not shared between numbers.
    ghost predicate Apart(x: Int) {
      x == this || x.digits != digits
    }

    method Shrink()
      requires Fits()
      modifies this`len
      ensures Valid() && Number() == old(Number()) && len <= old(len)
    {
      while len > 0 && digits[len - 1] == 0
        invariant len <= old(len) && Value(digits[..len]) == Value(digits[..old(len)])
      {
        ValueMore(digits[..len - 1], 0);
        assert digits[..len] == digits[..len - 1] + [0];
        len := len - 1;
      }
    }

    method Add(x: Int, y: Int)
      requires x.Valid() && y.Valid() && Apart(x) && Apart(y)
      requires x.Number() + y.Number() < Pow(digits.Length)
      modifies this, digits
      ensures Valid() && Number() == old(x.Number() + y.Number())
    {
      hide Value, Pow, Adding, Normal;
      ghost var xs, ys := x.digits[..x.len], y.digits[..y.len];
      LengthBound(xs, digits.Length);
      AddingStart(xs, ys);
      var carry: nat, i: nat := 0, 0;
      var maxlen := if x.len > y.len then x.len else y.len;
      assert digits[..0] == [];
      while i < y.len || carry > 0
        invariant i <= digits.Length && x.len == |xs| && y.len == |ys|
        invariant forall j :: i <= j < |xs| ==> x.digits[j] == xs[j]
        invariant forall j :: i <= j < |ys| ==> y.digits[j] == ys[j]
        invariant carry <= 1 && Adding(xs, ys, digits[..i], carry)
        decreases digits.Length - i
      {
        AddingFits(xs, ys, digits[..i], carry, digits.Length);
        AddingStep(xs, ys, digits[..i], carry);
        carry := carry + (if i < x.len then x.digits[i] else 0) + (if i < y.len then y.digits[i] else 0);
        ghost var low := digits[..i];
        digits[i] := carry % HALF;
        assert digits[..i + 1] == low + [carry % HALF];
        carry := carry / HALF;
        i := i + 1;
      }
      AddingEnd(xs, ys, digits[..i]);
      ghost var low := digits[..i];
      if i < x.len && this != x {
        forall j | i <= j < x.len { digits[j] := x.digits[j]; }
      }
      assert digits[..if i < |xs| then |xs| else i] == if i < |xs| then low + xs[i..] else low;
      len := if i > maxlen then i else maxlen;
    }

    method Sub(x: Int, y: Int)
      requires x.Valid() && y.Valid() && Apart(x) && Apart(y) && x.len <= digits.Length
      requires x.Number() >= y.Number()
      modifies this, digits
      ensures Valid() && Number() == old(x.Number() - y.Number())
    {
      hide Value, Pow, Subtracting, Normal;
      ghost var xs, ys := x.digits[..x.len], y.digits[..y.len];
      SubtractingStart(xs, ys);
      var borrow: nat, i: nat := 0, 0;
      assert digits[..0] == [];
      while i < y.len || borrow > 0
        invariant i <= |xs| <= digits.Length && x.len == |xs| && y.len == |ys|
        invariant forall j :: i <= j < |xs| ==> x.digits[j] == xs[j]
        invariant forall j :: i <= j < |ys| ==> y.digits[j] == ys[j]
        invariant borrow <= 1 && Subtracting(xs, ys, digits[..i], borrow)
        decreases |xs| - i
      {
        SubtractingFits(xs, ys, digits[..i], borrow);
        SubtractingStep(xs, ys, digits[..i], borrow);
        var rest := HALF + x.digits[i] - (if i < y.len then y.digits[i] else 0) - borrow;
        ghost var low := digits[..i];
        digits[i] := rest % HALF;
        assert digits[..i + 1] == low + [rest % HALF];
        borrow := 1 - rest / HALF;
        i := i + 1;
      }
      SubtractingEnd(xs, ys, digits[..i]);
      ghost var low := digits[..i];
      if i < x.len && this != x {
        forall j | i <= j < x.len { digits[j] := x.digits[j]; }
      }
      assert digits[..|xs|] == low + xs[i..];
      len := x.len;
      Shrink();
    }

    method Less(y: Int) returns (less: bool)
      requires Valid() && y.Valid()
      ensures less <==> Number() < y.Number()
    {
      ghost var xs, ys := digits[..len], y.digits[..y.len];
      if len < y.len { LongerIsGreater(xs, ys); return true; }
      if len > y.len { LongerIsGreater(ys, xs); return false; }
      var i: nat := len;
      while i > 0
        invariant i <= len && xs[i..] == ys[i..]
      {
        i := i - 1;
        if digits[i] < y.digits[i] { TopDecides(xs, ys, i); return true; }
        if digits[i] > y.digits[i] { TopDecides(ys, xs, i); return false; }
        assert xs[i..] == [xs[i]] + xs[i + 1..] && ys[i..] == [ys[i]] + ys[i + 1..];
      }
      assert xs == xs[0..] == ys[0..] == ys;
      less := false;
    }

    method Equal(y: Int) returns (equal: bool)
      requires Valid() && y.Valid()
      ensures equal <==> Number() == y.Number()
    {
      ghost var xs, ys := digits[..len], y.digits[..y.len];
      if Number() == y.Number() { Unique(xs, ys); }
      if len != y.len { return false; }
      var i: nat := len;
      while i > 0
        invariant i <= len && xs[i..] == ys[i..]
      {
        i := i - 1;
        if digits[i] != y.digits[i] { assert xs[i] != ys[i]; return false; }
        assert xs[i..] == [xs[i]] + xs[i + 1..] && ys[i..] == [ys[i]] + ys[i + 1..];
      }
      assert xs == xs[0..] == ys[0..] == ys;
      equal := true;
    }

    // The inner loop of mul: digit m times y is added to what stands from digit i on.
    method MulRow(m: u16, y: Int, i: nat)
      requires y.Fits() && y.digits != digits && i + y.len < digits.Length
      modifies digits
      ensures digits[..i] == old(digits[..i])
      ensures Value(digits[i..i + y.len + 1]) == Value(old(digits[i..i + y.len])) + m * y.Number()
    {
      hide Value, Pow, Rowing, MulAdd;
      ghost var was, ys := digits[i..i + y.len], y.digits[..y.len];
      var carry: nat, j: nat := 0, 0;
      assert digits[i..i + 0] == [];
      RowingStart(was, ys, m);
      while j < y.len
        invariant j <= y.len && digits[..i] == old(digits[..i])
        invariant forall k :: j <= k < y.len ==> digits[i + k] == was[k]
        invariant Rowing(digits[i..i + j], was, ys, m, carry)
      {
        ghost var low := digits[i..i + j];
        MulRowStep(low, was, ys, m, carry);
        carry := MulAdd(carry, m, y.digits[j], digits[i + j]);
        digits[i + j] := carry % HALF;
        assert digits[i..i + (j + 1)] == low + [carry % HALF];
        carry := carry / HALF;
        j := j + 1;
      }
      ghost var low := digits[i..i + j];
      RowingEnd(low, was, ys, m, carry);
      digits[i + y.len] := carry;
      assert digits[i..i + y.len + 1] == low + [carry];
    }

    method Mul(x: Int, y: Int)
      requires x.Valid() && y.Valid() && x != this && y != this && x.digits != digits && y.digits != digits
      requires x.len + y.len <= digits.Length
      modifies this, digits
      ensures Valid() && Number() == x.Number() * y.Number()
    {
      hide Value, Pow, Normal;
      ghost var xs := x.digits[..x.len];
      if x.len == 0 || y.len == 0 {
        Nothing();
        len := 0;
        return;
      }
      forall j | 0 <= j < y.len { digits[j] := 0; }
      ValueZeros(digits[..y.len]);
      Nothing();
      var i: nat := 0;
      assert xs[..0] == [];
      while i < x.len
        invariant i <= x.len && Value(digits[..i + y.len]) == Value(xs[..i]) * y.Number()
      {
        ghost var before := digits[..i + y.len];
        assert before[i..] == digits[i..i + y.len];
        MulRow(x.digits[i], y, i);
        ghost var after := digits[..i + y.len + 1];
        assert after[i..] == digits[i..i + y.len + 1] && after[..i] == digits[..i] == before[..i];
        MulRowSum(before, after, xs, y.Number(), i);
        i := i + 1;
      }
      assert xs[..i] == xs;
      len := x.len + y.len;
      Shrink();
    }

    // rshift of a number in place. The source bounds its loop by 16 digits.
    method RShift(n: int)
      requires Valid() && len <= 16 && (len > 0 && n > 0 ==> (n - 1) / 16 < len)
      modifies this, digits
      ensures Valid() && Number() == if n <= 0 then old(Number()) else old(Number()) / Pow2(n)
    {
      hide Value, Pow, Pow2, Normal, Shifting;
      if len == 0 || n <= 0 {
        Nothing();
        return;
      }
      var dig: nat, k: nat := (n - 1) / 16, (n - 1) % 16 + 1;
      ghost var s := digits[..len];
      var carry := ShiftDigits(dig, k);
      ghost var low := digits[..len - dig - 1];
      assert s[dig..] == old(digits[dig..len]);
      ShiftEnd(low, s, dig, k, carry);
      digits[len - dig - 1] := carry;
      assert digits[..len - dig] == low + [carry];
      len := len - dig;
      Shrink();
    }

    // Its loop.
    method ShiftDigits(dig: nat, k: nat) returns (carry: nat)
      requires Fits() && dig < len && 0 < k <= 16
      modifies digits
      ensures Shifting(digits[..len - dig - 1], old(digits[dig..len]), Pow2(k), Pow2(16 - k), carry)
    {
      hide Value, Pow, Pow2, Normal, Shifting, Lower, Upper;
      ghost var tail := digits[dig..len];
      carry := Upper(digits[dig], Pow2(k));
      ShiftWidths(k);
      ShiftStart(tail, Pow2(k), Pow2(16 - k));
      var m: nat := 0;
      assert digits[..0] == [];
      while m + 1 < len - dig
        invariant m < len - dig == |tail| && forall j :: m < j < |tail| ==> digits[dig + j] == tail[j]
        invariant Shifting(digits[..m], tail, Pow2(k), Pow2(16 - k), carry)
      {
        ghost var low := digits[..m];
        ShiftMore(low, tail, Pow2(k), Pow2(16 - k), carry);
        var tmp := digits[dig + m + 1];
        digits[m] := Lower(tmp, Pow2(16 - k)) + carry;
        assert digits[..m + 1] == low + [digits[m]];
        carry := Upper(tmp, Pow2(k));
        m := m + 1;
      }
      assert digits[..len - dig - 1] == digits[..m];
    }

    method HasBit(n: nat) returns (bit: bool)
      requires Valid()
      ensures bit <==> Bit(Number(), n)
    {
      BitOfDigit(digits[..len], n);
      bit := n / 16 < len && digits[n / 16] / Pow2(n % 16) % 2 == 1;
    }

    method NumBits() returns (bits: nat)
      requires Valid()
      ensures HasBits(Number(), bits)
    {
      hide Value, Pow, Pow2, Bit;
      PowerOfNone();
      bits := 0;
      if len == 0 { Nothing(); return; }
      var last, b: nat := digits[len - 1], 16;
      Sixteen();
      while b > 0
        invariant b <= 16 && last < Pow2(b)
      {
        TopBit(last, b);
        if Bit(last, b - 1) {
          BitsOfTop(digits[..len], b);
          return 16 * (len - 1) + b;
        }
        b := b - 1;
      }
    }
  }

  lemma PowerOfNone()
    ensures Pow2(0) == 1
  {
  }

  lemma Nothing()
    ensures Value([]) == 0
  {
  }
}
