/** Numbers as text: parse and printdigits of the bigint template of src/shared/crypto.cpp. */
module HexText {
  import opened Words
  import opened Digits
  import opened BigInt

  // isxdigit, of characters of the ASCII range.
  predicate IsHex(c: char) { '0' <= c <= '9' || 'a' <= c <= 'f' || 'A' <= c <= 'F' }

  function Nibble(c: char): (n: nat)
    requires IsHex(c)
    ensures n < 16
  {
    if c <= '9' then c as int - '0' as int
    else if c <= 'F' then c as int - 'A' as int + 10
    else c as int - 'a' as int + 10
  }

  function Character(n: nat): (c: char)
    requires n < 16
    ensures IsHex(c) && Nibble(c) == n
  {
    if n < 10 then ('0' as int + n) as char else ('a' as int + (n - 10)) as char
  }

  const DIGITS := "0123456789abcdef"
  const CAPITALS := "0123456789ABCDEF"

  // Which character is which digit.
  lemma CharacterIs(k: nat)
    requires k < 16
    ensures Character(k) == DIGITS[k] && Nibble(DIGITS[k]) == k && Nibble(CAPITALS[k]) == k
  {
  }

  lemma HexIs(c: char)
    ensures IsHex(c) <==> c in DIGITS || c in CAPITALS
  {
    if IsHex(c) {
      var k := Nibble(c);
      assert c == DIGITS[k] || c == CAPITALS[k];
    }
  }

  // How many characters of a text are hexadecimal digits before the first that is not.
  function Leading(s: string): (n: nat)
    ensures n <= |s| && (forall i :: 0 <= i < n ==> IsHex(s[i])) && (n < |s| ==> !IsHex(s[n]))
  {
    if s == [] || !IsHex(s[0]) then 0 else 1 + Leading(s[1..])
  }

  ghost predicate AllHex(s: string) { forall i :: 0 <= i < |s| ==> IsHex(s[i]) }

  // The number a hexadecimal numeral stands for.
  function Numeral(s: string): nat
    requires AllHex(s)
  {
    if s == [] then 0 else 16 * Numeral(s[..|s| - 1]) + Nibble(s[|s| - 1])
  }

  function Pow16(n: nat): (p: nat)
    ensures p > 0
  {
    if n == 0 then 1 else 16 * Pow16(n - 1)
  }

  // A digit written in front.
  lemma {:induction false} NumeralFront(c: char, s: string)
    requires IsHex(c) && AllHex(s)
    ensures Numeral([c] + s) == Nibble(c) * Pow16(|s|) + Numeral(s)
    decreases |s|
  {
    if s == [] {
      assert [c] + s == [c] && [c][..0] == [];
    } else {
      var front := s[..|s| - 1];
      assert ([c] + s)[..|s|] == [c] + front;
      NumeralFront(c, front);
      assert Pow16(|s|) == 16 * Pow16(|front|);
      hide Pow16, Nibble, IsHex;
      Sixteenfold(Nibble(c), Pow16(|front|));
    }
  }

  lemma Sixteenfold(n: nat, p: nat)
    ensures n * (16 * p) == 16 * (n * p)
  {
  }

  lemma NumeralMore(s: string, c: char)
    requires AllHex(s) && IsHex(c)
    ensures AllHex(s + [c]) && Numeral(s + [c]) == 16 * Numeral(s) + Nibble(c)
  {
    assert (s + [c])[..|s|] == s;
  }

  // Four hexadecimal digits are one of 16 bits.
  lemma {:induction false} Pow16Digit(k: nat, r: nat)
    ensures Pow16(4 * k + r) == Pow(k) * Pow16(r)
    decreases k
  {
    if k > 0 {
      Pow16Digit(k - 1, r);
      var n := 4 * (k - 1) + r;
      assert 4 * k + r == n + 4;
      assert Pow16(n + 4) == 16 * Pow16(n + 3) && Pow16(n + 3) == 16 * Pow16(n + 2);
      assert Pow16(n + 2) == 16 * Pow16(n + 1) && Pow16(n + 1) == 16 * Pow16(n);
      PowNext(k - 1);
      assert HALF * Pow(k - 1) * Pow16(r) == HALF * (Pow(k - 1) * Pow16(r));
    }
  }

  lemma ValueUpdate(s: seq<u16>, k: nat, d: u16)
    requires k < |s| && s[k] <= d
    ensures Value(s[k := d]) == Value(s) + Pow(k) * (d - s[k])
  {
    var t := s[k := d];
    Split(s, k);
    Split(t, k);
    assert t[..k] == s[..k] && t[k..] == [d] + s[k + 1..] && s[k..] == [s[k]] + s[k + 1..];
    ValueHead(s[k..]);
    ValueHead(t[k..]);
    assert t[k..][1..] == s[k..][1..];
    Regrouped(Pow(k), s[k], d, HALF * Value(s[k + 1..]));
  }

  lemma Regrouped(p: nat, a: nat, d: nat, rest: nat)
    requires a <= d
    ensures p * (d + rest) == p * (a + rest) + p * (d - a)
  {
  }

  // --- parse ---

  // The low digits hold the last i characters, and nothing stands above them.
  ghost predicate Parsing(ds: seq<u16>, s: string, i: nat) {
    && i <= |s| <= 4 * |ds| && AllHex(s) && Value(ds) == Numeral(s[|s| - i..])
    && (forall k :: i / 4 < k < |ds| ==> ds[k] == 0) && (i / 4 < |ds| ==> ds[i / 4] < Pow16(i % 4))
  }

  // The next one is or-ed in above them, where the digit has only zeros yet.
  lemma ParsingStep(ds: seq<u16>, s: string, i: nat)
    requires Parsing(ds, s, i) && i < |s|
    ensures i / 4 < |ds| && IsHex(s[|s| - i - 1])
    ensures var d := ds[i / 4] + Nibble(s[|s| - i - 1]) * Pow16(i % 4);
      d < HALF && Parsing(ds[i / 4 := d], s, i + 1)
  {
    var k, r := i / 4, i % 4;
    NibbleFits(ds[k], Nibble(s[|s| - i - 1]), r);
    ParsingValue(ds, s, i, k, r, Nibble(s[|s| - i - 1]));
    assert if r < 3 then (i + 1) / 4 == k && (i + 1) % 4 == r + 1 else (i + 1) / 4 == k + 1 && (i + 1) % 4 == 0;
    assert Pow16(0) == 1;
    hide Pow16, Value, Numeral, Nibble, IsHex, AllHex, Pow;
  }

  lemma ParsingValue(ds: seq<u16>, s: string, i: nat, k: nat, r: nat, n: nat)
    requires i < |s| && AllHex(s) && Value(ds) == Numeral(s[|s| - i..]) && n == Nibble(s[|s| - i - 1])
    requires i == 4 * k + r && k < |ds| && ds[k] + n * Pow16(r) < HALF
    ensures Value(ds[k := ds[k] + n * Pow16(r)]) == Numeral(s[|s| - i - 1..])
  {
    hide Pow16, Value, Numeral, Nibble, IsHex, Pow;
    var c := s[|s| - i - 1];
    assert s[|s| - i - 1..] == [c] + s[|s| - i..];
    NumeralFront(c, s[|s| - i..]);
    Pow16Digit(k, r);
    ValueUpdate(ds, k, ds[k] + n * Pow16(r));
    Reordered(Pow(k), n, Pow16(r));
  }

  lemma Reordered(p: nat, n: nat, q: nat)
    ensures p * (n * q) == n * (p * q)
  {
  }

  lemma NibbleFits(d: nat, n: nat, r: nat)
    requires n < 16 && r < 4 && d < Pow16(r)
    ensures d + n * Pow16(r) < HALF
    ensures r < 3 ==> d + n * Pow16(r) < Pow16(r + 1)
  {
    assert Pow16(0) == 1 && Pow16(1) == 16 && Pow16(2) == 256 && Pow16(3) == 4096;
    if r < 3 { assert Pow16(r + 1) == 16 * Pow16(r); }
  }

  method HexLength(s: string) returns (slen: nat)
    ensures slen == Leading(s)
  {
    slen := 0;
    while slen < |s| && IsHex(s[slen])
      invariant slen <= Leading(s)
    {
      LeadingMore(s, slen);
      slen := slen + 1;
    }
    LeadingIs(s, slen);
  }

  // The loop of parsedigits over the characters, from the last, onto digits that are zero.
  method OrDigits(digits: array<u16>, n: nat, text: string)
    requires n <= digits.Length && AllHex(text) && |text| <= 4 * n && forall k :: 0 <= k < n ==> digits[k] == 0
    modifies digits
    ensures Value(digits[..n]) == Numeral(text)
  {
    ParsingStart(digits[..n], text);
    hide *;
    var i: nat := 0;
    while i < |text|
      invariant i <= |text| && Parsing(digits[..n], text, i)
    {
      OrDigit(digits, n, text, i);
      i := i + 1;
    }
    ParsingEnd(digits[..n], text);
  }

  method OrDigit(digits: array<u16>, n: nat, text: string, i: nat)
    requires n <= digits.Length && i < |text| && Parsing(digits[..n], text, i)
    modifies digits
    ensures Parsing(digits[..n], text, i + 1)
  {
    hide Parsing, Value, Numeral, Pow16, Nibble, IsHex, AllHex;
    ParsingStep(digits[..n], text, i);
    Write(digits, n, i / 4, digits[i / 4] + Nibble(text[|text| - i - 1]) * Pow16(i % 4));
  }

  method Write(digits: array<u16>, n: nat, k: nat, d: u16)
    requires k < n <= digits.Length
    modifies digits
    ensures digits[..n] == old(digits[..n])[k := d]
  {
    digits[k] := d;
  }

  lemma ParsingEnd(ds: seq<u16>, s: string)
    requires Parsing(ds, s, |s|)
    ensures AllHex(s) && Value(ds) == Numeral(s)
  {
    assert s[|s| - |s|..] == s;
  }

  method ParseDigits(digits: array<u16>, s: string) returns (len: nat)
    modifies digits
    ensures len <= digits.Length
    ensures Value(digits[..len]) == if Leading(s) <= 4 * digits.Length then Numeral(s[..Leading(s)]) else 0
  {
    var slen := HexLength(s);
    len := (slen + 3) / 4;
    if len > digits.Length { return 0; }
    var i: nat := 0;
    while i < len
      invariant i <= len && forall j :: 0 <= j < i ==> digits[j] == 0
    {
      digits[i] := 0;
      i := i + 1;
    }
    OrDigits(digits, len, s[..slen]);
  }

  // A number with too many digits for the capacity reads as 0.
  method Parse(x: Int, s: string)
    modifies x, x.digits
    ensures x.Valid()
    ensures x.Number() == if Leading(s) <= 4 * x.digits.Length then Numeral(s[..Leading(s)]) else 0
  {
    x.len := ParseDigits(x.digits, s);
    x.Shrink();
  }

  lemma ParsingStart(ds: seq<u16>, s: string)
    requires AllHex(s) && |s| <= 4 * |ds| && forall k :: 0 <= k < |ds| ==> ds[k] == 0
    ensures Parsing(ds, s, 0)
  {
    ValueZeros(ds);
    assert s[|s|..] == [];
    assert Pow16(0) == 1;
  }

  lemma {:induction false} LeadingMore(s: string, n: nat)
    requires n < |s| && n <= Leading(s) && IsHex(s[n])
    ensures n < Leading(s)
  {
  }

  lemma LeadingIs(s: string, n: nat)
    requires n <= Leading(s) && (n == |s| || !IsHex(s[n]))
    ensures n == Leading(s)
  {
  }

  // --- printdigits ---

  // The next character of a digit, k below its top four bits.
  lemma NextNibble(d: u16, k: nat)
    requires k < 4
    ensures d / Pow16(k) == 16 * (d / Pow16(k + 1)) + d / Pow16(k) % 16
  {
    assert Pow16(0) == 1 && Pow16(1) == 16 && Pow16(2) == 0x100 && Pow16(3) == 0x1000 && Pow16(4) == HALF;
    if k == 0 {} else if k == 1 {} else if k == 2 {} else {}
  }

  lemma NibbleWritten(s: string, buf: string, j: nat, d: u16)
    requires AllHex(s) && AllHex(buf) && j < 4 && Numeral(buf) == Pow16(j) * Numeral(s) + d / Pow16(4 - j)
    ensures var t := buf + [Character(d / Pow16(3 - j) % 16)];
      AllHex(t) && Numeral(t) == Pow16(j + 1) * Numeral(s) + d / Pow16(3 - j)
  {
    NumeralMore(buf, Character(d / Pow16(3 - j) % 16));
    NextNibble(d, 3 - j);
    assert Pow16(j + 1) == 16 * Pow16(j);
    hide Numeral, Pow16, AllHex, Character;
    assert 16 * (Pow16(j) * Numeral(s)) == 16 * Pow16(j) * Numeral(s);
  }

  // The inner loop: four bits at a time, from the top.
  method PrintDigit(d: u16, buf: string) returns (buf': string)
    requires AllHex(buf)
    ensures AllHex(buf') && |buf'| == |buf| + 4 && Numeral(buf') == HALF * Numeral(buf) + d
  {
    assert Pow16(0) == 1 && Pow16(4) == HALF;
    hide Numeral, Pow16, AllHex, Character;
    buf' := buf;
    var j: nat := 0;
    while j < 4
      invariant j <= 4 && AllHex(buf') && |buf'| == |buf| + j
      invariant Numeral(buf') == Pow16(j) * Numeral(buf) + d / Pow16(4 - j)
    {
      NibbleWritten(buf, buf', j, d);
      buf' := buf' + [Character(d / Pow16(3 - j) % 16)];
      j := j + 1;
    }
  }

  // From the top digit down.
  method PrintDigits(x: Int) returns (buf: string)
    requires x.Valid()
    ensures AllHex(buf) && |buf| == 4 * x.len && Numeral(buf) == x.Number()
  {
    buf := "";
    ghost var ds := x.digits[..x.len];
    assert ds[x.len..] == [];
    var i: nat := 0;
    while i < x.len
      invariant i <= x.len && AllHex(buf) && |buf| == 4 * i && Numeral(buf) == Value(ds[x.len - i..])
    {
      hide Numeral, IsHex, AllHex, Value, Normal;
      ValueHead(ds[x.len - i - 1..]);
      assert ds[x.len - i - 1..][1..] == ds[x.len - i..];
      buf := PrintDigit(x.digits[x.len - i - 1], buf);
      i := i + 1;
    }
    assert ds[x.len - i..] == ds;
  }

  // A number printed and read again is the same number, whatever but a digit follows it.
  method PrintParse(x: Int, y: Int, rest: string) returns (buf: string)
    requires x.Valid() && x.len <= y.digits.Length && x != y && x.digits != y.digits
    requires rest != [] ==> !IsHex(rest[0])
    modifies y, y.digits
    ensures y.Valid() && y.Number() == x.Number() && y.digits[..y.len] == x.digits[..x.len]
  {
    buf := PrintDigits(x);
    Parse(y, buf + rest);
    LeadingJoin(buf, rest);
    assert (buf + rest)[..|buf|] == buf;
    Unique(x.digits[..x.len], y.digits[..y.len]);
  }

  lemma {:induction false} LeadingJoin(s: string, rest: string)
    requires AllHex(s) && (rest != [] ==> !IsHex(rest[0]))
    ensures Leading(s + rest) == |s|
  {
    if s == [] {
      assert s + rest == rest;
    } else {
      assert (s + rest)[1..] == s[1..] + rest;
      LeadingJoin(s[1..], rest);
    }
  }
}