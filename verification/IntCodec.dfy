/** The packet integers and strings of src/shared/tools.cpp, written into and read from byte buffers
    in place. */
module IntCodec {
  import opened Words

  const INT_MAX := 0x7fff_ffff

  type int32 = n: int | -0x8000_0000 <= n <= 0x7fff_ffff

  // The conversions of C: to an unsigned char, and from one to a signed char.
  function Low(n: int): u8 { n % BYTE }
  function Signed(b: u8): int { if b < 128 then b else b - BYTE }

  // --- What is written. ---

  function IntBytes(n: int32): (s: seq<u8>)
    ensures 1 <= |s| <= 5
  {
    if -127 < n < 128 then [Low(n)]
    else if -0x8000 <= n < 0x8000 then [0x80, Low(n), Low(n / BYTE)]
    else [0x81, Low(n), Low(n / BYTE), Low(n / HALF), Low(n / (BYTE * HALF))]
  }

  function UintBytes(n: int32): (s: seq<u8>)
    ensures 1 <= |s| <= 4
  {
    if n < 0 || n >= 0x20_0000 then [128 + n % 128, 128 + n / 128 % 128, 128 + n / 0x4000 % 128, Low(n / 0x20_0000)]
    else if n < 128 then [n]
    else if n < 0x4000 then [128 + n % 128, n / 128]
    else [128 + n % 128, 128 + n / 128 % 128, n / 0x4000]
  }

  // --- What is read: a byte past the end reads as 0. ---

  function ByteAt(s: seq<u8>, i: nat): u8 { if i < |s| then s[i] else 0 }

  // The value at position i and the position behind it.
  function IntAt(s: seq<u8>, i: nat): (int32, nat) {
    var c := Signed(ByteAt(s, i));
    if c == -128 then (ByteAt(s, i + 1) + BYTE * Signed(ByteAt(s, i + 2)), Past(s, i + 3))
    else if c == -127 then
      (ByteAt(s, i + 1) + BYTE * ByteAt(s, i + 2) + HALF * ByteAt(s, i + 3) + BYTE * HALF * Signed(ByteAt(s, i + 4)),
        Past(s, i + 5))
    else (c, Past(s, i + 1))
  }

  function Past(s: seq<u8>, i: nat): nat { if i <= |s| then i else |s| }

  function UintAt(s: seq<u8>, i: nat): (int32, nat) {
    var b0, b1, b2, b3 := ByteAt(s, i), ByteAt(s, i + 1), ByteAt(s, i + 2), ByteAt(s, i + 3);
    if b0 < 128 then (b0, Past(s, i + 1))
    else if b1 < 128 then (b0 - 128 + 128 * b1, Past(s, i + 2))
    else if b2 < 128 then (b0 - 128 + 128 * (b1 - 128) + 0x4000 * b2, Past(s, i + 3))
    else (b0 - 128 + 128 * (b1 - 128) + 0x4000 * (b2 - 128) + 0x20_0000 * Signed(b3), Past(s, i + 4))
  }

  // --- The integers come back. ---

  lemma IntRoundTrip(before: seq<u8>, n: int32, rest: seq<u8>)
    ensures IntAt(before + IntBytes(n) + rest, |before|) == (n, |before + IntBytes(n)|)
  {
    var s := before + IntBytes(n) + rest;
    assert forall k :: 0 <= k < |IntBytes(n)| ==> s[|before| + k] == IntBytes(n)[k];
    if -127 < n < 128 {
      assert s[|before|] == Low(n);
    } else if -0x8000 <= n < 0x8000 {
      assert s[|before|] == 0x80 && s[|before| + 1] == Low(n) && s[|before| + 2] == Low(n / BYTE);
    } else {
      assert s[|before|] == 0x81 && s[|before| + 1] == Low(n) && s[|before| + 2] == Low(n / BYTE);
      assert s[|before| + 3] == Low(n / HALF) && s[|before| + 4] == Low(n / (BYTE * HALF));
      FourBytes(n);
    }
  }

  lemma FourBytes(n: int32)
    ensures n == Low(n) + BYTE * Low(n / BYTE) + HALF * Low(n / HALF) + BYTE * HALF * Signed(Low(n / (BYTE * HALF)))
  {
    assert n / BYTE / BYTE == n / HALF && n / HALF / BYTE == n / (BYTE * HALF);
  }

  // One byte; or 128 and two bytes; or 129 and four, the low ones first: always the shortest that will do.
  lemma IntForm(n: int32)
    ensures var s := IntBytes(n);
      && (|s| == 1 <==> -126 <= n <= 127) && (|s| == 3 <==> -32768 <= n <= 32767 && !(-126 <= n <= 127))
      && (|s| == 1 ==> s[0] == n % 256)
      && (|s| == 3 ==> s[0] == 128 && s[1] as int + 256 * s[2] as int == n % 65536)
      && (|s| != 1 && |s| != 3 ==>
        && |s| == 5 && s[0] == 129
        && s[1] as int + 256 * s[2] as int + 65536 * s[3] as int + 16777216 * s[4] as int == n % 4294967296)
  {
    hide Low;
    LowBytes(n);
  }

  lemma LowBytes(n: int)
    ensures Low(n) == n % 256 && Low(n) + 256 * Low(n / 256) == n % 65536
    ensures Low(n) + 256 * Low(n / 256) + 65536 * Low(n / 65536) + 16777216 * Low(n / 16777216) == n % 4294967296
  {
    assert n / 256 / 256 == n / 65536 && n / 65536 / 256 == n / 16777216 && n / 16777216 / 256 == n / 4294967296;
  }

  // No other form that is read as n, whatever follows, is shorter.
  lemma IntShortest(s: seq<u8>, rest: seq<u8>, n: int32)
    requires rest != [] && IntAt(s + rest, 0) == (n, |s|)
    ensures |IntBytes(n)| <= |s|
  {
    var t := s + rest;
    assert |t| > |s|;
  }

  // Seven bits a byte, the low ones first and the top bit set where more follow; the fourth byte has eight.
  lemma UintForm(n: int32)
    ensures var s := UintBytes(n);
      && (|s| == 1 <==> 0 <= n < 128) && (|s| == 2 <==> 128 <= n < 16384) && (|s| == 3 <==> 16384 <= n < 2097152)
      && |s| <= 4 && forall k :: 0 <= k < |s| && k < 3 ==> (s[k] >= 128 <==> k < |s| - 1)
  {
  }

  // They are the number's 29 low bits.
  lemma UintValue(n: int32)
    ensures Sevens(UintBytes(n)) == n % 536870912
  {
    TopBits(n);
    var s := UintBytes(n);
    if n < 0 || n >= 0x20_0000 {
      var a, b, c, d := n % 128, n / 128 % 128, n / 0x4000 % 128, Low(n / 0x20_0000);
      FourSevens(a, b, c, d);
      assert s == [128 + a, 128 + b, 128 + c, d];
    }
  }

  lemma FourSevens(a: nat, b: nat, c: nat, d: u8)
    requires a < 128 && b < 128 && c < 128
    ensures Sevens([128 + a, 128 + b, 128 + c, d]) == a + 128 * b + 16384 * c + 2097152 * d
  {
  }

  function Sevens(s: seq<u8>): nat {
    ByteAt(s, 0) % 128 + 128 * (ByteAt(s, 1) % 128) + 16384 * (ByteAt(s, 2) % 128) + 2097152 * ByteAt(s, 3)
  }

  lemma TopBits(n: int)
    ensures n % 128 + 128 * (n / 128 % 128) + 16384 * (n / 16384 % 128) + 2097152 * (n / 2097152 % 256)
      == n % 536870912
  {
    assert n / 128 / 128 == n / 16384 && n / 16384 / 128 == n / 2097152 && n / 2097152 / 256 == n / 536870912;
  }

  // An unsigned integer comes back as what 29 bits hold of it, as a signed number.
  function Wrapped(n: int): int {
    var low := n % 0x2000_0000;
    if low < 0x1000_0000 then low else low - 0x2000_0000
  }

  lemma UintRoundTrip(before: seq<u8>, n: int32, rest: seq<u8>)
    ensures UintAt(before + UintBytes(n) + rest, |before|) == (Wrapped(n), |before + UintBytes(n)|)
  {
    hide ByteAt, Past, Signed, Low, Wrapped;
    var u := UintBytes(n);
    InPlace(before, u, rest);
    UintExactRange(n);
    if n < 0 || n >= 0x20_0000 {
      assert u[0] >= 128 && u[1] >= 128 && u[2] >= 128 && |u| == 4 && u[3] == Low(n / 0x20_0000);
      SevenBits(n);
    } else if n >= 0x4000 {
      assert u[0] >= 128 && u[1] >= 128 && u[2] < 128 && |u| == 3;
      assert n / 128 / 128 == n / 0x4000;
    } else if n >= 128 {
      assert u[0] >= 128 && u[1] < 128 && |u| == 2;
    } else {
      assert u[0] < 128 && |u| == 1;
    }
  }

  lemma InPlace(before: seq<u8>, u: seq<u8>, rest: seq<u8>)
    ensures var s := before + u + rest;
      && (forall k {:trigger u[k]} :: 0 <= k < |u| ==> ByteAt(s, |before| + k) == u[k])
      && Past(s, |before| + |u|) == |before + u|
  {
  }

  lemma SevenBits(n: int32)
    ensures Wrapped(n) == n % 128 + 128 * (n / 128 % 128) + 0x4000 * (n / 0x4000 % 128)
      + 0x20_0000 * Signed(Low(n / 0x20_0000))
  {
    assert n / 128 / 128 == n / 0x4000 && n / 0x4000 / 128 == n / 0x20_0000;
  }

  // Which is the integer itself exactly in the range of 29 bits.
  lemma UintExactRange(n: int32)
    ensures Wrapped(n) == n <==> -0x1000_0000 <= n < 0x1000_0000
  {
  }

  // --- Strings: one integer a character, and 0. ---

  type Char = c: int | -128 <= c < 128

  predicate Plain(text: seq<Char>) { forall i :: 0 <= i < |text| ==> text[i] != 0 }

  function StringBytes(text: seq<Char>): seq<u8> {
    if text == [] then IntBytes(0) else IntBytes(text[0]) + StringBytes(text[1..])
  }

  // The characters up to the terminator, as long as there is room and something to read; whether the
  // room ran out first.
  function CharsAt(s: seq<u8>, i: nat, room: nat): (seq<Char>, nat, bool)
    decreases room
  {
    if room == 0 then ([], i, true)
    else if i >= |s| then ([], i, false)
    else
      var (n, j) := IntAt(s, i);
      var c := Signed(Low(n));
      if c == 0 then ([], j, false) else
        var (text, k, cut) := CharsAt(s, j, room - 1);
        ([c] + text, k, cut)
  }

  // What getstring leaves in a text of len characters: where the room ran out the last one is lost.
  function StringAt(s: seq<u8>, i: nat, len: nat): (seq<Char>, nat)
    requires len > 0
  {
    var (text, j, cut) := CharsAt(s, i, len);
    (if cut && text != [] then text[..|text| - 1] else text, j)
  }

  lemma CharSigned(c: Char)
    ensures Signed(Low(c)) == c
  {
  }

  lemma CharHere(before: seq<u8>, c: Char, rest: seq<u8>)
    ensures IntAt(before + IntBytes(c) + rest, |before|) == (c, |before + IntBytes(c)|)
    ensures Signed(Low(c)) == c && |IntBytes(c)| > 0
  {
    IntRoundTrip(before, c, rest);
    CharSigned(c);
  }

  lemma StringParts(before: seq<u8>, text: seq<Char>, rest: seq<u8>)
    requires text != []
    ensures var next := before + IntBytes(text[0]);
      && before + StringBytes(text) + rest == next + StringBytes(text[1..]) + rest
      && before + StringBytes(text) + rest == before + IntBytes(text[0]) + (StringBytes(text[1..]) + rest)
      && before + StringBytes(text) == next + StringBytes(text[1..])
  {
    hide IntBytes;
    Rejoined(before, IntBytes(text[0]), StringBytes(text[1..]), rest);
  }

  lemma Rejoined(a: seq<u8>, b: seq<u8>, c: seq<u8>, d: seq<u8>)
    ensures a + (b + c) + d == a + b + c + d == a + b + (c + d)
    ensures a + (b + c) == a + b + c
  {
  }

  lemma {:induction false} CharsRoundTrip(before: seq<u8>, text: seq<Char>, rest: seq<u8>, room: nat)
    requires Plain(text)
    ensures var s := before + StringBytes(text) + rest;
      CharsAt(s, |before|, room) ==
        if |text| < room then (text, |before + StringBytes(text)|, false)
        else (text[..room], |before + CharBytes(text[..room])|, true)
    decreases |text|
  {
    hide IntBytes, IntAt, Low, Signed;
    if room == 0 {
      assert text[..0] == [] && before + [] == before;
    } else if text == [] {
      CharHere(before, 0, rest);
    } else {
      hide StringBytes;
      var c, next := text[0], before + IntBytes(text[0]);
      StringParts(before, text, rest);
      CharHere(before, c, StringBytes(text[1..]) + rest);
      CharsRoundTrip(next, text[1..], rest, room - 1);
      assert [c] + text[1..] == text;
      if |text| >= room { Taken(before, text, room); }
    }
  }

  lemma Taken(before: seq<u8>, text: seq<Char>, room: nat)
    requires 0 < room <= |text|
    ensures [text[0]] + text[1..][..room - 1] == text[..room]
    ensures |before + IntBytes(text[0]) + CharBytes(text[1..][..room - 1])| == |before + CharBytes(text[..room])|
  {
    hide IntBytes;
    assert text[..room][1..] == text[1..][..room - 1];
  }

  // Characters without a terminator.
  function CharBytes(text: seq<Char>): seq<u8> {
    if text == [] then [] else IntBytes(text[0]) + CharBytes(text[1..])
  }

  // A string comes back with nothing else consumed exactly when it is shorter than its destination;
  // a longer one is cut, and the rest of it stays in the way of what follows.
  lemma StringRoundTrip(before: seq<u8>, text: seq<Char>, rest: seq<u8>, len: nat)
    requires Plain(text) && len > 0
    ensures var (read, end) := StringAt(before + StringBytes(text) + rest, |before|, len);
      && (read == text <==> |text| < len)
      && (|text| < len ==> end == |before + StringBytes(text)|)
      && (|text| >= len ==> read == text[..len - 1] && end == |before + CharBytes(text[..len])|)
  {
    CharsRoundTrip(before, text, rest, len);
    if |text| >= len { assert text[..len][..len - 1] == text[..len - 1]; }
  }

  // --- Any sequence of them. ---

  datatype Field = IntField(n: int32) | UintField(n: int32) | TextField(text: seq<Char>)

  predicate Fits(f: Field, len: nat) {
    match f
    case IntField(_) => true
    case UintField(n) => -0x1000_0000 <= n < 0x1000_0000
    case TextField(text) => Plain(text) && |text| < len
  }

  function FieldBytes(f: Field): seq<u8> {
    match f
    case IntField(n) => IntBytes(n)
    case UintField(n) => UintBytes(n)
    case TextField(text) => StringBytes(text)
  }

  function Written(fs: seq<Field>): seq<u8> {
    if fs == [] then [] else FieldBytes(fs[0]) + Written(fs[1..])
  }

  // Reading a field of the kind of f.
  function FieldAt(s: seq<u8>, i: nat, f: Field, len: nat): (Field, nat)
    requires len > 0
  {
    match f
    case IntField(_) => var (n, j) := IntAt(s, i); (IntField(n), j)
    case UintField(_) => var (n, j) := UintAt(s, i); (UintField(n), j)
    case TextField(_) => var (text, j) := StringAt(s, i, len); (TextField(text), j)
  }

  function FieldsAt(s: seq<u8>, i: nat, kinds: seq<Field>, len: nat): (seq<Field>, nat)
    requires len > 0
    decreases |kinds|
  {
    if kinds == [] then ([], i) else
      var (f, j) := FieldAt(s, i, kinds[0], len);
      var (fs, k) := FieldsAt(s, j, kinds[1..], len);
      ([f] + fs, k)
  }

  lemma FieldRoundTrip(before: seq<u8>, f: Field, rest: seq<u8>, len: nat)
    requires len > 0 && Fits(f, len)
    ensures FieldAt(before + FieldBytes(f) + rest, |before|, f, len) == (f, |before + FieldBytes(f)|)
  {
    match f
    case IntField(n) => IntRoundTrip(before, n, rest);
    case UintField(n) => UintRoundTrip(before, n, rest); UintExactRange(n);
    case TextField(text) => StringRoundTrip(before, text, rest, len);
  }

  lemma {:induction false} FieldsRoundTrip(before: seq<u8>, fs: seq<Field>, rest: seq<u8>, len: nat)
    requires len > 0 && forall i :: 0 <= i < |fs| ==> Fits(fs[i], len)
    ensures FieldsAt(before + Written(fs) + rest, |before|, fs, len) == (fs, |before + Written(fs)|)
    decreases |fs|
  {
    hide FieldAt, FieldBytes, Fits;
    if fs == [] {
      assert before + [] == before;
    } else {
      var s, next := before + Written(fs) + rest, before + FieldBytes(fs[0]);
      assert s == before + FieldBytes(fs[0]) + (Written(fs[1..]) + rest) == next + Written(fs[1..]) + rest;
      FieldRoundTrip(before, fs[0], Written(fs[1..]) + rest, len);
      FieldsRoundTrip(next, fs[1..], rest, len);
      assert [fs[0]] + fs[1..] == fs && next + Written(fs[1..]) == before + Written(fs);
    }
  }

  // --- databuf, in place. ---

  class Buffer {
    const buf: array<u8>
    var len: nat
    var overread: bool
    var overwrote: bool

    ghost predicate Valid()
      reads this
    {
      len <= buf.Length
    }

    constructor (maxlen: nat)
      ensures Valid() && len == 0 && buf.Length == maxlen && fresh(buf) && !overread && !overwrote
    {
      buf := new u8[maxlen];
      len, overread, overwrote := 0, false, false;
    }

    method Put(b: u8)
      requires Valid()
      modifies this`len, this`overwrote, buf
      ensures Valid() && buf[..len] == Cut(old(buf[..len]) + [b], buf.Length)
      ensures overwrote == (old(overwrote) || old(len) == buf.Length)
    {
      if len < buf.Length {
        buf[len] := b;
        len := len + 1;
      } else {
        overwrote := true;
      }
    }

    method Get() returns (b: u8)
      requires Valid()
      modifies this`len, this`overread
      ensures Valid() && b == ByteAt(buf[..], old(len)) && len == Past(buf[..], old(len) + 1)
      ensures overread == (old(overread) || old(len) == buf.Length)
    {
      if len < buf.Length {
        b := buf[len];
        len := len + 1;
      } else {
        overread, b := true, 0;
      }
    }

    // One put after another.
    method PutEach(bytes: seq<u8>)
      requires Valid()
      modifies this`len, this`overwrote, buf
      ensures Valid() && buf[..len] == Cut(old(buf[..len]) + bytes, buf.Length)
      ensures overwrote == (old(overwrote) || old(len) + |bytes| > buf.Length)
    {
      ghost var s := buf[..len];
      assert s + bytes[..0] == s;
      for i := 0 to |bytes|
        invariant Valid() && buf[..len] == Cut(s + bytes[..i], buf.Length)
        invariant overwrote == (old(overwrote) || |s| + i > buf.Length)
      {
        assert s + bytes[..i + 1] == s + bytes[..i] + [bytes[i]];
        Put(bytes[i]);
      }
      assert bytes[..|bytes|] == bytes;
    }

    method PutInt(n: int32)
      requires Valid()
      modifies this`len, this`overwrote, buf
      ensures Valid() && buf[..len] == Cut(old(buf[..len]) + IntBytes(n), buf.Length)
      ensures overwrote == (old(overwrote) || old(len) + |IntBytes(n)| > buf.Length)
    {
      hide Cut;
      if n < 128 && n > -127 {
        Put(Low(n));
      } else if n < 0x8000 && n >= -0x8000 {
        PutEach([0x80, Low(n), Low(n / BYTE)]);
      } else {
        PutEach([0x81, Low(n), Low(n / BYTE), Low(n / HALF), Low(n / (BYTE * HALF))]);
      }
    }

    method PutUint(n: int32)
      requires Valid()
      modifies this`len, this`overwrote, buf
      ensures Valid() && buf[..len] == Cut(old(buf[..len]) + UintBytes(n), buf.Length)
      ensures overwrote == (old(overwrote) || old(len) + |UintBytes(n)| > buf.Length)
    {
      hide Cut;
      if n < 0 || n >= 0x20_0000 {
        PutEach([128 + n % 128, 128 + n / 128 % 128, 128 + n / 0x4000 % 128, Low(n / 0x20_0000)]);
      } else if n < 128 {
        Put(n);
      } else if n < 0x4000 {
        PutEach([128 + n % 128, n / 128]);
      } else {
        PutEach([128 + n % 128, 128 + n / 128 % 128, n / 0x4000]);
      }
    }

    method GetInt() returns (n: int32)
      requires Valid()
      modifies this`len, this`overread
      ensures Valid() && (n, len) == IntAt(buf[..], old(len))
    {
      var b := Get();
      var c := Signed(b);
      if c == -128 {
        var b0 := Get();
        var b1 := Get();
        n := b0 + BYTE * Signed(b1);
      } else if c == -127 {
        var b0 := Get();
        var b1 := Get();
        var b2 := Get();
        var b3 := Get();
        n := b0 + BYTE * b1 + HALF * b2 + BYTE * HALF * Signed(b3);
      } else {
        n := c;
      }
    }

    method GetUint() returns (n: int32)
      requires Valid()
      modifies this`len, this`overread
      ensures Valid() && (n, len) == UintAt(buf[..], old(len))
    {
      var m: int;
      m := Get();
      if m / 0x80 % 2 == 1 {
        var b1: int;
        b1 := Get();
        m := m + b1 * 128 - 0x80;
        if m / 0x4000 % 2 == 1 {
          var b2: int;
          b2 := Get();
          m := m + b2 * 0x4000 - 0x4000;
          if m / 0x20_0000 % 2 == 1 {
            var b3: int;
            b3 := Get();
            m := m + b3 * 0x20_0000 - 0x20_0000;
            if m / 0x1000_0000 % 2 == 1 { m := m - 0x2000_0000; }
          }
        }
      }
      n := m;
    }

    method SendString(text: seq<Char>)
      requires Valid()
      modifies this`len, this`overwrote, buf
      ensures Valid() && buf[..len] == Cut(old(buf[..len]) + StringBytes(text), buf.Length)
    {
      ghost var s := buf[..len];
      assert Cut(s, buf.Length) == s;
      hide IntBytes, Cut;
      assert s + CharBytes(text[..0]) == s;
      for i := 0 to |text|
        invariant Valid() && buf[..len] == Cut(s + CharBytes(text[..i]), buf.Length)
      {
        CharMore(text, i);
        CutMore(s + CharBytes(text[..i]), IntBytes(text[i]), buf.Length);
        assert s + CharBytes(text[..i]) + IntBytes(text[i]) == s + CharBytes(text[..i + 1]);
        PutInt(text[i]);
      }
      CharEnd(text);
      assert text[..|text|] == text;
      CutMore(s + CharBytes(text), IntBytes(0), buf.Length);
      assert s + CharBytes(text) + IntBytes(0) == s + StringBytes(text);
      PutInt(0);
    }

    // getstring into a text of fixed length.
    method GetString(text: array<Char>)
      requires Valid() && text.Length > 0
      modifies this`len, this`overread, text
      ensures Valid()
      ensures var (read, j) := StringAt(buf[..], old(len), text.Length);
        |read| < text.Length && text[..|read| + 1] == read + [0] && len == j
    {
      hide Reading, StringAt, IntAt;
      var t: nat := 0;
      ghost var start, s := len, buf[..];
      ReadingStart(s, start, text.Length);
      assert text[..0] == [];
      while true
        invariant Valid() && t <= text.Length && buf[..] == s
        invariant Reading(s, start, text.Length, text[..t], len)
        decreases text.Length - t
      {
        ReadingEnd(s, start, text.Length, text[..t], len);
        if t >= text.Length {
          text[text.Length - 1] := 0;
          return;
        }
        if len == buf.Length {
          ghost var read := text[..t];
          text[t] := 0;
          assert text[..t + 1] == read + [0];
          return;
        }
        ghost var read := text[..t];
        ReadingStep(s, start, text.Length, read, len);
        var n := GetInt();
        text[t] := Signed(Low(n));
        t := t + 1;
        if text[t - 1] == 0 {
          assert text[..t] == read + [0];
          return;
        }
        assert text[..t] == read + [text[t - 1]];
      }
    }
  }

  // Characters read so far of what getstring reads from `start`.
  ghost predicate Reading(s: seq<u8>, start: nat, len: nat, read: seq<Char>, i: nat) {
    && |read| <= len
    && var (rest, j, cut) := CharsAt(s, i, len - |read|);
    CharsAt(s, start, len) == (read + rest, j, cut)
  }

  lemma ReadingStart(s: seq<u8>, start: nat, len: nat)
    ensures Reading(s, start, len, [], start)
  {
    assert [] + CharsAt(s, start, len).0 == CharsAt(s, start, len).0;
  }

  lemma ReadingEnd(s: seq<u8>, start: nat, len: nat, read: seq<Char>, i: nat)
    requires Reading(s, start, len, read, i) && len > 0
    ensures |read| == len ==> StringAt(s, start, len) == (read[..len - 1], i)
    ensures |read| < len && i >= |s| ==> StringAt(s, start, len) == (read, i)
  {
    assert read + [] == read;
  }

  lemma ReadingStep(s: seq<u8>, start: nat, len: nat, read: seq<Char>, i: nat)
    requires Reading(s, start, len, read, i) && |read| < len && i < |s|
    ensures var (n, j) := IntAt(s, i); var c := Signed(Low(n));
      if c == 0 then StringAt(s, start, len) == (read, j) else Reading(s, start, len, read + [c], j)
  {
    hide IntAt;
    var (n, j) := IntAt(s, i);
    var c := Signed(Low(n));
    if c == 0 {
      assert read + [] == read;
    } else {
      var (rest, k, cut) := CharsAt(s, j, len - |read| - 1);
      assert read + ([c] + rest) == read + [c] + rest;
    }
  }

  // What fits of it.
  function Cut(s: seq<u8>, maxlen: nat): seq<u8> { if |s| <= maxlen then s else s[..maxlen] }

  lemma CutMore(s: seq<u8>, t: seq<u8>, maxlen: nat)
    ensures Cut(Cut(s, maxlen) + t, maxlen) == Cut(s + t, maxlen)
  {
  }

  lemma {:induction false} CharMore(text: seq<Char>, i: nat)
    requires i < |text|
    ensures CharBytes(text[..i + 1]) == CharBytes(text[..i]) + IntBytes(text[i])
    decreases i
  {
    if i > 0 {
      CharMore(text[1..], i - 1);
      assert text[..i + 1][1..] == text[1..][..i] && text[..i][1..] == text[1..][..i - 1];
    } else {
      assert text[..1][1..] == [];
    }
  }

  lemma {:induction false} CharEnd(text: seq<Char>)
    ensures StringBytes(text) == CharBytes(text) + IntBytes(0)
  {
    if text != [] { CharEnd(text[1..]); }
  }
}
