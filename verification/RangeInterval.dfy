/** The carry-less 32-bit range coder of src/enet/compress.c: interval arithmetic,
    normalisation, the stream it writes and the code word its reader carries. */
module RangeInterval {
  import opened Words
  import opened Numbers

  const TOP := 0x100_0000
  const BOTTOM := 0x1_0000

  datatype Coder = Coder(low: u32, range: u32)

  // One coded decision: the slice [under, under + count) of [0, total).
  datatype Slot = Slot(under: nat, count: nat, total: nat)

  ghost predicate Fits(e: Slot) {
    e.count > 0 && e.under + e.count <= e.total <= BOTTOM
  }

  // The interval never passes 2^32; it may touch it only from the last top byte.
  ghost predicate Sound(c: Coder) {
    && c.range > 0
    && c.low + c.range <= WORD
    && (c.low + c.range == WORD ==> c.low >= 0xFF * TOP)
  }

  ghost predicate Ready(c: Coder) {
    Sound(c) && c.range >= BOTTOM
  }

  ghost predicate Contains(c: Coder, code: int) {
    c.low <= code < c.low + c.range
  }

  const Start := Coder(0, WORD - 1)

  // (low ^ (low + range)) >= TOP in 32-bit arithmetic: the top bytes differ.
  predicate TopBytesDiffer(c: Coder) {
    c.low / TOP != ((c.low + c.range) % WORD) / TOP
  }

  predicate Settled(c: Coder) {
    TopBytesDiffer(c) && c.range >= BOTTOM
  }

  // -low & (BOTTOM - 1)
  function Truncated(c: Coder): Coder {
    Coder(c.low, (WORD - c.low) % BOTTOM)
  }

  function Trim(c: Coder): Coder {
    if TopBytesDiffer(c) then Truncated(c) else c
  }

  function Shift(c: Coder): Coder {
    Coder((c.low * 0x100) % WORD, (c.range * 0x100) % WORD)
  }

  lemma TrimInside(c: Coder)
    requires Sound(c) && !Settled(c)
    ensures 0 < Trim(c).range <= c.range && Trim(c).low == c.low
    ensures Trim(c).range < TOP && c.low % TOP + Trim(c).range <= TOP
    ensures c.low + Trim(c).range == WORD || c.low % TOP + Trim(c).range < TOP
      || Trim(c).low % TOP + Trim(c).range == TOP
    ensures TopBytesDiffer(c) ==> c.low % TOP + Trim(c).range == TOP
    ensures !TopBytesDiffer(c) ==> c.low % TOP + Trim(c).range < TOP
    ensures c.low + c.range == WORD ==> TopBytesDiffer(c) && Trim(c) == c
  {
    var b := c.low / TOP;
    assert c.low == b * TOP + c.low % TOP;
    if TopBytesDiffer(c) {
      var next := (b + 1) * TOP;
      assert c.low < next <= c.low + c.range;
      assert next - c.low < BOTTOM;
      assert (WORD - c.low) % BOTTOM == next - c.low;
    }
  }

  lemma ShiftSound(c: Coder)
    requires Sound(c) && !Settled(c)
    ensures var d := Shift(Trim(c));
      && Sound(d)
      && d.low == (c.low % TOP) * 0x100
      && d.range == Trim(c).range * 0x100
      && (TopBytesDiffer(c) ==> d.low + d.range == WORD)
      && (c.low + c.range == WORD ==> d.low + d.range == WORD && d.range > c.range)
      && (!TopBytesDiffer(c) ==> d.low + d.range < WORD && d.range > c.range)
  {
    TrimInside(c);
    assert c.low == (c.low / TOP) * TOP + c.low % TOP;
    assert c.low * 0x100 == (c.low / TOP) * WORD + (c.low % TOP) * 0x100;
  }

  function Rank(c: Coder): nat { if c.low + c.range == WORD then 0 else 1 }

  // Where the normalisation loop stops, and what it writes on the way.
  function Settle(c: Coder): (d: Coder)
    requires Sound(c)
    ensures Ready(d)
    decreases Rank(c), WORD - c.range
  {
    if Settled(c) then c else ShiftSound(c); Settle(Shift(Trim(c)))
  }

  function Emitted(c: Coder): seq<u8>
    requires Sound(c)
    decreases Rank(c), WORD - c.range
  {
    if Settled(c) then [] else ShiftSound(c); [c.low / TOP] + Emitted(Shift(Trim(c)))
  }

  lemma MulMonotone(a: nat, b: nat, r: nat)
    requires a <= b
    ensures a * r <= b * r
  {
  }

  lemma SharesFit(range: nat, e: Slot)
    requires Fits(e) && range >= BOTTOM
    ensures var r := range / e.total;
      r >= 1 && 0 <= e.under * r && e.under * r + r * e.count <= range && r * e.count >= 1
  {
    var r := range / e.total;
    assert e.total * r <= range && r >= 1;
    MulMonotone(e.under + e.count, e.total, r);
    MulMonotone(1, e.count, r);
    assert (e.under + e.count) * r == e.under * r + e.count * r;
  }

  function Narrow(c: Coder, e: Slot): (d: Coder)
    requires Ready(c) && Fits(e)
    ensures Sound(d)
    ensures c.low <= d.low && d.low + d.range <= c.low + c.range
  {
    SharesFit(c.range, e);
    var r := c.range / e.total;
    Coder(c.low + e.under * r, r * e.count)
  }

  // The parts of all slots of a total leave less of the interval unused than the total.
  lemma LittleUnused(c: Coder, total: nat)
    requires Ready(c) && Fits(Slot(0, total, total))
    ensures Narrow(c, Slot(0, total, total)).range > c.range - total
  {
    assert c.range == total * (c.range / total) + c.range % total;
  }

  // Nothing is written while the interval is wide and its ends differ in the top byte.
  lemma WideStays(c: Coder)
    requires Sound(c)
    ensures Settle(c) == c && Emitted(c) == [] <==>
      c.range >= 0x1_0000 && c.low / 0x100_0000 != (c.low + c.range) % 0x1_0000_0000 / 0x100_0000
  {
    SettledStays(c);
    hide Settle, Emitted;
  }

  lemma SettledStays(c: Coder)
    requires Sound(c)
    ensures Settle(c) == c && Emitted(c) == [] <==> Settled(c)
  {
    hide Settled, Trim, Shift;
  }

  function Next(c: Coder, e: Slot): (d: Coder)
    requires Ready(c) && Fits(e)
    ensures Ready(d)
  {
    Settle(Narrow(c, e))
  }

  // Bytes of a word down to its last non-zero byte.
  function Digits(low: u32): nat {
    if low == 0 then 0
    else if low % 0x100_0000 == 0 then 1
    else if low % 0x1_0000 == 0 then 2
    else if low % 0x100 == 0 then 3
    else 4
  }

  // low <<= 8
  function Shl(low: u32): (r: u32)
    ensures r == (low * 0x100) % WORD
    ensures low != 0 ==> Digits(r) < Digits(low)
  {
    Shifted(low);
    FewerDigits(low);
    (low % TOP) * 0x100
  }

  lemma Shifted(low: u32)
    ensures (low % TOP) * 0x100 == (low * 0x100) % WORD
  {
    assert low == (low / TOP) * TOP + low % TOP;
    assert low * 0x100 == (low / TOP) * WORD + (low % TOP) * 0x100;
  }

  lemma FewerDigits(low: u32)
    ensures low != 0 ==> Digits((low % TOP) * 0x100) < Digits(low)
  {
    var next := (low % TOP) * 0x100;
    if low % 0x1_0000 == 0 { LowZeros(low, 0x1_0000, 0x100); }
    if low % 0x100 == 0 { LowZeros(low, 0x100, 0x1_0000); }
    LowZeros(low, 1, 0x100_0000);
    assert low % 0x100_0000 == 0 ==> next == 0;
  }

  // Low bytes that are zero stay so, and there is one more.
  lemma LowZeros(low: nat, m: nat, n: nat)
    requires m > 0 && m * n == TOP && low % m == 0
    ensures (low % TOP) * 0x100 % (m * 0x100) == 0
  {
    var q, k := low / m, low / TOP;
    var r := q - n * k;
    assert low == m * q && low == TOP * k + low % TOP;
    assert TOP * k == m * (n * k) && m * q - m * (n * k) == m * r;
    ScaledUp(low % TOP, m, r);
  }

  lemma ScaledUp(a: nat, m: nat, r: int)
    requires m > 0 && a == m * r
    ensures a * 0x100 % (m * 0x100) == 0
  {
    assert a * 0x100 == (m * 0x100) * r;
    QuotientIs(a * 0x100, m * 0x100, r, 0);
  }

  // FLUSH: the bytes of low, stopping once only zero bytes are left.
  function Flushed(low: u32): seq<u8>
    decreases Digits(low)
  {
    if low == 0 then [] else [low / TOP] + Flushed(Shl(low))
  }

  // No zero byte is written at the end.
  lemma {:induction false} FlushedShort(low: u32)
    ensures |Flushed(low)| <= Digits(low) && (low != 0 ==> Flushed(low) != [] && Flushed(low)[|Flushed(low)| - 1] != 0)
    decreases Digits(low)
  {
    if low != 0 {
      FlushedShort(Shl(low));
      if Shl(low) == 0 { assert low == (low / TOP) * TOP; }
    }
  }

  function Encoded(c: Coder, es: seq<Slot>): seq<u8>
    requires Ready(c) && forall e <- es :: Fits(e)
    decreases |es|
  {
    if es == [] then Flushed(c.low)
    else Emitted(Narrow(c, es[0])) + Encoded(Next(c, es[0]), es[1..])
  }

  // --- The reader: past the end of its input it sees zero bytes. ---

  function At(s: seq<u8>, i: nat): u8 { if i < |s| then s[i] else 0 }

  function Window(s: seq<u8>): u32 {
    At(s, 0) * 0x100_0000 + At(s, 1) * 0x1_0000 + At(s, 2) * 0x100 + At(s, 3)
  }

  function Drop(s: seq<u8>, n: nat): seq<u8> { if n <= |s| then s[n..] else [] }

  lemma WindowShift(s: seq<u8>)
    ensures Window(Drop(s, 1)) == (Window(s) * 0x100) % WORD + At(s, 4)
    ensures Window(s) == At(s, 0) * TOP + Window(Drop(s, 1)) / 0x100
  {
    var t := Drop(s, 1);
    assert At(t, 0) == At(s, 1) && At(t, 1) == At(s, 2) && At(t, 2) == At(s, 3) && At(t, 3) == At(s, 4);
  }

  // One byte out: the window is in the interval when the next window is in the shifted one.
  lemma ShiftContains(c: Coder, s: seq<u8>)
    requires Sound(c) && !Settled(c)
    requires At(s, 0) == c.low / TOP
    requires Contains(Shift(Trim(c)), Window(Drop(s, 1)))
    ensures Contains(c, Window(s))
  {
    ShiftSound(c);
    TrimInside(c);
    WindowShift(s);
    assert c.low == (c.low / TOP) * TOP + c.low % TOP;
  }

  lemma DropDrop(s: seq<u8>, a: nat, b: nat)
    ensures Drop(Drop(s, a), b) == Drop(s, a + b)
  {
  }

  lemma {:induction false} EmittedContains(c: Coder, s: seq<u8>)
    requires Sound(c)
    requires Emitted(c) <= s
    requires Contains(Settle(c), Window(Drop(s, |Emitted(c)|)))
    ensures Contains(c, Window(s))
    decreases Rank(c), WORD - c.range
  {
    if !Settled(c) {
      ShiftSound(c);
      var d := Shift(Trim(c));
      var t := s[1..];
      assert Emitted(c)[1..] == Emitted(d) && |Emitted(c)| == 1 + |Emitted(d)|;
      DropDrop(s, 1, |Emitted(d)|);
      EmittedContains(d, t);
      ShiftContains(c, s);
    }
  }

  // Zero padding gives back exactly what the flush dropped.
  lemma {:induction false} WindowFlushed(low: u32)
    ensures Window(Flushed(low)) == low
    decreases Digits(low)
  {
    if low != 0 {
      WindowFlushed(Shl(low));
      WindowShift(Flushed(low));
      assert Drop(Flushed(low), 1) == Flushed(Shl(low));
      assert Shl(low) / 0x100 == low % TOP;
    }
  }

  lemma DropFlushed(low: u32)
    ensures Drop(Flushed(low), 1) == Flushed(Shl(low))
  {
    assert Shl(0) == 0;
  }

  // Flushed streams stay flushed through normalisation, however far it shifts.
  lemma {:induction false} SettleFlushed(c: Coder, s: seq<u8>)
    requires Sound(c) && s == Flushed(c.low)
    ensures Drop(s, |Emitted(c)|) == Flushed(Settle(c).low)
    decreases Rank(c), WORD - c.range
  {
    if !Settled(c) {
      ShiftSound(c);
      var d := Shift(Trim(c));
      DropFlushed(c.low);
      SettleFlushed(d, Drop(s, 1));
      DropDrop(s, 1, |Emitted(d)|);
    }
  }

  lemma EncodedStep(c: Coder, e: Slot, es: seq<Slot>)
    requires Ready(c) && Fits(e) && forall f <- es :: Fits(f)
    ensures Encoded(c, [e] + es) == Emitted(Narrow(c, e)) + Encoded(Next(c, e), es)
  {
    assert ([e] + es)[1..] == es;
  }

  // The encoder's stream, read from any point, lies in the encoder's interval at that point.
  lemma {:induction false} EncodedContains(c: Coder, es: seq<Slot>)
    requires Ready(c) && forall e <- es :: Fits(e)
    ensures Contains(c, Window(Encoded(c, es)))
    ensures es != [] ==> Contains(Narrow(c, es[0]), Window(Encoded(c, es)))
    decreases |es|
  {
    if es == [] {
      WindowFlushed(c.low);
    } else {
      EncodedContains(Next(c, es[0]), es[1..]);
      var s := Encoded(c, es);
      assert Drop(s, |Emitted(Narrow(c, es[0]))|) == Encoded(Next(c, es[0]), es[1..]);
      EmittedContains(Narrow(c, es[0]), s);
    }
  }

  // A stream from above the bottom, or one that starts with a slot above the bottom, is not empty.
  lemma {:induction false} EncodedLength(c: Coder, es: seq<Slot>)
    requires Ready(c) && forall e <- es :: Fits(e)
    requires c.low > 0 || (es != [] && es[0].under > 0)
    ensures Encoded(c, es) != []
    decreases |es|
  {
    if es != [] {
      var d := Narrow(c, es[0]);
      SharesFit(c.range, es[0]);
      assert d.low > 0 by { MulMonotone(1, c.range / es[0].total, es[0].under); }
      if Settled(d) { EncodedLength(d, es[1..]); }
    }
  }

  lemma QuotientAtLeast(x: nat, r: nat, a: nat)
    requires r > 0
    ensures x / r >= a <==> x >= a * r
  {
    var q := x / r;
    assert x == q * r + x % r;
    if q < a { MulMonotone(q + 1, a, r); } else { MulMonotone(a, q, r); }
  }

  // ENET_RANGE_CODER_READ
  function Read(c: Coder, code: u32, total: nat): (read: nat)
    requires Ready(c) && 0 < total <= BOTTOM && c.low <= code
    ensures code == c.low ==> read == 0
  {
    QuotientAtLeast(c.range, total, 1);
    (code - c.low) / (c.range / total)
  }

  // A code word in the interval reads inside a slot exactly when it lies in the slot's part.
  lemma ReadSlot(c: Coder, e: Slot, code: u32)
    requires Ready(c) && Fits(e) && Contains(c, code)
    ensures Contains(Narrow(c, e), code) <==> e.under <= Read(c, code, e.total) < e.under + e.count
  {
    var r := c.range / e.total;
    QuotientAtLeast(code - c.low, r, e.under);
    QuotientAtLeast(code - c.low, r, e.under + e.count);
    assert (e.under + e.count) * r == e.under * r + r * e.count;
  }

  // --- The macros, as the loops they are. ---

  // ENET_RANGE_CODER_ENCODE: fails exactly when the bytes do not fit the output.
  method EncodeSlot(c: Coder, e: Slot, out: seq<u8>, limit: nat) returns (ok: bool, d: Coder, written: seq<u8>)
    requires Ready(c) && Fits(e) && |out| <= limit
    ensures ok <==> |out| + |Emitted(Narrow(c, e))| <= limit
    ensures ok ==> d == Next(c, e) && written == out + Emitted(Narrow(c, e))
  {
    ghost var start := Narrow(c, e);
    var range := c.range / e.total;
    d, written := Coder(c.low + e.under * range, range * e.count), out;
    while true
      invariant Sound(d) && Settle(d) == Settle(start)
      invariant |written| <= limit
      invariant written + Emitted(d) == out + Emitted(start)
      decreases Rank(d), WORD - d.range
    {
      if TopBytesDiffer(d) {
        if d.range >= BOTTOM { break; }
      }
      ShiftSound(d);
      assert Emitted(d) == [d.low / TOP] + Emitted(Shift(Trim(d)));
      if |written| >= limit {
        assert |written + Emitted(d)| > limit;
        return false, d, written;
      }
      assert written + Emitted(d) == written + [d.low / TOP] + Emitted(Shift(Trim(d)));
      written := written + [d.low / TOP];
      d := Shift(if TopBytesDiffer(d) then Truncated(d) else d);
    }
    ok := true;
    assert written + [] == written;
  }

  // ENET_RANGE_CODER_FLUSH
  method Flush(low: u32, out: seq<u8>, limit: nat) returns (ok: bool, written: seq<u8>)
    requires |out| <= limit
    ensures ok <==> |out| + |Flushed(low)| <= limit
    ensures ok ==> written == out + Flushed(low)
  {
    var left: u32 := low;
    written := out;
    while left != 0
      invariant |written| <= limit
      invariant written + Flushed(left) == out + Flushed(low)
      decreases Digits(left)
    {
      assert written + Flushed(left) == written + [left / TOP] + Flushed(Shl(left));
      if |written| >= limit {
        assert |written + Flushed(left)| > limit;
        return false, written;
      }
      written := written + [left / TOP];
      left := Shl(left);
    }
    ok := true;
    assert written + [] == written;
  }

  // The reader's view: a code word and a position, against the stream still to be read.
  ghost predicate Reading(input: seq<u8>, pos: nat, code: u32, rest: seq<u8>) {
    pos <= |input| && code == Window(rest) && Drop(rest, 4) == Drop(input, pos)
  }

  // ENET_RANGE_CODER_SEED
  method Seed(input: seq<u8>) returns (code: u32, pos: nat)
    ensures Reading(input, pos, code, input)
  {
    code, pos := 0, 0;
    if pos < |input| { code, pos := code + (input[pos] as int) * 0x100_0000, pos + 1; }
    if pos < |input| { code, pos := code + (input[pos] as int) * 0x1_0000, pos + 1; }
    if pos < |input| { code, pos := code + (input[pos] as int) * 0x100, pos + 1; }
    if pos < |input| { code, pos := code + input[pos], pos + 1; }
  }

  // ENET_RANGE_CODER_DECODE, after READ has divided the range by the slot's total.
  method DecodeSlot(c: Coder, e: Slot, input: seq<u8>, code: u32, pos: nat, ghost rest: seq<u8>)
    returns (d: Coder, code': u32, pos': nat)
    requires Ready(c) && Fits(e) && Reading(input, pos, code, rest)
    ensures d == Next(c, e)
    ensures Reading(input, pos', code', Drop(rest, |Emitted(Narrow(c, e))|))
  {
    ghost var start := Narrow(c, e);
    ghost var left := rest;
    var unit := c.range / e.total;
    d, code', pos' := Coder(c.low + e.under * unit, unit * e.count), code, pos;
    assert Drop(rest, 0) == rest;
    while true
      invariant Sound(d) && Settle(d) == Settle(start)
      invariant Reading(input, pos', code', left)
      invariant Drop(left, |Emitted(d)|) == Drop(rest, |Emitted(start)|)
      decreases Rank(d), WORD - d.range
    {
      if TopBytesDiffer(d) {
        if d.range >= BOTTOM { break; }
      }
      ShiftSound(d);
      assert Emitted(d) == [d.low / TOP] + Emitted(Shift(Trim(d)));
      DropDrop(left, 1, |Emitted(Shift(Trim(d)))|);
      WindowShift(left);
      assert At(left, 4) == At(Drop(input, pos'), 0);
      assert Drop(Drop(left, 1), 4) == Drop(Drop(left, 4), 1);
      code' := (code' * 0x100) % WORD;
      if pos' < |input| {
        code', pos' := code' + input[pos'], pos' + 1;
      }
      left := Drop(left, 1);
      d := Shift(if TopBytesDiffer(d) then Truncated(d) else d);
    }
  }

  // --- A writer with slots still to write, and the reader of what it will have written. ---

  ghost predicate Pending(c: Coder, es: seq<Slot>, out: seq<u8>, goal: seq<u8>) {
    Ready(c) && (forall e <- es :: Fits(e)) && out + Encoded(c, es) == goal
  }

  method WriteSlot(c: Coder, e: Slot, out: seq<u8>, limit: nat, ghost es: seq<Slot>, ghost goal: seq<u8>)
    returns (ok: bool, d: Coder, written: seq<u8>)
    requires Pending(c, [e] + es, out, goal) && |out| <= limit
    ensures ok ==> Pending(d, es, written, goal) && |written| <= limit
    ensures !ok ==> |goal| > limit
  {
    PendingStep(c, e, es, out, goal);
    hide *;
    ok, d, written := EncodeSlot(c, e, out, limit);
  }

  lemma PendingStep(c: Coder, e: Slot, es: seq<Slot>, out: seq<u8>, goal: seq<u8>)
    requires Pending(c, [e] + es, out, goal)
    ensures Ready(c) && Fits(e) && Pending(Next(c, e), es, out + Emitted(Narrow(c, e)), goal)
    ensures |goal| >= |out| + |Emitted(Narrow(c, e))|
  {
    hide Ready, Fits, Emitted, Encoded, Narrow, Settle;
    assert Fits(([e] + es)[0]);
    assert forall f <- es :: f in [e] + es;
    EncodedStep(c, e, es);
    assert out + Emitted(Narrow(c, e)) + Encoded(Next(c, e), es) == goal;
  }

  ghost predicate Expecting(c: Coder, es: seq<Slot>, input: seq<u8>, pos: nat, code: u32, rest: seq<u8>) {
    Ready(c) && (forall e <- es :: Fits(e)) && Reading(input, pos, code, rest) && rest == Encoded(c, es)
  }

  // The slot taken is the next one written or, past the last one, any lowest slot.
  method TakeSlot(c: Coder, e: Slot, input: seq<u8>, code: u32, pos: nat, ghost all: seq<Slot>, ghost es: seq<Slot>,
                  ghost rest: seq<u8>)
    returns (d: Coder, code': u32, pos': nat, ghost rest': seq<u8>)
    requires Expecting(c, all, input, pos, code, rest) && Fits(e)
    requires all == [e] + es || (all == es == [] && e.under == 0)
    ensures Expecting(d, es, input, pos', code', rest')
  {
    hide Ready, Fits, Reading, Emitted, Narrow, Next, Encoded;
    d, code', pos' := DecodeSlot(c, e, input, code, pos, rest);
    rest' := Drop(rest, |Emitted(Narrow(c, e))|);
    if all == [] { TakenLast(c, e, rest); } else { TakenNext(c, e, es, rest); }
  }

  lemma TakenNext(c: Coder, e: Slot, es: seq<Slot>, rest: seq<u8>)
    requires Ready(c) && (forall f <- [e] + es :: Fits(f)) && rest == Encoded(c, [e] + es)
    ensures Fits(e) && (forall f <- es :: Fits(f)) && Ready(Next(c, e))
    ensures Drop(rest, |Emitted(Narrow(c, e))|) == Encoded(Next(c, e), es)
  {
    hide Ready, Fits, Emitted, Narrow, Encoded, Settle;
    assert [e][0] in [e] + es && forall f <- es :: f in [e] + es;
    EncodedStep(c, e, es);
  }

  lemma TakenLast(c: Coder, e: Slot, rest: seq<u8>)
    requires Ready(c) && Fits(e) && e.under == 0 && rest == Encoded(c, [])
    ensures Ready(Next(c, e)) && Drop(rest, |Emitted(Narrow(c, e))|) == Encoded(Next(c, e), [])
  {
    SettleFlushed(Narrow(c, e), rest);
  }

  ghost predicate ReadsIn(c: Coder, code: u32, e: Slot) {
    Ready(c) && Fits(e) && c.low <= code && e.under <= Read(c, code, e.total) < e.under + e.count
  }

  // What the reader finds: the next slot's part of the interval, or its very bottom at the end.
  lemma ExpectedCode(c: Coder, es: seq<Slot>, input: seq<u8>, pos: nat, code: u32, rest: seq<u8>)
    requires Expecting(c, es, input, pos, code, rest)
    ensures Contains(c, code)
    ensures es == [] ==> code == c.low
    ensures es != [] ==> ReadsIn(c, code, es[0])
  {
    EncodedContains(c, es);
    if es == [] {
      WindowFlushed(c.low);
    } else {
      ReadSlot(c, es[0], code);
    }
  }
}
