/** The packet checksum: reflect_crc, initialize_crc32 and enet_crc32 of src/enet/packet.c. The table-driven
    form over a list of buffers is the remainder of the polynomial division that section 3.2.9 of IEEE
    802.3-2012 prescribes for the concatenated bytes, before the final change of byte order. */
module Crc {
  import opened Words
  import opened Numbers
  import opened BinaryDivision

  const POLYNOMIAL: u32 := 0x04c1_1db7
  const WIDTH: nat := 32

  // --- Machine words. ---

  // The low n bits of a word, lowest first; a negative word stands for its two's complement.
  function Low(x: int, n: nat): (b: Bits)
    ensures |b| == n
    decreases n
  {
    if n == 0 then [] else [x % 2 == 1] + Low(x / 2, n - 1)
  }

  // The operators ^ and |.
  function Xor(x: nat, y: nat): nat {
    if x == 0 && y == 0 then 0 else 2 * Xor(x / 2, y / 2) + if x % 2 == y % 2 then 0 else 1
  }

  function Or(x: nat, y: nat): nat {
    if x == 0 && y == 0 then 0 else 2 * Or(x / 2, y / 2) + if x % 2 == 0 && y % 2 == 0 then 0 else 1
  }

  lemma {:induction false} LowXor(x: nat, y: nat, n: nat)
    ensures Low(Xor(x, y), n) == Plus(Low(x, n), Low(y, n))
  {
    if n > 0 { LowXor(x / 2, y / 2, n - 1); }
  }

  lemma {:induction false} LowOr(x: nat, y: nat, n: nat, i: nat)
    requires i < n
    ensures Low(Or(x, y), n)[i] == (Low(x, n)[i] || Low(y, n)[i])
  {
    if i > 0 { LowOr(x / 2, y / 2, n - 1, i - 1); }
  }

  lemma {:induction false} XorFits(x: nat, y: nat, n: nat)
    requires x < Pow2(n) && y < Pow2(n)
    ensures Xor(x, y) < Pow2(n)
  {
    if n > 0 { XorFits(x / 2, y / 2, n - 1); }
  }

  lemma {:induction false} OrFits(x: nat, y: nat, n: nat)
    requires x < Pow2(n) && y < Pow2(n)
    ensures Or(x, y) < Pow2(n)
  {
    if n > 0 { OrFits(x / 2, y / 2, n - 1); }
  }

  lemma {:induction false} LowZero(n: nat)
    ensures Low(0, n) == Zeros(n)
  {
    if n > 0 {
      LowZero(n - 1);
      assert Zeros(n) == [false] + Zeros(n - 1);
    }
  }

  lemma {:induction false} LowSmall(x: nat, k: nat, n: nat)
    requires x < Pow2(k) && k <= n
    ensures Low(x, n) == Low(x, k) + Zeros(n - k)
  {
    if k == 0 { LowZero(n); } else { LowSmall(x / 2, k - 1, n - 1); }
  }

  // Shifting down and up.
  lemma {:induction false} LowSplits(x: int, k: nat, n: nat)
    ensures Low(x, k + n) == Low(x, k) + Low(x / Pow2(k), n)
    decreases k
  {
    if k > 0 {
      LowSplits(x / 2, k - 1, n);
      HalfFirst(x, Pow2(k - 1));
    }
  }

  lemma HalfFirst(x: int, p: nat)
    requires p > 0
    ensures x / 2 / p == x / (2 * p)
  {
    var q := x / 2 / p;
    assert x / 2 == p * q + x / 2 % p;
    assert x == 2 * (x / 2) + x % 2;
    assert x == 2 * p * q + (2 * (x / 2 % p) + x % 2);
    QuotientIs(x, 2 * p, q, 2 * (x / 2 % p) + x % 2);
  }

  lemma {:induction false} LowShifted(x: int, k: nat, n: nat)
    ensures Low(x * Pow2(k), k + n) == Zeros(k) + Low(x, n)
    decreases k
  {
    if k > 0 {
      LowShifted(x, k - 1, n);
      var y := x * Pow2(k - 1);
      assert x * Pow2(k) == 2 * y;
      assert Zeros(k) == [false] + Zeros(k - 1);
    }
  }

  lemma {:induction false} LowWraps(x: int, n: nat, k: int)
    ensures Low(x + k * Pow2(n), n) == Low(x, n)
    decreases n
  {
    if n > 0 {
      var y := k * Pow2(n - 1);
      assert k * Pow2(n) == 2 * y;
      LowWraps(x / 2, n - 1, k);
    }
  }

  lemma {:induction false} LowComplement(x: nat, n: nat)
    requires x < Pow2(n)
    ensures Low(Pow2(n) - 1 - x, n) == Complement(Low(x, n))
  {
    if n > 0 {
      LowComplement(x / 2, n - 1);
      assert (Pow2(n) - 1 - x) / 2 == Pow2(n - 1) - 1 - x / 2;
    }
  }

  // A word is determined by its bits.
  lemma {:induction false} LowInjective(x: nat, y: nat, n: nat)
    requires x < Pow2(n) && y < Pow2(n) && Low(x, n) == Low(y, n)
    ensures x == y
  {
    if n > 0 {
      assert Low(x, n)[0] == Low(y, n)[0] && Low(x, n)[1..] == Low(y, n)[1..];
      LowInjective(x / 2, y / 2, n - 1);
    }
  }

  lemma Powers()
    ensures Pow2(8) == 0x100 && Pow2(24) == 0x100_0000 && Pow2(31) == 0x8000_0000 && Pow2(32) == WORD
  {
    assert Pow2(8) == 0x100;
    Pow2Add(8, 16);
    Pow2Add(8, 8);
    Pow2Add(7, 24);
  }

  lemma {:induction false} LowPower(k: nat, n: nat)
    requires k < n
    ensures Low(Pow2(k), n) == Zeros(k) + [true] + Zeros(n - k - 1)
  {
    LowShifted(1, k, n - k);
    LowZero(n - k - 1);
  }

  // The bits of a word, highest first.
  function High(x: int, n: nat): (b: Bits)
    ensures |b| == n
  {
    Reverse(Low(x, n))
  }

  // What the division needs of a left shift: it drops the top bit.
  lemma HighStep(x: nat, n: nat, polynomial: nat)
    requires n > 0 && x < Pow2(n)
    ensures var y := 2 * x % Pow2(n);
      High(if x >= Pow2(n - 1) then Xor(y, polynomial) else y, n) == Step(High(x, n), High(polynomial, n))
  {
    var y, top := 2 * x % Pow2(n), x >= Pow2(n - 1);
    TopBit(x, n);
    ShiftLeft(x, n);
    LowXor(y, polynomial, n);
    ReverseJoins(Low(x, n - 1), top);
    ReverseJoins(Low(x, n - 1), false);
    ReversePlus(Low(y, n), Low(polynomial, n));
    hide Low, Plus, Reverse, Xor;
    assert High(x, n)[1..] == Reverse(Low(x, n - 1));
  }

  lemma ReverseJoins(a: Bits, bit: bool)
    ensures Reverse(a + [bit]) == [bit] + Reverse(a) && Reverse([bit] + a) == Reverse(a) + [bit]
  {
  }

  lemma ReversePlus(a: Bits, b: Bits)
    requires |a| == |b|
    ensures Reverse(Plus(a, b)) == Plus(Reverse(a), Reverse(b))
  {
  }

  lemma TopBit(x: nat, n: nat)
    requires n > 0 && x < Pow2(n)
    ensures Low(x, n) == Low(x, n - 1) + [x >= Pow2(n - 1)]
  {
    LowSplits(x, n - 1, 1);
    var p, q := Pow2(n - 1), x / Pow2(n - 1);
    assert q == if x >= p then 1 else 0 by { QuotientIs(x, p, if x >= p then 1 else 0, if x >= p then x - p else x); }
  }

  lemma ShiftLeft(x: nat, n: nat)
    requires n > 0
    ensures Low(2 * x % Pow2(n), n) == [false] + Low(x, n - 1)
  {
    var p := Pow2(n);
    LowWraps(2 * x % p, n, 2 * x / p);
    assert 2 * x % p + 2 * x / p * p == 2 * x;
    assert Low(2 * x, n) == [false] + Low(x, n - 1);
  }

  // --- reflect_crc ---

  // `val` is an int: its right shift keeps the sign.
  method Reflect(val: int, bits: nat) returns (result: nat)
    ensures result < Pow2(bits) && Low(result, bits) == High(val, bits)
  {
    result := 0;
    LowZero(bits);
    var v, bit: nat := val, 0;
    while bit < bits
      invariant bit <= bits && v == val / Pow2(bit) && result < Pow2(bits)
      invariant Low(result, bits) == Zeros(bits - bit) + High(val, bit)
    {
      ReflectStep(result, val, bits, bit);
      if v % 2 == 1 { result := Or(result, Pow2(bits - 1 - bit)); }
      HalfFirst(val, Pow2(bit));
      SwapHalves(val, Pow2(bit));
      v, bit := v / 2, bit + 1;
    }
  }

  lemma SwapHalves(x: int, p: nat)
    requires p > 0
    ensures x / p / 2 == x / (2 * p)
  {
    var q := x / p / 2;
    assert x == p * (x / p) + x % p && x / p == 2 * q + x / p % 2;
    var b := x / p % 2;
    assert x == 2 * p * q + (p * b + x % p);
    QuotientIs(x, 2 * p, q, p * b + x % p);
  }

  lemma ReflectStep(result: nat, val: int, bits: nat, bit: nat)
    requires bit < bits && result < Pow2(bits) && Low(result, bits) == Zeros(bits - bit) + High(val, bit)
    ensures var r := if val / Pow2(bit) % 2 == 1 then Or(result, Pow2(bits - 1 - bit)) else result;
      r < Pow2(bits) && Low(r, bits) == Zeros(bits - bit - 1) + High(val, bit + 1)
  {
    var k, v := bits - 1 - bit, val / Pow2(bit);
    LowSplits(val, bit, 1);
    assert Low(v, 1) == [v % 2 == 1];
    hide Low;
    assert High(val, bit + 1) == [v % 2 == 1] + High(val, bit);
    if v % 2 == 1 {
      PowLess(k, bits);
      OrFits(result, Pow2(k), bits);
      LowPower(k, bits);
      forall i | 0 <= i < bits ensures Low(Or(result, Pow2(k)), bits)[i] == (Zeros(k) + High(val, bit + 1))[i] {
        LowOr(result, Pow2(k), bits, i);
      }
    }
  }

  lemma {:induction false} PowLess(k: nat, n: nat)
    requires k < n
    ensures Pow2(k) < Pow2(n)
    decreases n
  {
    if k < n - 1 { PowLess(k, n - 1); }
  }

  // --- initialize_crc32 ---

  ghost function Generator(): (g: Bits)
    ensures |g| == WIDTH
  {
    High(POLYNOMIAL, WIDTH)
  }

  // A row: the byte's bits, low end first, divided as one block.
  ghost function Row(byte: nat): (r: Bits)
    ensures |r| == WIDTH
  {
    Steps(Low(byte, 8) + Zeros(WIDTH - 8), 8, Generator())
  }

  ghost predicate Filled(table: seq<u32>, n: nat) {
    forall b :: 0 <= b < n <= |table| ==> Low(table[b], WIDTH) == Row(b)
  }

  function Signed(x: u32): int { if x < 0x8000_0000 then x else x - WORD }

  lemma SignedBits(x: u32)
    ensures Low(Signed(x), WIDTH) == Low(x, WIDTH)
  {
    Powers();
    LowWraps(x, WIDTH, -1);
  }

  // The byte, reflected, at the top of a word.
  lemma RowStarts(reflected: nat, byte: nat)
    requires reflected < Pow2(8) && Low(reflected, 8) == High(byte, 8)
    ensures reflected * 0x100_0000 < WORD && High(reflected * 0x100_0000, WIDTH) == Low(byte, 8) + Zeros(WIDTH - 8)
  {
    Powers();
    LowShifted(reflected, 24, 8);
    hide Low, Pow2;
  }

  // One bit of the division.
  method ShiftOnce(crc: u32) returns (next: u32)
    ensures High(next, WIDTH) == Step(High(crc, WIDTH), Generator())
  {
    Powers();
    HighStep(crc, WIDTH, POLYNOMIAL);
    XorFits(2 * crc % WORD, POLYNOMIAL, WIDTH);
    hide Low, Pow2, Xor, High, Step;
    if crc >= 0x8000_0000 { next := Xor(2 * crc % WORD, POLYNOMIAL); } else { next := 2 * crc % WORD; }
  }

  // The word passed as an int, and the result taken as unsigned.
  method ReflectWord(crc: u32) returns (row: u32)
    ensures Low(row, WIDTH) == High(crc, WIDTH)
  {
    Powers();
    SignedBits(crc);
    hide Low, Pow2;
    row := Reflect(Signed(crc), WIDTH);
  }

  lemma RowIs(byte: nat)
    ensures Row(byte) == Steps(Low(byte, 8) + Zeros(WIDTH - 8), 8, Generator())
  {
    hide Steps;
  }

  lemma StepsMore(r: Bits, k: nat, g: Bits)
    requires |r| == |g| > 0 && k > 0
    ensures Steps(r, k, g) == Steps(Step(r, g), k - 1, g)
  {
  }

  lemma StepsEnd(r: Bits, g: Bits)
    requires |r| == |g| > 0
    ensures Steps(r, 0, g) == r
  {
  }

  method MakeRow(byte: u8) returns (row: u32)
    ensures Low(row, WIDTH) == Row(byte)
  {
    hide Low, Pow2, High, Steps, Step, Row, Generator;
    var reflected := Reflect(byte, 8);
    RowStarts(reflected, byte);
    RowIs(byte);
    var crc: u32 := reflected * 0x100_0000;
    var offset: nat := 0;
    while offset < 8
      invariant offset <= 8 && Steps(High(crc, WIDTH), 8 - offset, Generator()) == Row(byte)
    {
      StepsMore(High(crc, WIDTH), 8 - offset, Generator());
      crc := ShiftOnce(crc);
      offset := offset + 1;
    }
    StepsEnd(High(crc, WIDTH), Generator());
    row := ReflectWord(crc);
  }

  // The generator of IEEE 802.3: these are the exponents below 32 in it.
  lemma GeneratorIs(k: nat)
    requires k < 32
    ensures Generator()[31 - k] <==> k in {0, 1, 2, 4, 5, 7, 8, 10, 11, 12, 16, 22, 23, 26}
  {
    hide Low, Generator;
    GeneratorAt(k);
    PolynomialAt(k);
  }

  lemma GeneratorAt(k: nat)
    requires k < 32
    ensures Generator()[31 - k] == Low(0x04c1_1db7, 32)[k]
  {
    hide Low;
  }

  lemma PolynomialAt(k: nat)
    requires k < 32
    ensures Low(0x04c1_1db7, 32)[k] <==> k in {0, 1, 2, 4, 5, 7, 8, 10, 11, 12, 16, 22, 23, 26}
  {
    hide Low;
    WordIs(0xb7, 0x1d, 0xc1, 0x04);
    Pick(Low(0xb7, 8), Low(0x1d, 8), Low(0xc1, 8), Low(0x04, 8), k);
    if k < 16 { LowExponents(k % 8); } else { HighExponents(k % 8); }
  }

  lemma LowExponents(k: nat)
    requires k < 8
    ensures Low(0xb7, 8)[k] <==> k in {0, 1, 2, 4, 5, 7}
    ensures Low(0x1d, 8)[k] <==> k in {0, 2, 3, 4}
  {
    hide Low;
    ByteBits(0xb7);
    ByteBits(0x1d);
  }

  lemma HighExponents(k: nat)
    requires k < 8
    ensures Low(0xc1, 8)[k] <==> k in {0, 6, 7}
    ensures Low(0x04, 8)[k] <==> k == 2
  {
    hide Low;
    ByteBits(0xc1);
    ByteBits(0x04);
  }

  lemma Pick(a: Bits, b: Bits, c: Bits, d: Bits, k: nat)
    requires |a| == |b| == |c| == |d| == 8 && k < 32
    ensures (a + b + c + d)[k] ==
      if k < 8 then a[k] else if k < 16 then b[k - 8] else if k < 24 then c[k - 16] else d[k - 24]
  {
  }

  lemma {:induction false} LowAt(x: nat, n: nat, i: nat)
    requires i < n
    ensures Low(x, n)[i] == (x / Pow2(i) % 2 == 1)
    decreases i
  {
    if i > 0 {
      LowAt(x / 2, n - 1, i - 1);
      HalfFirst(x, Pow2(i - 1));
    }
  }

  lemma ByteBits(x: u8)
    ensures Low(x, 8) == [x % 2 == 1, x / 2 % 2 == 1, x / 4 % 2 == 1, x / 8 % 2 == 1,
                          x / 16 % 2 == 1, x / 32 % 2 == 1, x / 64 % 2 == 1, x / 128 % 2 == 1]
  {
    hide Low, Pow2;
    SmallPowers();
    forall i: nat | i < 8 ensures Low(x, 8)[i] == (x / Pow2(i) % 2 == 1) { LowAt(x, 8, i); }
  }

  lemma SmallPowers()
    ensures Pow2(0) == 1 && Pow2(1) == 2 && Pow2(2) == 4 && Pow2(3) == 8
    ensures Pow2(4) == 16 && Pow2(5) == 32 && Pow2(6) == 64 && Pow2(7) == 128
  {
  }

  // A word's bits are those of its bytes.
  lemma WordIs(a: u8, b: u8, c: u8, d: u8)
    ensures Low(a + 0x100 * b + 0x1_0000 * c + 0x100_0000 * d, 32) == Low(a, 8) + Low(b, 8) + Low(c, 8) + Low(d, 8)
  {
    hide Low;
    ByteFirst(a, b + 0x100 * c + 0x1_0000 * d, 24);
    ByteFirst(b, c + 0x100 * d, 16);
    ByteFirst(c, d, 8);
  }

  lemma ByteFirst(a: u8, x: nat, n: nat)
    ensures Low(a + 0x100 * x, 8 + n) == Low(a, 8) + Low(x, n)
  {
    hide Low, Pow2;
    Powers();
    LowSplits(a + 0x100 * x, 8, n);
    LowWraps(a, 8, x);
  }

  // --- enet_crc32 ---

  // The bits of a message in the order of transmission: each byte low end first.
  ghost function MessageBits(m: seq<u8>): Bits {
    if m == [] then [] else MessageBits(m[..|m| - 1]) + Low(m[|m| - 1], 8)
  }

  ghost function Joined(buffers: seq<seq<u8>>): seq<u8> {
    if buffers == [] then [] else Joined(buffers[..|buffers| - 1]) + buffers[|buffers| - 1]
  }

  // The frame check sequence, high coefficient first: the first 32 bits of the message complemented, 32
  // zeros appended, divided by the generator, and the remainder complemented.
  ghost function CheckSequence(message: seq<u8>): Bits {
    Complement(Remainder(Dividend(Ones(WIDTH), MessageBits(message)), Generator()))
  }

  // The register, low end first, as the message has left it.
  ghost predicate Holds(crc: u32, message: seq<u8>) {
    Low(crc, WIDTH) == Register(Ones(WIDTH), MessageBits(message), Generator())
  }

  function Selected(crc: u32, byte: u8): nat { Xor(crc % 0x100, byte) }

  lemma SelectedFits(crc: u32, byte: u8)
    ensures Selected(crc, byte) < 0x100
  {
    Powers();
    XorFits(crc % 0x100, byte, 8);
  }

  // One byte by table does what eight divisions by a bit do.
  lemma ByTable(crc: u32, byte: u8, row: u32)
    requires Low(row, WIDTH) == Row(Selected(crc, byte))
    ensures Xor(crc / 0x100, row) < WORD
    ensures Low(Xor(crc / 0x100, row), WIDTH) == Register(Low(crc, WIDTH), Low(byte, 8), Generator())
  {
    hide Low, Pow2, Steps, Register, Xor, Plus, Zeros;
    Powers();
    XorFits(crc / 0x100, row, WIDTH);
    LowXor(crc / 0x100, row, WIDTH);
    LowSplits(crc, 8, WIDTH - 8);
    LowSmallQuotient(crc);
    LowXor(crc % 0x100, byte, 8);
    LowWraps(crc % 0x100, 8, crc / 0x100);
    var high := Low(crc / 0x100, WIDTH - 8);
    var low := Plus(Low(crc, 8), Low(byte, 8));
    BlockAdded(Low(crc, 8), high, Low(byte, 8));
    RegisterAtOnce(Low(crc, WIDTH), Low(byte, 8), Generator());
    StepsByTable(low, high, Generator());
  }

  lemma LowSmallQuotient(crc: u32)
    ensures Low(crc / 0x100, WIDTH) == Low(crc / 0x100, WIDTH - 8) + Zeros(8)
  {
    Powers();
    LowSmall(crc / 0x100, WIDTH - 8, WIDTH);
  }

  lemma BlockAdded(low: Bits, high: Bits, m: Bits)
    requires |low| == |m|
    ensures Plus(low + high, m + Zeros(|high|)) == Plus(low, m) + high
  {
  }

  lemma MessageGrows(message: seq<u8>, byte: u8, crc: u32, next: u32)
    requires Holds(crc, message) && Low(next, WIDTH) == Register(Low(crc, WIDTH), Low(byte, 8), Generator())
    ensures Holds(next, message + [byte])
  {
    hide Low, Register, Generator;
    assert (message + [byte])[..|message|] == message;
    RegisterJoins(Ones(WIDTH), MessageBits(message), Low(byte, 8), Generator());
  }

  lemma AtStart()
    ensures Holds(0xffff_ffff, [])
  {
    hide Low, Pow2, Generator;
    Powers();
    LowComplement(0, WIDTH);
    LowZero(WIDTH);
    assert Complement(Zeros(WIDTH)) == Ones(WIDTH);
  }

  lemma AtEnd(crc: u32, message: seq<u8>)
    requires Holds(crc, message)
    ensures Low(0xffff_ffff - crc, WIDTH) == CheckSequence(message)
  {
    hide Low, Register, Remainder, Generator, Pow2;
    Powers();
    LowComplement(crc, WIDTH);
    RegisterIsRemainder(Ones(WIDTH), MessageBits(message), Generator());
  }

  // Each byte is sent low end first.
  lemma MessageBitsAre(m: seq<u8>, i: nat, j: nat)
    requires i < |m| && j < 8
    ensures |MessageBits(m)| == 8 * |m| && (MessageBits(m)[8 * i + j] <==> m[i] / Pow2(j) % 2 == 1)
  {
    hide Low, Pow2, MessageBits;
    MessageBitsAt(m, i, j);
    LowAt(m[i], 8, j);
  }

  lemma {:induction false} MessageBitsAt(m: seq<u8>, i: nat, j: nat)
    requires i <= |m| && j < 8
    ensures |MessageBits(m)| == 8 * |m| && (i < |m| ==> MessageBits(m)[8 * i + j] == Low(m[i], 8)[j])
    decreases |m|
  {
    hide Low;
    if m != [] {
      var n := |m| - 1;
      MessageBitsAt(m[..n], if i < n then i else n, j);
      hide *;
      NextBits(m);
      EightMore(MessageBits(m[..n]), Low(m[n], 8), n, i, j);
    }
  }

  lemma NextBits(m: seq<u8>)
    requires m != []
    ensures MessageBits(m) == MessageBits(m[..|m| - 1]) + Low(m[|m| - 1], 8)
  {
  }

  lemma EightMore(a: Bits, b: Bits, n: nat, i: nat, j: nat)
    requires |a| == 8 * n && |b| == 8 && j < 8
    ensures |a + b| == 8 * (n + 1)
    ensures i < n ==> 8 * i + j < |a| && (a + b)[8 * i + j] == a[8 * i + j]
    ensures i == n ==> (a + b)[8 * i + j] == b[j]
  {
  }

  lemma NothingToCheck()
    ensures CheckSequence([]) == Zeros(32)
  {
    hide Low, Pow2, CheckSequence;
    AtStart();
    AtEnd(0xffff_ffff, []);
    LowZero(WIDTH);
  }

  lemma JoinedNone(buffers: seq<seq<u8>>)
    ensures Joined(buffers[..0]) == []
  {
  }

  lemma JoinedNext(buffers: seq<seq<u8>>, k: nat)
    requires k < |buffers|
    ensures Joined(buffers[..k + 1]) == Joined(buffers[..k]) + buffers[k]
  {
    assert buffers[..k + 1][..k] == buffers[..k];
  }

  // The static variables of packet.c.
  class Checksum {
    var initialized: bool  // initializedCRC32
    const table: array<u32>

    ghost predicate Valid()
      reads this, table
    {
      table.Length == 256 && (initialized ==> Filled(table[..], 256))
    }

    constructor ()
      ensures Valid() && !initialized && fresh(table)
    {
      initialized := false;
      table := new u32[256];
    }

    method Initialize()
      requires Valid()
      modifies this, table
      ensures Valid() && initialized
    {
      var byte: nat := 0;
      while byte < 256
        invariant byte <= 256 && table.Length == 256 && Filled(table[..], byte)
      {
        hide Low, Row;
        var row := MakeRow(byte);
        ghost var before := table[..];
        table[byte] := row;
        assert table[..] == before[byte := row];
        byte := byte + 1;
      }
      initialized := true;
    }

    // The byte order of the result is not changed here.
    method Compute(buffers: seq<seq<u8>>) returns (result: u32)
      requires Valid()
      modifies this, table
      ensures Valid() && initialized
      ensures Low(result, WIDTH) == CheckSequence(Joined(buffers))
    {
      hide *;
      if !initialized { Initialize(); }
      var crc := Consume(buffers);
      AtEnd(crc, Joined(buffers));
      result := 0xffff_ffff - crc;
    }

    // The loop over the buffers.
    method Consume(buffers: seq<seq<u8>>) returns (crc: u32)
      requires Valid() && initialized
      ensures Holds(crc, Joined(buffers))
    {
      crc := 0xffff_ffff;
      AtStart();
      JoinedNone(buffers);
      hide *;
      var k: nat := 0;
      while k < |buffers|
        invariant k <= |buffers| && Holds(crc, Joined(buffers[..k]))
      {
        JoinedNext(buffers, k);
        crc := ConsumeBuffer(buffers[k], crc, Joined(buffers[..k]));
        k := k + 1;
      }
      assert buffers[..k] == buffers;
    }

    // The inner loop, over one buffer.
    method ConsumeBuffer(data: seq<u8>, start: u32, ghost message: seq<u8>) returns (crc: u32)
      requires Valid() && initialized && Holds(start, message)
      ensures Holds(crc, message + data)
    {
      hide Low, Holds, Row;
      crc := start;
      var j: nat := 0;
      assert message + data[..0] == message;
      while j < |data|
        invariant j <= |data| && Holds(crc, message + data[..j])
      {
        SelectedFits(crc, data[j]);
        var row := table[Selected(crc, data[j])];
        assert row == table[..][Selected(crc, data[j])];
        ByTable(crc, data[j], row);
        MessageGrows(message + data[..j], data[j], crc, Xor(crc / 0x100, row));
        crc := Xor(crc / 0x100, row);
        assert message + data[..j] + [data[j]] == message + data[..j + 1];
        j := j + 1;
      }
      assert data[..j] == data;
    }
  }

  // The checksum is fixed by the message: it does not depend on how the message is split.
  lemma SplitIrrelevant(a: seq<seq<u8>>, b: seq<seq<u8>>, x: u32, y: u32)
    requires Joined(a) == Joined(b)
    requires Low(x, WIDTH) == CheckSequence(Joined(a)) && Low(y, WIDTH) == CheckSequence(Joined(b))
    ensures x == y
  {
    hide Low, CheckSequence;
    Powers();
    LowInjective(x, y, WIDTH);
  }
}
