/** What one context of src/enet/compress.c knows: how often each byte followed it,
    its escape weight and its total. Every value is the abstract content of a symbol tree. */
module ContextCounts {
  import opened Words
  import opened RangeInterval

  type Counts = k: seq<u8> | |k| == 256 witness Zeros(256)

  function Zeros(n: nat): (z: seq<u8>)
    ensures |z| == n && forall i :: 0 <= i < n ==> z[i] == 0
  {
    if n == 0 then [] else Zeros(n - 1) + [0]
  }

  datatype Context = Context(counts: Counts, escapes: u16, total: u16)

  function Nothing(): Counts { seq(256, i => 0) }
  const EMPTY := Context(Nothing(), 0, 0)
  const FRESH_ROOT := Context(Nothing(), 1, 1 + 0x100)

  const ESCAPE_DELTA := 5
  const TOTAL_LIMIT := BOTTOM - 0x100

  // Subcontexts use minimum 0, the root minimum 1.
  function Delta(minimum: nat): nat { if minimum == 0 then 2 else 3 }
  function CountLimit(minimum: nat): nat { if minimum == 0 then 0xFF - 2 * 2 else 0xFF - 2 * 3 + 1 }

  function Below(k: Counts, v: nat): nat
    requires v <= 256
  {
    if v == 0 then 0 else Below(k, v - 1) + k[v - 1]
  }

  function Sum(k: Counts): nat { Below(k, |k|) }

  function Halve(k: Counts): Counts { seq(256, i requires 0 <= i < 256 => k[i] - k[i] / 2) }

  lemma {:induction false} BelowMonotone(k: Counts, v: nat, w: nat)
    requires v <= w <= 256
    ensures Below(k, v) <= Below(k, w)
    ensures v < w ==> Below(k, v) + k[v] <= Below(k, w)
  {
    if v < w { BelowMonotone(k, v, w - 1); }
  }

  lemma {:induction false} BelowBumped(k: Counts, v: u8, d: nat, w: nat)
    requires k[v] + d < 0x100 && w <= 256
    ensures Below(k[v := k[v] + d], w) == Below(k, w) + if v < w then d else 0
  {
    if w > 0 { BelowBumped(k, v, d, w - 1); }
  }

  lemma {:induction false} BelowHalved(k: Counts, v: nat)
    requires v <= 256
    ensures Below(k, v) <= 2 * Below(Halve(k), v) <= Below(k, v) + v
  {
    if v > 0 { BelowHalved(k, v - 1); }
  }

  // A run of zero counts is exactly a run over which the sum does not move.
  lemma {:induction false} BelowFlat(k: Counts, v: nat, w: nat)
    requires v <= w <= 256
    ensures Below(k, v) == Below(k, w) <==> forall i :: v <= i < w ==> k[i] == 0
  {
    if v < w {
      BelowFlat(k, v, w - 1);
      BelowMonotone(k, v, w - 1);
    }
  }

  // The bookkeeping every context keeps, with room for one more byte to be counted.
  ghost predicate Balanced(x: Context, minimum: nat) {
    x.total == x.escapes + Sum(x.counts) + 256 * minimum
  }

  ghost predicate Tame(x: Context, minimum: nat) {
    && minimum <= 1
    && Balanced(x, minimum)
    && x.total <= TOTAL_LIMIT
    && (forall v :: 0 <= v < 256 ==> x.counts[v] <= 0xFF - Delta(minimum))
    && (minimum == 1 ==> x.escapes > 0)
    && (minimum == 0 ==> (x.escapes == 0 <==> forall v :: 0 <= v < 256 ==> x.counts[v] == 0))
  }

  lemma ZeroSum(k: Counts)
    requires forall i :: 0 <= i < 256 ==> k[i] == 0
    ensures Sum(k) == 0
  {
    BelowFlat(k, 0, |k|);
  }

  lemma BlankTame(x: Context)
    requires x.escapes == x.total == 0 && forall i :: 0 <= i < 256 ==> x.counts[i] == 0
    ensures Tame(x, 0)
  {
    ZeroSum(x.counts);
  }

  lemma FreshTame(x: Context)
    requires x.escapes == 1 && x.total == 1 + 0x100 && forall i :: 0 <= i < 256 ==> x.counts[i] == 0
    ensures Tame(x, 1)
  {
    ZeroSum(x.counts);
  }

  function SlotFor(x: Context, v: u8, minimum: nat): Slot {
    Slot(x.escapes + Below(x.counts, v) + v * minimum, x.counts[v] + minimum, x.total)
  }

  function EscapeSlot(x: Context): Slot { Slot(0, x.escapes, x.total) }

  lemma SlotForFits(x: Context, v: u8, minimum: nat)
    requires Tame(x, minimum) && x.counts[v] + minimum > 0
    ensures Fits(SlotFor(x, v, minimum))
  {
    BelowMonotone(x.counts, v, 256);
  }

  lemma EscapeSlotFits(x: Context, minimum: nat)
    requires Tame(x, minimum) && x.escapes > 0
    ensures Fits(EscapeSlot(x))
  {
  }

  // A context with any escape weight has been counted in, so its escape is never the whole range.
  lemma EscapeIsPart(x: Context)
    requires Tame(x, 0) && x.escapes > 0
    ensures x.escapes < x.total
  {
    BelowFlat(x.counts, 0, |x.counts|);
  }

  // Distinct bytes own disjoint slices, in byte order, all of them above the escape's.
  lemma SlotsDisjoint(x: Context, v: u8, w: u8, minimum: nat)
    requires v < w && minimum <= 1
    ensures SlotFor(x, v, minimum).under + SlotFor(x, v, minimum).count <= SlotFor(x, w, minimum).under
    ensures EscapeSlot(x).count <= SlotFor(x, v, minimum).under
  {
    BelowMonotone(x.counts, v, w);
  }

  function Rescaled(k: Counts, escapes: u16, minimum: nat): Context
    requires minimum <= 1 && escapes + Sum(k) + 256 * minimum < HALF
  {
    BelowHalved(k, 256);
    Context(Halve(k), escapes - escapes / 2, Sum(Halve(k)) + (escapes - escapes / 2) + 256 * minimum)
  }

  function EscapesAfter(x: Context, v: u8, minimum: nat): nat {
    if minimum == 0 && x.counts[v] == 0 then x.escapes + ESCAPE_DELTA else x.escapes
  }

  function TotalAfter(x: Context, v: u8, minimum: nat): nat {
    x.total + Delta(minimum) + if minimum == 0 && x.counts[v] == 0 then ESCAPE_DELTA else 0
  }

  // Counting byte v: its count grows, a byte new to a subcontext also adds escape weight,
  // and weights are halved when they would outgrow their fields.
  function Learned(x: Context, v: u8, minimum: nat): Context
    requires Tame(x, minimum)
  {
    var k := x.counts[v := x.counts[v] + Delta(minimum)];
    BelowBumped(x.counts, v, Delta(minimum), 256);
    if x.counts[v] + minimum > CountLimit(minimum) || TotalAfter(x, v, minimum) > TOTAL_LIMIT
    then Rescaled(k, EscapesAfter(x, v, minimum), minimum)
    else Context(k, EscapesAfter(x, v, minimum), TotalAfter(x, v, minimum))
  }

  lemma LearnedTame(x: Context, v: u8, minimum: nat)
    requires Tame(x, minimum)
    ensures Tame(Learned(x, v, minimum), minimum)
    ensures Learned(x, v, minimum).counts[v] > 0
  {
    var k := x.counts[v := x.counts[v] + Delta(minimum)];
    BelowBumped(x.counts, v, Delta(minimum), 256);
    BelowHalved(k, 256);
    assert Learned(x, v, minimum).counts[v] > 0 && Nothing()[v] == 0;
    assert k[v] > 0;
  }

  // When the weights are halved, in numbers.
  predicate Due(x: Context, v: u8, minimum: nat) {
    if minimum == 0
    then x.counts[v] > 251 || x.total + 2 + (if x.counts[v] == 0 then 5 else 0) > 65280
    else x.counts[v] > 249 || x.total + 3 > 65280
  }

  // What a context has learned until then.
  lemma LearnedIs(x: Context, v: u8, minimum: nat)
    requires Tame(x, minimum)
    ensures var d, e := if minimum == 0 then 2 else 3, if minimum == 0 && x.counts[v] == 0 then 5 else 0;
      && x.counts[v] + d < 256
      && var k := x.counts[v := x.counts[v] + d];
      x.escapes + e + Sum(k) + 256 * minimum < 65536 && Learned(x, v, minimum) ==
        if Due(x, v, minimum) then Rescaled(k, x.escapes + e, minimum) else Context(k, x.escapes + e, x.total + d + e)
  {
    BelowBumped(x.counts, v, Delta(minimum), 256);
  }

  // Halves are rounded up.
  lemma RescaledIs(k: Counts, escapes: u16, minimum: nat)
    requires minimum <= 1 && escapes + Sum(k) + 256 * minimum < HALF
    ensures var r := Rescaled(k, escapes, minimum);
      && (forall v: u8 :: var count: int := k[v]; r.counts[v] == (count + 1) / 2)
      && (var weight: int := escapes; r.escapes == (weight + 1) / 2)
      && r.total == r.escapes + Sum(r.counts) + 256 * minimum
  {
  }

  // code is one of value v's codes in its context, counted from the escape's end.
  ghost predicate Codes(k: Counts, minimum: nat, v: u8, code: nat) {
    Below(k, v) + v * minimum <= code < Below(k, v) + v * minimum + k[v] + minimum
  }

  // Comparing a code with value w's slice compares v with w.
  lemma CodesOrder(k: Counts, minimum: nat, v: u8, code: nat, w: u8)
    requires Codes(k, minimum, v, code) && minimum <= 1
    ensures code >= Below(k, w + 1) + (w + 1) * minimum <==> v > w
    ensures code < Below(k, w) + w * minimum <==> v < w
  {
    if v < w { BelowMonotone(k, v, w); BelowMonotone(k, v, w + 1); }
    if v > w { BelowMonotone(k, w, v); BelowMonotone(k, w + 1, v); }
    assert Below(k, w + 1) == Below(k, w) + k[w];
  }

  // A reading outside the escape's slice is one of the value's codes.
  lemma ReadCodes(x: Context, v: u8, minimum: nat, read: int)
    requires SlotFor(x, v, minimum).under <= read < SlotFor(x, v, minimum).under + SlotFor(x, v, minimum).count
    ensures read >= x.escapes && Codes(x.counts, minimum, v, read - x.escapes)
  {
    NonNegative(v, minimum);
  }

  lemma NonNegative(a: nat, b: nat)
    ensures 0 <= a * b
  {
  }
}
