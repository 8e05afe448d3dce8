/** The adaptive model of src/enet/compress.c, seen from outside the symbol pool:
    a context is named by the at most two bytes before the one to be coded. */
module ContextModel {
  import opened Words
  import opened RangeInterval
  import opened ContextCounts

  type Name = seq<u8>
  type Contexts = map<Name, Context>

  const POOL_SIZE := 4096
  const ORDER := 2

  ghost function Look(cs: Contexts, c: Name): Context { if c in cs then cs[c] else EMPTY }

  function Minimum(c: Name): nat { if c == [] then 1 else 0 }

  ghost predicate AllTame(cs: Contexts) {
    forall c: Name {:trigger Look(cs, c)} :: Tame(Look(cs, c), Minimum(c))
  }

  lemma LookUpdated(cs: Contexts, c: Name, x: Context)
    ensures forall b: Name {:trigger Look(cs[c := x], b)} :: Look(cs[c := x], b) == if b == c then x else Look(cs, b)
  {
  }

  lemma AllTameUpdated(cs: Contexts, c: Name, x: Context)
    requires AllTame(cs) && Tame(x, Minimum(c))
    ensures AllTame(cs[c := x])
  {
    LookUpdated(cs, c, x);
  }

  // The context c counts v, and no other changes.
  ghost function LearnIn(cs: Contexts, c: Name, v: u8): (r: Contexts)
    requires AllTame(cs)
    ensures AllTame(r)
  {
    var x := Learned(Look(cs, c), v, Minimum(c));
    LearnedTame(Look(cs, c), v, Minimum(c));
    AllTameUpdated(cs, c, x);
    cs[c := x]
  }

  // Coding v stops at the first context that has met it, or at the root.
  ghost predicate StopsAt(cs: Contexts, c: Name, v: u8) { c == [] || Look(cs, c).counts[v] > 0 }

  // What is written for v: an escape out of every context that is not empty, then its slice.
  ghost function Slots(cs: Contexts, c: Name, v: u8): seq<Slot> {
    if StopsAt(cs, c, v) then [SlotFor(Look(cs, c), v, Minimum(c))]
    else (if Look(cs, c).escapes > 0 then [EscapeSlot(Look(cs, c))] else []) + Slots(cs, c[1..], v)
  }

  ghost function Learn(cs: Contexts, c: Name, v: u8): (r: Contexts)
    requires AllTame(cs)
    ensures AllTame(r)
    decreases |c|
  {
    if StopsAt(cs, c, v) then LearnIn(cs, c, v) else Learn(LearnIn(cs, c, v), c[1..], v)
  }

  // How many symbols are created on the way.
  ghost function Grown(cs: Contexts, c: Name, v: u8): (r: nat)
    ensures r <= |c| + 1
  {
    (if Look(cs, c).counts[v] == 0 then 1 else 0) + if StopsAt(cs, c, v) then 0 else Grown(cs, c[1..], v)
  }

  datatype Model = Model(contexts: Contexts, predicted: Name, next: nat)

  ghost const BLANK := Model(map[[] := FRESH_ROOT], [], 1)

  ghost predicate Sane(m: Model) {
    AllTame(m.contexts) && |m.predicted| <= ORDER && 0 < m.next < POOL_SIZE - ORDER
  }

  function Recent(c: Name, v: u8): Name { if |c| >= ORDER then (c + [v])[1..] else c + [v] }

  ghost function After(m: Model, v: u8): (r: Model)
    requires Sane(m)
    ensures Sane(r)
  {
    var next := m.next + Grown(m.contexts, m.predicted, v);
    if next >= POOL_SIZE - ORDER then BlankSane(); BLANK
    else Model(Learn(m.contexts, m.predicted, v), Recent(m.predicted, v), next)
  }

  ghost function AllSlots(m: Model, text: seq<u8>): seq<Slot>
    requires Sane(m)
    decreases |text|
  {
    if text == [] then []
    else Slots(m.contexts, m.predicted, text[0]) + AllSlots(After(m, text[0]), text[1..])
  }

  lemma BlankLookTame(c: Name)
    ensures Tame(Look(BLANK.contexts, c), Minimum(c))
  {
    var x := Look(BLANK.contexts, c);
    if c == [] { FreshTame(x); } else { BlankTame(x); }
  }

  lemma BlankSane()
    ensures Sane(BLANK)
  {
    forall c: Name {:trigger Look(BLANK.contexts, c)}
      ensures Tame(Look(BLANK.contexts, c), Minimum(c))
    {
      BlankLookTame(c);
    }
  }

  lemma {:induction false} SlotsFit(cs: Contexts, c: Name, v: u8)
    requires AllTame(cs)
    ensures forall e <- Slots(cs, c, v) :: Fits(e)
    decreases |c|
  {
    var x := Look(cs, c);
    assert Tame(x, Minimum(c));
    if StopsAt(cs, c, v) {
      SlotForFits(x, v, Minimum(c));
    } else {
      if x.escapes > 0 { EscapeSlotFits(x, Minimum(c)); }
      SlotsFit(cs, c[1..], v);
    }
  }

  lemma {:induction false} AllSlotsFit(m: Model, text: seq<u8>)
    requires Sane(m)
    ensures forall e <- AllSlots(m, text) :: Fits(e)
    decreases |text|
  {
    if text != [] {
      SlotsFit(m.contexts, m.predicted, text[0]);
      AllSlotsFit(After(m, text[0]), text[1..]);
    }
  }

  // What a text compresses to.
  ghost function Compressed(text: seq<u8>): seq<u8> {
    BlankSane();
    AllSlotsFit(BLANK, text);
    Encoded(Start, AllSlots(BLANK, text))
  }

  // Learning in longer contexts never changes what shorter ones say.
  lemma {:induction false} ShorterUnmoved(cs: Contexts, b: Name, x: Context, c: Name, v: u8)
    requires |b| > |c|
    ensures Slots(cs[b := x], c, v) == Slots(cs, c, v)
    ensures Grown(cs[b := x], c, v) == Grown(cs, c, v)
    decreases |c|
  {
    assert Look(cs[b := x], c) == Look(cs, c);
    if !StopsAt(cs, c, v) { ShorterUnmoved(cs, b, x, c[1..], v); }
  }

  // --- The decoder's order: first the context that knew the byte, then the longer ones. ---

  function Shorten(c: Name, stop: nat): Name { if |c| <= stop then c else Shorten(c[1..], stop) }

  ghost function LearnDownTo(cs: Contexts, c: Name, stop: nat, v: u8): (r: Contexts)
    requires AllTame(cs)
    ensures AllTame(r)
    decreases |c|
  {
    if |c| <= stop then cs else LearnDownTo(LearnIn(cs, c, v), c[1..], stop, v)
  }

  // Nothing longer than `stop` has met v.
  ghost predicate Unmet(cs: Contexts, c: Name, stop: nat, v: u8)
    decreases |c|
  {
    |c| <= stop || (!StopsAt(cs, c, v) && Unmet(cs, c[1..], stop, v))
  }

  lemma {:induction false} UnmetUnmoved(cs: Contexts, b: Name, x: Context, c: Name, stop: nat, v: u8)
    requires |b| > |c| || |b| <= stop
    ensures Unmet(cs[b := x], c, stop, v) == Unmet(cs, c, stop, v)
    decreases |c|
  {
    if |c| > stop {
      assert Look(cs[b := x], c) == Look(cs, c);
      UnmetUnmoved(cs, b, x, c[1..], stop, v);
    }
  }

  lemma LearnElsewhere(cs: Contexts, b: Name, c: Name, v: u8, x: Context)
    requires AllTame(cs) && AllTame(cs[c := x]) && b != c
    ensures LearnIn(cs[c := x], b, v) == LearnIn(cs, b, v)[c := x]
  {
    hide Learned, Tame;
    assert Look(cs[c := x], b) == Look(cs, b);
    var y := Learned(Look(cs, b), v, Minimum(b));
    assert cs[c := x][b := y] == cs[b := y][c := x];
  }

  lemma LearnInIs(cs: Contexts, c: Name, v: u8, x: Context)
    requires AllTame(cs) && x == Learned(Look(cs, c), v, Minimum(c))
    ensures LearnIn(cs, c, v) == cs[c := x]
  {
  }

  lemma LearnSwap(cs: Contexts, b: Name, c: Name, v: u8)
    requires AllTame(cs) && b != c
    ensures Look(LearnIn(cs, c, v), b) == Look(cs, b)
    ensures LearnIn(LearnIn(cs, c, v), b, v) == LearnIn(LearnIn(cs, b, v), c, v)
  {
    LearnSwapWith(cs, b, c, v, LearnIn(cs, c, v)[c], LearnIn(cs, b, v)[b]);
  }

  lemma LearnSwapWith(cs: Contexts, b: Name, c: Name, v: u8, x: Context, y: Context)
    requires AllTame(cs) && b != c && AllTame(cs[c := x])
    requires LearnIn(cs, c, v) == cs[c := x] && LearnIn(cs, b, v) == cs[b := y]
    requires x == Learned(Look(cs, c), v, Minimum(c))
    ensures Look(LearnIn(cs, c, v), b) == Look(cs, b)
    ensures LearnIn(LearnIn(cs, c, v), b, v) == LearnIn(LearnIn(cs, b, v), c, v)
  {
    hide *;
    LearnElsewhere(cs, b, c, v, x);
    LookUpdated(cs, b, y);
    LookUpdated(cs, c, x);
    LearnInIs(cs[b := y], c, v, x);
  }

  lemma {:induction false} PatchOrder(cs: Contexts, c: Name, stop: nat, v: u8)
    requires AllTame(cs) && stop <= |c| && Unmet(cs, c, stop, v) && StopsAt(cs, Shorten(c, stop), v)
    ensures Learn(cs, c, v) == LearnDownTo(LearnIn(cs, Shorten(c, stop), v), c, stop, v)
    decreases |c|
  {
    if |c| > stop {
      var d, b := c[1..], Shorten(c, stop);
      ShortenLength(c, stop);
      var cs' := LearnIn(cs, c, v);
      LearnSwap(cs, b, c, v);
      UnmetUnmoved(cs, c, cs'[c], d, stop, v);
      PatchOrder(cs', d, stop, v);
    }
  }

  lemma {:induction false} ShortenLength(c: Name, stop: nat)
    requires stop <= |c|
    ensures |Shorten(c, stop)| == stop
    decreases |c|
  {
    if |c| > stop { ShortenLength(c[1..], stop); }
  }

  lemma {:induction false} UnmetGrown(cs: Contexts, c: Name, stop: nat, v: u8)
    requires stop <= |c| && Unmet(cs, c, stop, v) && StopsAt(cs, Shorten(c, stop), v)
    ensures Grown(cs, c, v) == |c| - stop + Grown(cs, Shorten(c, stop), v)
    decreases |c|
  {
    if |c| > stop { UnmetGrown(cs, c[1..], stop, v); }
  }

  // What the decoder has left to read before context c: nothing at all past the end of the text.
  ghost function SlotsLeft(cs: Contexts, c: Name, ended: bool, v: u8, later: seq<Slot>): seq<Slot> {
    if ended then [] else Slots(cs, c, v) + later
  }

  // Reading below the escape weight means that the context does not know the byte, or that there is none.
  lemma EscapeRead(cs: Contexts, c: Name, ended: bool, v: u8, later: seq<Slot>, e: Coder, input: seq<u8>, pos: nat,
                   code: u32, rest: seq<u8>)
    requires Expecting(e, SlotsLeft(cs, c, ended, v, later), input, pos, code, rest)
    requires Tame(Look(cs, c), Minimum(c)) && Look(cs, c).escapes > 0
    ensures Ready(e) && Contains(e, code) && Fits(EscapeSlot(Look(cs, c)))
    ensures var x := Look(cs, c); var read := Read(e, code, x.total);
      if read < x.escapes then ended || !StopsAt(cs, c, v)
      else
        && !ended && StopsAt(cs, c, v) && read < SlotFor(x, v, Minimum(c)).total
        && Codes(x.counts, Minimum(c), v, read - x.escapes)
  {
    hide Encoded, Reading, Read;
    var x := Look(cs, c);
    var es := SlotsLeft(cs, c, ended, v, later);
    EscapeSlotFits(x, Minimum(c));
    ExpectedCode(e, es, input, pos, code, rest);
    if !ended {
      if StopsAt(cs, c, v) {
        assert es[0] == SlotFor(x, v, Minimum(c));
        ReadCodes(x, v, Minimum(c), Read(e, code, x.total));
      } else {
        assert es[0] == EscapeSlot(x);
      }
    }
  }

  lemma EmptyContext(cs: Contexts, c: Name, ended: bool, v: u8, later: seq<Slot>)
    requires Tame(Look(cs, c), 0) && c != [] && Look(cs, c).escapes == 0
    ensures !StopsAt(cs, c, v) && SlotsLeft(cs, c, ended, v, later) == SlotsLeft(cs, c[1..], ended, v, later)
  {
  }

  // One more context without the byte.
  lemma {:induction false} UnmetOn(cs: Contexts, c: Name, stop: nat, v: u8)
    requires 0 < stop <= |c| && Unmet(cs, c, stop, v) && !StopsAt(cs, Shorten(c, stop), v)
    ensures Unmet(cs, c, stop - 1, v) && Shorten(c, stop - 1) == Shorten(c, stop)[1..]
    decreases |c|
  {
    if |c| > stop { UnmetOn(cs, c[1..], stop, v); }
  }

  lemma UnmetHere(cs: Contexts, c: Name, v: u8)
    ensures Unmet(cs, c, |c|, v) && Shorten(c, |c|) == c
  {
  }

  lemma SlotsEscape(cs: Contexts, c: Name, v: u8, later: seq<Slot>)
    requires !StopsAt(cs, c, v) && Look(cs, c).escapes > 0
    ensures Slots(cs, c, v) + later == [EscapeSlot(Look(cs, c))] + (Slots(cs, c[1..], v) + later)
  {
  }

  lemma UnmetNow(cs: Contexts, c: Name, stop: nat, v: u8)
    requires Unmet(cs, c, stop, v)
    ensures |c| > stop ==> !StopsAt(cs, c, v)
  {
  }
}
