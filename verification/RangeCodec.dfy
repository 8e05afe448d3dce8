/** enet_range_coder_compress and enet_range_coder_decompress. */
module RangeCodec {
  import opened Words
  import opened RangeInterval
  import opened ContextCounts
  import opened ContextModel
  import opened SymbolTree
  import opened NamedPool
  import opened SymbolPool

  // The head of both functions and ENET_RANGE_CODER_FREE_SYMBOLS: a pool with only a root.
  method Clear(p: RangeCoder)
    requires p.symbols.Length == POOL
    modifies p, p.symbols
    ensures p.Models(0) && p.nextSymbol == 1 && p.names == [[]] && p.contexts == BLANK.contexts
  {
    p.nextSymbol := 0;
    var root := p.CreateSymbol(0, 0);
    p.symbols[root] := p.symbols[root].(escapes := 1, total := 1 + 256, symbols := 0);
    p.shape := Shape([0], [0], [1], [Nothing()]);
    p.names, p.contexts := [[]], BLANK.contexts;
    BlankSane();
    ZeroSum(Nothing());
    assert Pool(p.symbols[..], 1, p.shape);
  }

  // ENET_CONTEXT_ENCODE and the link from the symbol of the longer context.
  method Count(p: RangeCoder, c: nat, v: u8, loose: nat)
    returns (symbol: nat, under: nat, count: nat, ghost t: seq<Symbol>)
    requires p.Models(loose) && c < p.nextSymbol < POOL && loose < p.nextSymbol
    modifies p.symbols, p`nextSymbol, p`shape
    ensures var x := Look(p.contexts, p.names[c]);
      && Midway(old(p.symbols[..]), old(p.nextSymbol), old(p.shape), t, p.symbols[..], p.nextSymbol, p.shape,
                c, v, Minimum(p.names[c]), symbol, loose, x)
      && SlotFor(x, v, Minimum(p.names[c])) == Slot(x.escapes + under, count, x.total)
      && p.symbols[c].escapes == x.escapes && p.symbols[c].total == x.total
    ensures p.symbols.Length == POOL && |p.names| == old(p.nextSymbol) && AllTame(p.contexts)
    ensures Named(old(p.symbols[..]), old(p.nextSymbol), old(p.shape), p.names, p.contexts, loose)
  {
    hide RangeCoder.Valid, RangeCoder.Models, Pool, Named, AllTame, Tame, Room, Counted, Midway, Content, Minimum;
    CountReady(p, c, v, loose);
    ghost var s, n, g, x := p.symbols[..], p.nextSymbol, p.shape, Look(p.contexts, p.names[c]);
    var minimum := if c == 0 then 1 else 0;
    symbol, under, count := p.CountValue(c, v, Delta(minimum), minimum);
    t := p.symbols[..];
    CountedWithin(s, n, g, t, p.nextSymbol, p.shape, c, v, Delta(minimum), symbol);
    Link(p, loose, symbol);
    CountedMidway(s, n, g, t, p.symbols[..], p.nextSymbol, p.shape, c, v, minimum, symbol, loose, x);
  }

  lemma CountReady(p: RangeCoder, c: nat, v: u8, loose: nat)
    requires p.Models(loose) && c < p.nextSymbol
    ensures var x, minimum := Look(p.contexts, p.names[c]), Minimum(p.names[c]);
      && p.Valid() && Pool(p.symbols[..], p.nextSymbol, p.shape) && p.nextSymbol <= p.symbols.Length == POOL
      && Content(p.symbols[..], p.shape, c) == x && Tame(x, minimum) && x.counts == p.shape.counts[c]
      && Room(p.nextSymbol, p.shape, c, v, Delta(minimum)) && minimum == (if c == 0 then 1 else 0)
    ensures AllTame(p.contexts) && |p.names| == p.nextSymbol
    ensures Named(p.symbols[..], p.nextSymbol, p.shape, p.names, p.contexts, loose)
  {
    hide Node, Root, Laminar, Named, Pool, Room, Tame, AllTame, Content, Look, Shaped;
    NamedContent(p.symbols[..], p.nextSymbol, p.shape, p.names, p.contexts, loose, c);
    TameRoom(p.contexts, p.names[c], p.symbols[..], p.nextSymbol, p.shape, c, v);
  }

  lemma NamedContent(s: seq<Symbol>, n: nat, g: Shape, nm: seq<Name>, cs: Contexts, loose: nat, c: nat)
    requires Named(s, n, g, nm, cs, loose) && c < n
    ensures Shaped(n, g) && n <= |s| && |nm| == n && Content(s, g, c) == Look(cs, nm[c])
    ensures nm[c] == [] <==> c == 0
  {
    hide NamedAt, ParentAt, Shaped, Content, Look;
    assert nm[0] == [];
  }

  lemma TameRoom(cs: Contexts, name: Name, s: seq<Symbol>, n: nat, g: Shape, c: nat, v: u8)
    requires AllTame(cs) && Shaped(n, g) && c < n <= |s| && Content(s, g, c) == Look(cs, name)
    ensures Tame(Look(cs, name), Minimum(name)) && Look(cs, name).counts == g.counts[c]
    ensures Room(n, g, c, v, Delta(Minimum(name)))
  {
    hide Look;
    assert Tame(Look(cs, name), Minimum(name));
  }

  // The symbol before gets its parent.
  method Link(p: RangeCoder, loose: nat, symbol: nat)
    requires p.Valid() && loose < p.nextSymbol && symbol < POOL
    modifies p.symbols
    ensures p.Valid()
    ensures p.symbols[..] ==
      if loose == 0 then old(p.symbols[..]) else old(p.symbols[..])[loose := old(p.symbols[loose]).(parent := symbol)]
  {
    if loose != 0 {
      ghost var t := p.symbols[..];
      p.symbols[loose] := p.symbols[loose].(parent := symbol);
      SameTrees(t, p.nextSymbol, p.shape, p.symbols[..]);
    }
  }

  // The weights after a coded value: context c has learned it.
  method Settle(p: RangeCoder, c: nat, v: u8, count: nat, symbol: nat, ghost loose: nat,
                ghost s: seq<Symbol>, ghost n: nat, ghost g: Shape, ghost t: seq<Symbol>)
    requires c < n == |p.names| && |p.names[c]| <= ORDER && p.symbols.Length == POOL
    requires Named(s, n, g, p.names, p.contexts, loose) && AllTame(p.contexts)
    requires var x := Look(p.contexts, p.names[c]);
      && Midway(s, n, g, t, p.symbols[..], p.nextSymbol, p.shape, c, v, Minimum(p.names[c]), symbol, loose, x)
      && count == x.counts[v] + Minimum(p.names[c])
    requires loose != 0 ==> |p.names[loose]| > 0 && p.names[loose][1..] == p.names[c] + [v]
    modifies p.symbols, p`shape, p`names, p`contexts
    ensures Stepped(old(p.names), old(p.contexts), n, c, v, p.names, p.contexts, p.nextSymbol, symbol)
    ensures p.Models(if StopsAt(old(p.contexts), old(p.names[c]), v) then 0 else symbol)
  {
    hide RangeCoder.Valid, Pool, Named, AllTame, Tame, Midway, Content, Learned, LearnIn, OthersKept, Minimum, StopsAt;
    ghost var name, x := p.names[c], Look(p.contexts, p.names[c]);
    ghost var m, h, u := p.nextSymbol, p.shape, p.symbols[..];
    MidwayReady(s, n, g, p.names, p.contexts, loose, t, u, m, h, c, v, symbol, x);
    assert p.Valid() by { ValidPool(p); }
    var minimum := if c == 0 then 1 else 0;
    p.Reweigh(c, v, count, minimum, x);
    ValidPool(p);
    SettledNamed(s, n, g, p.names, p.contexts, t, u, m, h, p.symbols[..], p.shape, c, v, symbol, loose, x);
    p.names, p.contexts := NamesAfter(p.names, m, c, v), LearnIn(p.contexts, name, v);
    ValidPool(p);
  }

  lemma ValidPool(p: RangeCoder)
    ensures p.Valid() <==> p.symbols.Length == POOL && Pool(p.symbols[..], p.nextSymbol, p.shape)
  {
  }

  // A value is written if its context knows it, otherwise an escape from the context if it has one.
  method WriteIn(escapes: u16, total: u16, under: nat, count: nat, e: Coder, out: seq<u8>, limit: nat,
                 ghost cs: Contexts, ghost name: Name, ghost v: u8, ghost later: seq<Slot>, ghost goal: seq<u8>)
    returns (ok: bool, e': Coder, out': seq<u8>)
    requires Pending(e, Slots(cs, name, v) + later, out, goal) && |out| <= limit
    requires var x := Look(cs, name);
      && Tame(x, Minimum(name)) && escapes == x.escapes && total == x.total
      && SlotFor(x, v, Minimum(name)) == Slot(escapes + under, count, total)
    ensures !ok ==> |goal| > limit
    ensures count > 0 <==> StopsAt(cs, name, v)
    ensures ok ==>
      Pending(e', if count > 0 then later else Slots(cs, name[1..], v) + later, out', goal) && |out'| <= limit
  {
    hide Pending, Tame;
    ok, e', out' := true, e, out;
    if count > 0 {
      ok, e', out' := WriteSlot(e, Slot(escapes + under, count, total), out, limit, later, goal);
    } else {
      ghost var es := Slots(cs, name[1..], v) + later;
      if escapes > 0 {
        EscapeIsPart(Look(cs, name));
        assert Slots(cs, name, v) + later == [Slot(0, escapes, total)] + es;
      } else {
        assert Slots(cs, name, v) + later == es;
      }
      if escapes > 0 && escapes < total {
        ok, e', out' := WriteSlot(e, Slot(0, escapes, total), out, limit, es, goal);
      }
    }
  }

  // One turn of the encoder's loop over contexts, or its last step at the root.
  method EncodeIn(p: RangeCoder, c: nat, v: u8, loose: nat, e: Coder, out: seq<u8>, limit: nat, ghost later: seq<Slot>,
                  ghost goal: seq<u8>)
    returns (ok: bool, found: bool, symbol: nat, e': Coder, out': seq<u8>)
    requires p.Models(loose) && c < p.nextSymbol < POOL && loose < p.nextSymbol && |p.names[c]| <= ORDER
    requires loose != 0 ==> |p.names[loose]| > 0 && p.names[loose][1..] == p.names[c] + [v]
    requires Pending(e, Slots(p.contexts, p.names[c], v) + later, out, goal) && |out| <= limit
    modifies p, p.symbols
    ensures !ok ==> |goal| > limit
    ensures ok ==>
      var name, cs := old(p.names[c]), old(p.contexts);
      && p.Models(if found then 0 else symbol) && found == StopsAt(cs, name, v)
      && Stepped(old(p.names), cs, old(p.nextSymbol), c, v, p.names, p.contexts, p.nextSymbol, symbol)
      && Pending(e', if found then later else Slots(cs, name[1..], v) + later, out', goal) && |out'| <= limit
  {
    ghost var s, n, g, name, cs := p.symbols[..], p.nextSymbol, p.shape, p.names[c], p.contexts;
    ghost var x := Look(cs, name);
    assert Tame(x, Minimum(name)) && |p.names| == n;
    hide RangeCoder.Models, Pool, Named, AllTame, Tame, Learned, LearnIn, Slots, NamesAfter, Pending, Midway, Content,
      Stepped;
    var under, count;
    ghost var t;
    symbol, under, count, t := Count(p, c, v, loose);
    found := count > 0;
    ok, e', out' := WriteIn(p.symbols[c].escapes, p.symbols[c].total, under, count, e, out, limit, cs, name, v, later,
      goal);
    if !ok { return; }
    Settle(p, c, v, count, symbol, loose, s, n, g, t);
  }

  // What coding a byte leaves: the contexts have learned it, and its deepest symbol is predicted next.
  ghost predicate Coded(p: RangeCoder, v: u8, predicted: nat, from: Name, cs: Contexts, n: nat)
    reads p, p.symbols
  {
    && AllTame(cs) && p.Models(0) && predicted < p.nextSymbol && p.names[predicted] == from + [v]
    && p.contexts == Learn(cs, from, v) && p.nextSymbol == n + Grown(cs, from, v)
  }

  lemma RootName(p: RangeCoder, loose: nat)
    requires p.Models(loose)
    ensures 0 < p.nextSymbol == |p.names| && p.names[0] == [] && AllTame(p.contexts)
  {
  }

  method ParentOf(p: RangeCoder, c: nat, ghost loose: nat) returns (parent: nat)
    requires p.Models(loose) && 0 < c < p.nextSymbol == |p.names| && c != loose
    ensures parent < p.nextSymbol && p.names[c] != [] && p.names[parent] == p.names[c][1..]
  {
    ParentName(p.symbols[..], p.nextSymbol, p.shape, p.names, p.contexts, loose, c);
    parent := p.symbols[c].parent;
  }

  // One input byte: contexts are visited from the predicted one towards the root.
  method EncodeByte(p: RangeCoder, v: u8, predicted: nat, e: Coder, out: seq<u8>, limit: nat, ghost later: seq<Slot>,
                    ghost goal: seq<u8>)
    returns (ok: bool, predicted': nat, e': Coder, out': seq<u8>)
    requires p.Models(0) && predicted < p.nextSymbol < POOL - ORDER && |p.names[predicted]| <= ORDER
    requires Pending(e, Slots(p.contexts, p.names[predicted], v) + later, out, goal) && |out| <= limit
    modifies p, p.symbols
    ensures !ok ==> |goal| > limit
    ensures ok ==> Coded(p, v, predicted', old(p.names[predicted]), old(p.contexts), old(p.nextSymbol))
    ensures ok ==> Pending(e', later, out', goal) && |out'| <= limit
  {
    hide RangeCoder.Models, Tame, LearnIn, Learn, Grown, Slots, Stepped, Pending;
    RootName(p, 0);
    ghost var from, cs, n := p.names[predicted], p.contexts, p.nextSymbol;
    var subcontext: nat, loose: nat := predicted, 0;
    var found, symbol, parent;
    predicted', e', out' := predicted, e, out;
    while subcontext != 0
      invariant p.Models(loose)
      invariant Climbing(p.names, p.contexts, p.nextSymbol, subcontext, v, loose, predicted', from, cs, n)
      invariant Pending(e', Slots(p.contexts, p.names[subcontext], v) + later, out', goal) && |out'| <= limit
      decreases |p.names[subcontext]|
    {
      ghost var now, next, nm := p.contexts, p.nextSymbol, p.names;
      ok, found, symbol, e', out' := EncodeIn(p, subcontext, v, loose, e', out', limit, later, goal);
      if !ok { return; }
      if found {
        ClimbEnd(nm, now, next, subcontext, v, loose, predicted', from, cs, n, p.names, p.contexts, p.nextSymbol,
          symbol);
        if loose == 0 { predicted' := symbol; }
        return;
      }
      SteppedNames(nm, now, next, subcontext, v, p.names, p.contexts, p.nextSymbol, symbol);
      RootName(p, symbol);
      parent := ParentOf(p, subcontext, symbol);
      ClimbOn(nm, now, next, subcontext, v, loose, predicted', from, cs, n, p.names, p.contexts, p.nextSymbol, symbol,
        parent);
      if loose == 0 { predicted' := symbol; }
      loose, subcontext := symbol, parent;
    }
    RootName(p, loose);
    ghost var now, next, nm := p.contexts, p.nextSymbol, p.names;
    ok, found, symbol, e', out' := EncodeIn(p, 0, v, loose, e', out', limit, later, goal);
    if ok {
      ClimbEnd(nm, now, next, 0, v, loose, predicted', from, cs, n, p.names, p.contexts, p.nextSymbol, symbol);
      if loose == 0 { predicted' := symbol; }
    }
  }

  // The pool and the loop variables of both functions, as a model of the text so far.
  ghost predicate Tracks(p: RangeCoder, predicted: nat, order: nat, m: Model)
    reads p, p.symbols
  {
    && p.Models(0) && Sane(m) && predicted < p.nextSymbol
    && m == Model(p.contexts, p.names[predicted], p.nextSymbol) && order == |m.predicted|
  }

  // The end of a turn: the next predicted context, and ENET_RANGE_CODER_FREE_SYMBOLS.
  method Advance(p: RangeCoder, v: u8, predicted: nat, order: nat, ghost m: Model)
    returns (predicted': nat, order': nat)
    requires Sane(m) && order == |m.predicted| && Coded(p, v, predicted, m.predicted, m.contexts, m.next)
    modifies p, p.symbols
    ensures Tracks(p, predicted', order', After(m, v))
  {
    hide Pool, AllTame, Tame, Learn, Grown;
    predicted', order' := predicted, order;
    assert p.names[0] == [];
    if order >= ORDER {
      predicted' := ParentOf(p, predicted, 0);
    } else {
      order' := order + 1;
    }
    if p.nextSymbol >= POOL - ORDER {
      Clear(p);
      predicted', order' := 0, 0;
    }
  }

  // What is still to be written for `text`, after `out`, completes `goal`.
  ghost predicate Writing(e: Coder, m: Model, text: seq<u8>, out: seq<u8>, goal: seq<u8>)
    requires Sane(m)
  {
    Pending(e, AllSlots(m, text), out, goal)
  }

  method EncodeNext(p: RangeCoder, v: u8, predicted: nat, order: nat, e: Coder, out: seq<u8>, limit: nat,
                    ghost m: Model, ghost text: seq<u8>, ghost goal: seq<u8>)
    returns (ok: bool, predicted': nat, order': nat, e': Coder, out': seq<u8>)
    requires Tracks(p, predicted, order, m) && text != [] && v == text[0]
    requires Writing(e, m, text, out, goal) && |out| <= limit
    modifies p, p.symbols
    ensures !ok ==> |goal| > limit
    ensures ok ==> Tracks(p, predicted', order', After(m, v)) && |out'| <= limit
    ensures ok ==> Writing(e', After(m, v), text[1..], out', goal)
  {
    hide Pool, Tame, AllTame, Learn, Grown, Slots, After, Pending;
    order' := order;
    ok, predicted', e', out' := EncodeByte(p, v, predicted, e, out, limit, AllSlots(After(m, v), text[1..]), goal);
    if ok { predicted', order' := Advance(p, v, predicted', order, m); }
  }

  function Joined(buffers: seq<seq<u8>>): seq<u8> {
    if buffers == [] then [] else buffers[0] + Joined(buffers[1..])
  }

  lemma PendingStart(text: seq<u8>)
    ensures Sane(BLANK) && Writing(Start, BLANK, text, [], Compressed(text))
  {
    hide Encoded, AllSlots, AllTame, Fits;
    BlankSane();
    AllSlotsFit(BLANK, text);
  }

  method Begin(p: RangeCoder)
    requires p.symbols.Length == POOL
    modifies p, p.symbols
    ensures Sane(BLANK) && Tracks(p, 0, 0, BLANK)
  {
    BlankSane();
    hide Sane;
    Clear(p);
  }

  // enet_range_coder_compress: the bytes written, or none if they do not fit the output.
  // A buffer after the first must not be empty: the loop reads a byte from it unasked.
  method Compress(p: RangeCoder, inBuffers: seq<seq<u8>>, inLimit: nat, outLimit: nat) returns (out: seq<u8>)
    requires p.symbols.Length == POOL
    requires forall i :: 1 <= i < |inBuffers| ==> inBuffers[i] != []
    modifies p, p.symbols
    ensures out == if inBuffers == [] || inLimit == 0 || |Compressed(Joined(inBuffers))| > outLimit then []
                   else Compressed(Joined(inBuffers))
  {
    hide Tracks, Sane, Writing, Compressed, After;
    if |inBuffers| <= 0 || inLimit <= 0 { return []; }
    var e := Start;
    var predicted, order: nat := 0, 0;
    var inData, next, at := inBuffers[0], 1, 0;
    ghost var goal, m, left := Compressed(Joined(inBuffers)), BLANK, Joined(inBuffers);
    out := [];
    Begin(p);
    PendingStart(left);
    while true
      invariant Tracks(p, predicted, order, m) && Sane(m)
      invariant 0 <= at <= |inData| && 1 <= next <= |inBuffers| && left == inData[at..] + Joined(inBuffers[next..])
      invariant Writing(e, m, left, out, goal) && |out| <= outLimit
      decreases |left|
    {
      if at >= |inData| {
        if next >= |inBuffers| { break; }
        inData, next, at := inBuffers[next], next + 1, 0;
      }
      var value, ok := inData[at], true;
      at := at + 1;
      assert value == left[0] && left[1..] == inData[at..] + Joined(inBuffers[next..]);
      ok, predicted, order, e, out := EncodeNext(p, value, predicted, order, e, out, outLimit, m, left, goal);
      if !ok { return []; }
      m, left := After(m, value), left[1..];
    }
    assert left == [];
    FinishPending(m, e, out, goal);
    var ok;
    ok, out := Flush(e.low, out, outLimit);
    if !ok { out := []; }
  }

  lemma FinishPending(m: Model, e: Coder, out: seq<u8>, goal: seq<u8>)
    requires Sane(m) && Writing(e, m, [], out, goal)
    ensures out + Flushed(e.low) == goal
  {
  }

  // A context either knows the next byte, and nothing is read, or its escape is taken if it has one.
  method ReadPast(escapes: u16, total: u16, e: Coder, input: seq<u8>, code: u32, pos: nat,
                  ghost cs: Contexts, ghost name: Name, ghost ended: bool, ghost v: u8, ghost later: seq<Slot>,
                  ghost rest: seq<u8>)
    returns (known: bool, e': Coder, code': u32, pos': nat, ghost rest': seq<u8>)
    requires Expecting(e, SlotsLeft(cs, name, ended, v, later), input, pos, code, rest) && name != []
    requires var x := Look(cs, name); Tame(x, 0) && escapes == x.escapes && total == x.total
    ensures known ==> !ended && StopsAt(cs, name, v) && (e', code', pos', rest') == (e, code, pos, rest)
    ensures !known ==> ended || !StopsAt(cs, name, v)
    ensures !known ==> Expecting(e', SlotsLeft(cs, name[1..], ended, v, later), input, pos', code', rest')
  {
    hide Encoded, Reading, Slots;
    known, e', code', pos', rest' := false, e, code, pos, rest;
    if escapes > 0 { EscapeIsPart(Look(cs, name)); } else { EmptyContext(cs, name, ended, v, later); }
    if escapes > 0 && escapes < total {
      EscapeRead(cs, name, ended, v, later, e, input, pos, code, rest);
      if Read(e, code, total) >= escapes { known := true; return; }
      if !ended { SlotsEscape(cs, name, v, later); }
      e', code', pos', rest' := TakeSlot(e, Slot(0, escapes, total), input, code, pos,
        SlotsLeft(cs, name, ended, v, later), SlotsLeft(cs, name[1..], ended, v, later), rest);
    }
  }

  // The decoder's way up: taking escapes until a context knows the byte, or to the root.
  method Search(p: RangeCoder, predicted: nat, e: Coder, input: seq<u8>, code: u32, pos: nat,
                ghost ended: bool, ghost v: u8, ghost later: seq<Slot>, ghost rest: seq<u8>)
    returns (c: nat, e': Coder, code': u32, pos': nat, ghost rest': seq<u8>)
    requires p.Models(0) && predicted < p.nextSymbol
    requires Expecting(e, SlotsLeft(p.contexts, p.names[predicted], ended, v, later), input, pos, code, rest)
    ensures c < p.nextSymbol && |p.names[c]| <= |p.names[predicted]|
    ensures Expecting(e', SlotsLeft(p.contexts, p.names[c], ended, v, later), input, pos', code', rest')
    ensures !ended ==>
      && Unmet(p.contexts, p.names[predicted], |p.names[c]|, v)
      && p.names[c] == Shorten(p.names[predicted], |p.names[c]|) && StopsAt(p.contexts, p.names[c], v)
    ensures ended ==> c == 0
  {
    hide Pool, Slots, SlotsLeft, Unmet, Expecting, AllTame, Tame;
    ghost var cs, from := p.contexts, p.names[predicted];
    c, e', code', pos', rest' := predicted, e, code, pos, rest;
    assert p.names[0] == [];
    UnmetHere(cs, from, v);
    var known;
    while c != 0
      invariant c < p.nextSymbol && |p.names[c]| <= |from|
      invariant Expecting(e', SlotsLeft(cs, p.names[c], ended, v, later), input, pos', code', rest')
      invariant !ended ==> Unmet(cs, from, |p.names[c]|, v) && p.names[c] == Shorten(from, |p.names[c]|)
      decreases |p.names[c]|
    {
      assert Content(p.symbols[..], p.shape, c) == Look(cs, p.names[c]);
      ParentName(p.symbols[..], p.nextSymbol, p.shape, p.names, cs, 0, c);
      TameAt(cs, p.names[c]);
      known, e', code', pos', rest' := ReadPast(p.symbols[c].escapes, p.symbols[c].total, e', input, code', pos',
        cs, p.names[c], ended, v, later, rest');
      if known { return; }
      if !ended { UnmetOn(cs, from, |p.names[c]|, v); }
      c := p.symbols[c].parent;
    }
  }

  lemma TameAt(cs: Contexts, c: Name)
    requires AllTame(cs)
    ensures Tame(Look(cs, c), Minimum(c))
  {
  }

  // The last link of the chain of parents, to the symbol of the context that knew the byte.
  method Close(p: RangeCoder, loose: nat, bottom: nat, predicted: nat) returns (predicted': nat)
    requires p.Models(loose) && loose < p.nextSymbol && bottom < p.nextSymbol
    requires loose != 0 ==> p.names[loose] != [] && p.names[bottom] == p.names[loose][1..]
    modifies p.symbols
    ensures p.Models(0) && predicted' == if loose == 0 then bottom else predicted
  {
    hide AllTame;
    predicted' := predicted;
    if loose == 0 {
      predicted' := bottom;
    } else {
      ghost var s := p.symbols[..];
      p.symbols[loose] := p.symbols[loose].(parent := bottom);
      SameTrees(s, p.nextSymbol, p.shape, p.symbols[..]);
      LinkBottom(s, p.nextSymbol, p.shape, p.names, p.contexts, loose, bottom, p.symbols[..]);
    }
  }

  // One turn of it.
  method PatchIn(p: RangeCoder, c: nat, v: u8, loose: nat) returns (symbol: nat)
    requires p.Models(loose) && c < p.nextSymbol < POOL && loose < p.nextSymbol && |p.names[c]| <= ORDER
    requires loose != 0 ==> |p.names[loose]| > 0 && p.names[loose][1..] == p.names[c] + [v]
    modifies p, p.symbols
    ensures p.Models(if StopsAt(old(p.contexts), old(p.names[c]), v) then 0 else symbol)
    ensures Stepped(old(p.names), old(p.contexts), old(p.nextSymbol), c, v, p.names, p.contexts, p.nextSymbol, symbol)
  {
    ghost var s, n, g := p.symbols[..], p.nextSymbol, p.shape;
    assert |p.names| == n;
    hide Pool, RangeCoder.Models, Named, AllTame, Tame, LearnIn, StopsAt, Stepped, Midway;
    var under, count;
    ghost var t;
    symbol, under, count, t := Count(p, c, v, loose);
    Settle(p, c, v, count, symbol, loose, s, n, g, t);
  }

  // patchContexts: the longer contexts learn the byte that a shorter one decoded.
  method PatchContexts(p: RangeCoder, v: u8, predicted: nat, c: nat, bottom: nat, ghost goal: Contexts, ghost end: nat)
    returns (predicted': nat)
    requires p.Models(0) && predicted < |p.names|
    requires Patching(p.names, p.contexts, p.nextSymbol, predicted, v, 0, predicted, p.names[predicted], goal, end, c,
      bottom)
    modifies p, p.symbols
    ensures p.Models(0) && predicted' < p.nextSymbol == end && p.names[predicted'] == old(p.names[predicted]) + [v]
    ensures p.contexts == goal
  {
    hide Pool, AllTame, Tame, LearnIn, Unmet, StopsAt, Stepped, Midway;
    ghost var from := p.names[predicted];
    var patch: nat, loose: nat := predicted, 0;
    var symbol;
    predicted' := predicted;
    while patch != c
      invariant p.Models(loose)
      invariant Patching(p.names, p.contexts, p.nextSymbol, patch, v, loose, predicted', from, goal, end, c, bottom)
      decreases |p.names[patch]|
    {
      ghost var now, next, nm := p.contexts, p.nextSymbol, p.names;
      assert nm[patch] != nm[c] && |nm[patch]| > |nm[c]|;
      UnmetNow(now, nm[patch], |nm[c]|, v);
      symbol := PatchIn(p, patch, v, loose);
      SteppedNames(nm, now, next, patch, v, p.names, p.contexts, p.nextSymbol, symbol);
      assert symbol != 0;
      var parent := ParentOf(p, patch, symbol);
      PatchOn(nm, now, next, patch, v, loose, predicted', from, goal, end, c, bottom, p.names, p.contexts,
        p.nextSymbol, symbol, parent);
      if loose == 0 { predicted' := symbol; }
      loose, patch := symbol, parent;
    }
    predicted' := Close(p, loose, bottom, predicted');
  }

  // ENET_CONTEXT_TRY_DECODE and ENET_CONTEXT_ROOT_DECODE: Count for a value known only by its code.
  method Find(p: RangeCoder, c: nat, code: u16, ghost v: u8) returns (value: u8, symbol: nat, under: nat, count: nat)
    requires p.Models(0) && c < p.nextSymbol < POOL
    requires Codes(Look(p.contexts, p.names[c]).counts, Minimum(p.names[c]), v, code)
    modifies p.symbols, p`nextSymbol, p`shape
    ensures value == v
    ensures var x := Look(p.contexts, p.names[c]);
      && Midway(old(p.symbols[..]), old(p.nextSymbol), old(p.shape), p.symbols[..], p.symbols[..], p.nextSymbol,
        p.shape,
                c, v, Minimum(p.names[c]), symbol, 0, x)
      && SlotFor(x, v, Minimum(p.names[c])) == Slot(x.escapes + under, count, x.total)
      && p.symbols[c].escapes == x.escapes && p.symbols[c].total == x.total
    ensures p.symbols.Length == POOL && |p.names| == old(p.nextSymbol) && AllTame(p.contexts)
    ensures Named(old(p.symbols[..]), old(p.nextSymbol), old(p.shape), p.names, p.contexts, 0)
  {
    ghost var x := Look(p.contexts, p.names[c]);
    assert Content(p.symbols[..], p.shape, c) == x && Tame(x, Minimum(p.names[c]));
    assert p.names[c] == [] <==> c == 0 by { assert p.names[0] == []; }
    var minimum := if c == 0 then 1 else 0;
    value, symbol, under, count := p.FindValue(c, code, Delta(minimum), minimum, v);
  }

  method TakeValue(escapes: u16, total: u16, under: nat, count: nat, e: Coder, input: seq<u8>, code: u32, pos: nat,
                   ghost cs: Contexts, ghost name: Name, ghost v: u8, ghost later: seq<Slot>, ghost rest: seq<u8>)
    returns (e': Coder, code': u32, pos': nat, ghost rest': seq<u8>)
    requires Expecting(e, Slots(cs, name, v) + later, input, pos, code, rest) && StopsAt(cs, name, v)
    requires Tame(Look(cs, name), Minimum(name))
    requires SlotFor(Look(cs, name), v, Minimum(name)) == Slot(escapes + under, count, total)
    ensures Expecting(e', later, input, pos', code', rest')
    ensures count == Look(cs, name).counts[v] + Minimum(name)
  {
    hide Encoded, Reading;
    SlotForFits(Look(cs, name), v, Minimum(name));
    e', code', pos', rest' := TakeSlot(e, Slot(escapes + under, count, total), input, code, pos,
      Slots(cs, name, v) + later, later, rest);
  }

  lemma KnownHasEscape(cs: Contexts, c: Name, v: u8)
    requires Tame(Look(cs, c), Minimum(c)) && (c == [] || StopsAt(cs, c, v))
    ensures Look(cs, c).escapes > 0
  {
  }

  // Decoding in the context where Search stopped. Only at the root can the escape come next: it is the end.
  method DecodeIn(p: RangeCoder, c: nat, e: Coder, input: seq<u8>, code: u32, pos: nat,
                  ghost ended: bool, ghost v: u8, ghost later: seq<Slot>, ghost rest: seq<u8>)
    returns (end: bool, value: u8, symbol: nat, e': Coder, code': u32, pos': nat, ghost rest': seq<u8>)
    requires p.Models(0) && c < p.nextSymbol < POOL && |p.names[c]| <= ORDER
    requires Expecting(e, SlotsLeft(p.contexts, p.names[c], ended, v, later), input, pos, code, rest)
    requires if ended then c == 0 else StopsAt(p.contexts, p.names[c], v)
    modifies p, p.symbols
    ensures end == ended
    ensures !ended ==>
      && value == v && p.Models(0)
      && Stepped(old(p.names), old(p.contexts), old(p.nextSymbol), c, v, p.names, p.contexts, p.nextSymbol, symbol)
      && Expecting(e', later, input, pos', code', rest')
  {
    ghost var s, n, g, name, cs := p.symbols[..], p.nextSymbol, p.shape, p.names[c], p.contexts;
    ghost var x := Look(cs, name);
    ghost var es := SlotsLeft(cs, name, ended, v, later);
    assert Content(s, g, c) == x && Tame(x, Minimum(name)) && |p.names| == n;
    assert p.names[0] == [];
    KnownHasEscape(cs, name, v);
    hide Pool, RangeCoder.Models, Named, Content, StopsAt, SlotFor, AllTame, Tame, LearnIn, Stepped, Midway, Encoded,
      Reading, Read;
    var escapes, total := p.symbols[c].escapes, p.symbols[c].total;
    EscapeRead(cs, name, ended, v, later, e, input, pos, code, rest);
    var read := Read(e, code, total);
    end, value, symbol, e', code', pos', rest' := true, 0, 0, e, code, pos, rest;
    if read < escapes {
      assert ended;
      e', code', pos', rest' := TakeSlot(e, Slot(0, escapes, total), input, code, pos, es, [], rest);
      return;
    }
    var under, count;
    value, symbol, under, count := Find(p, c, read - escapes, v);
    end := false;
    e', code', pos', rest' := TakeValue(escapes, total, under, count, e, input, code, pos, cs, name, v, later, rest);
    Settle(p, c, value, count, symbol, 0, s, n, g, p.symbols[..]);
  }

  // One output byte, or the end of the text.
  method DecodeByte(p: RangeCoder, predicted: nat, e: Coder, input: seq<u8>, code: u32, pos: nat,
                    ghost ended: bool, ghost v: u8, ghost later: seq<Slot>, ghost rest: seq<u8>)
    returns (end: bool, value: u8, predicted': nat, e': Coder, code': u32, pos': nat, ghost rest': seq<u8>)
    requires p.Models(0) && predicted < p.nextSymbol < POOL - ORDER && |p.names[predicted]| <= ORDER
    requires Expecting(e, SlotsLeft(p.contexts, p.names[predicted], ended, v, later), input, pos, code, rest)
    modifies p, p.symbols
    ensures end == ended
    ensures !ended ==>
      value == v && Coded(p, v, predicted', old(p.names[predicted]), old(p.contexts), old(p.nextSymbol))
    ensures !ended ==> Expecting(e', later, input, pos', code', rest')
  {
    hide Pool, AllTame, Tame, LearnIn, Learn, Grown, Unmet, Slots, SlotsLeft, Stepped, Expecting;
    ghost var nm, now, next := p.names, p.contexts, p.nextSymbol;
    var c, bottom;
    predicted' := predicted;
    c, e', code', pos', rest' := Search(p, predicted, e, input, code, pos, ended, v, later, rest);
    end, value, bottom, e', code', pos', rest' := DecodeIn(p, c, e', input, code', pos', ended, v, later, rest');
    if end { return; }
    SteppedNames(nm, now, next, c, v, p.names, p.contexts, p.nextSymbol, bottom);
    PatchStart(nm, now, next, predicted, c, v, p.names, p.contexts, p.nextSymbol, bottom);
    predicted' := PatchContexts(p, value, predicted, c, bottom, Learn(now, nm[predicted], v),
      next + Grown(now, nm[predicted], v));
  }

  lemma AllSlotsLeft(m: Model, text: seq<u8>)
    requires Sane(m)
    ensures text == [] ==> forall v, later :: AllSlots(m, text) == SlotsLeft(m.contexts, m.predicted, true, v, later)
    ensures text != [] ==>
      var later := AllSlots(After(m, text[0]), text[1..]);
      AllSlots(m, text) == SlotsLeft(m.contexts, m.predicted, false, text[0], later)
  {
  }

  lemma ExpectingStart(text: seq<u8>, pos: nat, code: u32)
    requires Reading(Compressed(text), pos, code, Compressed(text))
    ensures Sane(BLANK) && Expecting(Start, AllSlots(BLANK, text), Compressed(text), pos, code, Compressed(text))
  {
    BlankSane();
    AllSlotsFit(BLANK, text);
  }

  method DecodeNext(p: RangeCoder, predicted: nat, order: nat, e: Coder, input: seq<u8>, code: u32, pos: nat,
                    ghost m: Model, ghost text: seq<u8>, ghost rest: seq<u8>)
    returns (end: bool, value: u8, predicted': nat, order': nat, e': Coder, code': u32, pos': nat, ghost rest': seq<u8>)
    requires Tracks(p, predicted, order, m) && Expecting(e, AllSlots(m, text), input, pos, code, rest)
    modifies p, p.symbols
    ensures end <==> text == []
    ensures !end ==> value == text[0] && Tracks(p, predicted', order', After(m, value))
    ensures !end ==> Expecting(e', AllSlots(After(m, value), text[1..]), input, pos', code', rest')
  {
    hide Pool, Tame, AllTame, Learn, Grown, Slots, SlotsLeft, After, Expecting, AllSlots, Coded, RangeCoder.Models;
    AllSlotsLeft(m, text);
    ghost var v := if text == [] then 0 else text[0];
    ghost var later := if text == [] then [] else AllSlots(After(m, text[0]), text[1..]);
    order' := order;
    end, value, predicted', e', code', pos', rest' :=
      DecodeByte(p, predicted, e, input, code, pos, text == [], v, later, rest);
    if !end { predicted', order' := Advance(p, value, predicted', order, m); }
  }

  // Only the empty text compresses to nothing, so a length of 0 always means failure.
  lemma CompressedEmpty(text: seq<u8>)
    ensures Compressed(text) == [] <==> text == []
  {
    BlankSane();
    AllSlotsFit(BLANK, text);
    if text != [] {
      assert Look(BLANK.contexts, []) == FRESH_ROOT;
      EncodedLength(Start, AllSlots(BLANK, text));
    }
  }

  // enet_range_coder_decompress on what the compressor wrote: the text itself, or nothing if the
  // output has no room for it. The end is recognised from the zeros past the end of the input.
  method Decompress(p: RangeCoder, inData: seq<u8>, outLimit: nat, ghost text: seq<u8>) returns (out: seq<u8>)
    requires p.symbols.Length == POOL && inData == Compressed(text)
    modifies p, p.symbols
    ensures out == if |text| > outLimit then [] else text
  {
    CompressedEmpty(text);
    hide Tracks, Sane, Compressed, After, AllSlots, Encoded, Reading, Expecting;
    if |inData| <= 0 { return []; }
    var e := Start;
    var predicted, order: nat := 0, 0;
    ghost var m, left, rest := BLANK, text, inData;
    out := [];
    Begin(p);
    var code, at := Seed(inData);
    ExpectingStart(text, at, code);
    while true
      invariant Sane(m) && Tracks(p, predicted, order, m) && |out| <= outLimit
      invariant Expecting(e, AllSlots(m, left), inData, at, code, rest)
      invariant text == out + left
      decreases |left|
    {
      var end, value;
      end, value, predicted, order, e, code, at, rest :=
        DecodeNext(p, predicted, order, e, inData, code, at, m, left, rest);
      if end { break; }
      if |out| >= outLimit { return []; }
      out := out + [value];
      m, left := After(m, value), left[1..];
    }
  }

  // Both ends together: whatever the split into buffers, what was written decompresses to what was read.
  method RoundTrip(sender: RangeCoder, receiver: RangeCoder, inBuffers: seq<seq<u8>>, inLimit: nat, outLimit: nat,
                   room: nat)
    returns (packed: seq<u8>, unpacked: seq<u8>)
    requires sender.symbols.Length == POOL && receiver.symbols.Length == POOL
    requires forall i :: 1 <= i < |inBuffers| ==> inBuffers[i] != []
    modifies sender, sender.symbols, receiver, receiver.symbols
    ensures |packed| <= outLimit
    ensures packed != [] && |Joined(inBuffers)| <= room ==> unpacked == Joined(inBuffers)
  {
    packed := Compress(sender, inBuffers, inLimit, outLimit);
    unpacked := [];
    if packed != [] { unpacked := Decompress(receiver, packed, room, Joined(inBuffers)); }
  }
}
