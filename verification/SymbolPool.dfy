/** The symbol array of ENetRangeCoder and the macros that walk it. */
module SymbolPool {
  import opened Words
  import opened ContextCounts
  import opened SymbolTree
  import opened ContextModel
  import opened NamedPool

  class RangeCoder {
    const symbols: array<Symbol>
    var nextSymbol: nat
    ghost var shape: Shape
    ghost var names: seq<Name>
    ghost var contexts: Contexts

    ghost predicate Valid()
      reads this, symbols
    {
      symbols.Length == POOL && Pool(symbols[..], nextSymbol, shape)
    }

    // The pool is a picture of `contexts`; a loose symbol is one whose parent is still to be set.
    ghost predicate Models(loose: nat)
      reads this, symbols
    {
      Valid() && Named(symbols[..], nextSymbol, shape, names, contexts, loose) && AllTame(contexts)
    }

    constructor ()
      ensures fresh(symbols) && symbols.Length == POOL
    {
      symbols := new Symbol[POOL](_ => Created(0, 0));
      nextSymbol, shape := 0, Shape([], [], [], []);
      names, contexts := [], map[];
    }

    // ENET_SYMBOL_CREATE
    method CreateSymbol(value: u8, count: u8) returns (symbol: nat)
      requires symbols.Length == POOL && nextSymbol < POOL
      modifies symbols, this`nextSymbol
      ensures symbol == old(nextSymbol) && nextSymbol == symbol + 1
      ensures symbols[..] == old(symbols[..])[symbol := Created(value, count)]
    {
      symbol := nextSymbol;
      symbols[symbol] := Created(value, count);
      nextSymbol := nextSymbol + 1;
    }

    // The end of a descent: hang a new symbol beside `node`.
    method Hang(c: nat, v: u8, d: u8, node: nat, ghost s: seq<Symbol>, ghost s0: seq<Symbol>, ghost n: nat,
                ghost g: Shape)
      returns (symbol: nat)
      requires symbols.Length == POOL && nextSymbol == n < POOL && node < n <= |s| && n < |s0|
      requires Descending(s, s0, n, g, c, v, d, node) && s[node].value != v
      requires if v < s[node].value then s[node].left == 0 else s[node].right == 0
      requires symbols[..] == if v < s[node].value then s[node := s[node].(under := symbols[node].under)] else s
      requires v < s[node].value ==> symbols[node].under == s[node].under + d
      modifies symbols, this`nextSymbol, this`shape
      ensures nextSymbol == n + 1 && symbol == n
      ensures Counted(s0, n, g, symbols[..], nextSymbol, shape, c, v, d, symbol)
      ensures g.counts[c][v] == 0
      ensures Below(g.counts[c], v) == Below(g.counts[c], if v < s[node].value then g.lo[node] else s[node].value + 1)
    {
      hide UnderWhile, Node, Root, Laminar, Counted, Bump;
      ghost var a, b := g.lo[node], s0[node].value;
      RoomBelow(s, s0, n, g, c, v, d, node);
      symbol := CreateSymbol(v, d);
      if v < symbols[node].value {
        symbols[node] := symbols[node].(left := symbol - node);
      } else {
        symbols[node] := symbols[node].(right := symbol - node);
        a, b := s0[node].value + 1, g.hi[node];
      }
      AttachedCounted(s, s0, n, g, c, v, d, node, a, b, symbols[..]);
      shape := Growing(g, c, v, d, a, b);
    }

    // The first symbol of a context.
    method Plant(c: nat, v: u8, d: u8) returns (symbol: nat)
      requires Valid() && Room(nextSymbol, shape, c, v, d) && nextSymbol < POOL && symbols[c].symbols == 0
      modifies symbols, this`nextSymbol, this`shape
      ensures Counted(old(symbols[..]), old(nextSymbol), old(shape), symbols[..], nextSymbol, shape, c, v, d, symbol)
      ensures old(shape.counts[c][v]) == 0 && Below(old(shape.counts[c]), v) == 0
    {
      ghost var s, n, g := symbols[..], nextSymbol, shape;
      symbol := CreateSymbol(v, d);
      symbols[c] := symbols[c].(symbols := symbol - c);
      RootCounted(s, n, g, c, v, d, symbols[..]);
      shape := Growing(g, c, v, d, 0, 256);
    }

    // The other end of a descent: the value is there already.
    method Raise(ghost c: nat, ghost v: u8, d: u8, node: nat, ghost s0: seq<Symbol>, ghost n: nat, ghost g: Shape)
      requires symbols.Length == POOL && nextSymbol == n && node < n <= POOL
      requires Descending(symbols[..], s0, n, g, c, v, d, node) && symbols[node].value == v
      modifies symbols, this`shape
      ensures Counted(s0, n, g, symbols[..], nextSymbol, shape, c, v, d, node)
    {
      FoundCounted(symbols[..], s0, n, g, c, v, d, node);
      symbols[node] := symbols[node].(under := symbols[node].under + d, count := symbols[node].count + d);
      shape := Counting(g, c, v, d);
    }

    // Going left counts the value under the node passed.
    method PassLeft(ghost c: nat, ghost v: u8, d: u8, node: nat, ghost s0: seq<Symbol>, ghost n: nat, ghost g: Shape)
      requires symbols.Length == POOL && node < n <= POOL
      requires Descending(symbols[..], s0, n, g, c, v, d, node) && v < symbols[node].value
      modifies symbols
      ensures symbols[..] == old(symbols[..])[node := old(symbols[node]).(under := symbols[node].under)]
      ensures symbols[node].under == old(symbols[node].under) + d
      ensures symbols[node].left != 0 ==> Descending(symbols[..], s0, n, g, c, v, d, node + symbols[node].left)
      ensures symbols[node].left != 0 ==>
        var next := node + symbols[node].left; g.lo[next] == g.lo[node] && g.hi[next] < g.hi[node]
    {
      if symbols[node].left != 0 { DescendLeft(symbols[..], s0, n, g, c, v, d, node); }
      RoomBelow(symbols[..], s0, n, g, c, v, d, node);
      symbols[node] := symbols[node].(under := symbols[node].under + d);
    }

    // ENET_CONTEXT_ENCODE
    method CountValue(c: nat, v: u8, d: u8, minimum: nat) returns (symbol: nat, under: nat, count: nat)
      requires Valid() && Room(nextSymbol, shape, c, v, d) && nextSymbol < POOL
      modifies symbols, this`nextSymbol, this`shape
      ensures Counted(old(symbols[..]), old(nextSymbol), old(shape), symbols[..], nextSymbol, shape, c, v, d, symbol)
      ensures count == old(shape.counts[c][v]) + minimum
      ensures under == Below(old(shape.counts[c]), v) + v * minimum
    {
      hide UnderWhile, Node, Laminar, Counted, Bump;
      ghost var s0, n, g := symbols[..], nextSymbol, shape;
      under, count := v * minimum, minimum;
      if symbols[c].symbols == 0 {
        symbol := Plant(c, v, d);
        return;
      }
      Descend(s0, n, g, c, v, d);
      var node: nat := c + symbols[c].symbols;
      while true
        invariant symbols.Length == POOL && nextSymbol == n && shape == g
        invariant Descending(symbols[..], s0, n, g, c, v, d, node)
        invariant under == Below(g.counts[c], g.lo[node]) + v * minimum && count == minimum
        decreases g.hi[node] - g.lo[node]
      {
        ghost var s := symbols[..];
        RoomBelow(s, s0, n, g, c, v, d, node);
        if v < symbols[node].value {
          PassLeft(c, v, d, node, s0, n, g);
          if symbols[node].left != 0 {
            node := node + symbols[node].left;
            continue;
          }
          symbol := Hang(c, v, d, node, s, s0, n, g);
        } else if v > symbols[node].value {
          under := under + symbols[node].under;
          if symbols[node].right != 0 {
            DescendRight(s, s0, n, g, c, v, d, node);
            node := node + symbols[node].right;
            continue;
          }
          symbol := Hang(c, v, d, node, s, s0, n, g);
        } else {
          count := count + symbols[node].count;
          under := under + symbols[node].under - symbols[node].count;
          Raise(c, v, d, node, s0, n, g);
          symbol := node;
        }
        break;
      }
    }
  
    // createRight of ROOT_DECODE: the code counts up from the slice of the node's value.
    method CreateRight(c: nat, code: u16, d: u8, minimum: nat, node: nat, after: nat,
                       ghost v: u8, ghost s0: seq<Symbol>, ghost n: nat, ghost g: Shape)
      returns (value: u8, under: nat, symbol: nat)
      requires symbols.Length == POOL && nextSymbol == n < POOL && node < n && minimum <= 1
      requires Descending(symbols[..], s0, n, g, c, v, d, node) && v > symbols[node].value && symbols[node].right == 0
      requires Codes(g.counts[c], minimum, v, code)
      requires after == Below(g.counts[c], symbols[node].value + 1) + (symbols[node].value + 1) * minimum
      modifies symbols, this`nextSymbol, this`shape
      ensures value == v && under == Below(g.counts[c], v) + v * minimum
      ensures Counted(s0, n, g, symbols[..], nextSymbol, shape, c, v, d, symbol) && g.counts[c][v] == 0
    {
      SlotValue(symbols[..], s0, n, g, c, v, d, node, minimum, code);
      value := symbols[node].value + 1 + (code - after) / minimum;
      under := code - (code - after) % minimum;
      symbol := Hang(c, value, d, node, symbols[..], s0, n, g);
    }

    // createLeft of ROOT_DECODE: the code counts down from it. The node has already counted the value.
    method CreateLeft(c: nat, code: u16, d: u8, minimum: nat, node: nat, start: nat,
                      ghost v: u8, ghost s: seq<Symbol>, ghost s0: seq<Symbol>, ghost n: nat, ghost g: Shape)
      returns (value: u8, under: nat, symbol: nat)
      requires symbols.Length == POOL && nextSymbol == n < POOL && node < n && minimum <= 1
      requires Descending(s, s0, n, g, c, v, d, node) && v < s[node].value && s[node].left == 0
      requires symbols[..] == s[node := s[node].(under := symbols[node].under)]
      requires symbols[node].under == s[node].under + d
      requires Codes(g.counts[c], minimum, v, code)
      requires start == Below(g.counts[c], s[node].value) + s[node].value * minimum
      modifies symbols, this`nextSymbol, this`shape
      ensures value == v && under == Below(g.counts[c], v) + v * minimum
      ensures Counted(s0, n, g, symbols[..], nextSymbol, shape, c, v, d, symbol) && g.counts[c][v] == 0
    {
      SlotValue(s, s0, n, g, c, v, d, node, minimum, code);
      value := symbols[node].value - 1 - (start - code - 1) / minimum;
      under := code - (start - code - 1) % minimum;
      symbol := Hang(c, value, d, node, s, s0, n, g);
    }

    // Where a node's slice of the codes ends, and how wide it is.
    method SliceOf(ghost c: nat, ghost code: u16, minimum: nat, node: nat, under: nat,
                   ghost v: u8, ghost d: u8, ghost s0: seq<Symbol>, ghost n: nat, ghost g: Shape)
      returns (after: u16, before: nat)
      requires symbols.Length == POOL && node < n <= POOL && minimum <= 1
      requires Descending(symbols[..], s0, n, g, c, v, d, node) && under == Below(g.counts[c], g.lo[node])
      requires Codes(g.counts[c], minimum, v, code) && Sum(g.counts[c]) + 256 * minimum < HALF
      ensures var value := symbols[node].value;
        && (code >= after <==> v > value) && (code < after - before <==> v < value)
        && after == Below(g.counts[c], value + 1) + (value + 1) * minimum
        && after - before == Below(g.counts[c], value) + value * minimum
        && symbols[node].count == g.counts[c][value]
    {
      RoomBelow(symbols[..], s0, n, g, c, v, d, node);
      BelowMonotone(g.counts[c], symbols[node].value + 1, 256);
      CodesOrder(g.counts[c], minimum, v, code, symbols[node].value);
      after := under + symbols[node].under + (symbols[node].value + 1) * minimum;
      before := symbols[node].count + minimum;
    }

    // ENET_CONTEXT_DECODE: find the value v that `code` stands for, and count it on the way.
    // TRY_DECODE (minimum 0) has no code for a value it has never met; ROOT_DECODE creates one.
    method FindValue(c: nat, code: u16, d: u8, minimum: nat, ghost v: u8)
      returns (value: u8, symbol: nat, under: nat, count: nat)
      requires Valid() && Room(nextSymbol, shape, c, v, d) && nextSymbol < POOL && minimum <= 1
      requires Codes(shape.counts[c], minimum, v, code) && Sum(shape.counts[c]) + 256 * minimum < HALF
      modifies symbols, this`nextSymbol, this`shape
      ensures value == v
      ensures Counted(old(symbols[..]), old(nextSymbol), old(shape), symbols[..], nextSymbol, shape, c, v, d, symbol)
      ensures count == old(shape.counts[c][v]) + minimum
      ensures under == Below(old(shape.counts[c]), v) + v * minimum
    {
      hide UnderWhile, Node, Laminar, Counted, Bump;
      ghost var s0, n, g := symbols[..], nextSymbol, shape;
      ghost var k := g.counts[c];
      under, count := 0, minimum;
      if symbols[c].symbols == 0 {
        assert Root(s0, n, g, c);
        SlotUnder(k, 0, v, 256);
        value, under := code / minimum, code - code % minimum;
        symbol := Plant(c, value, d);
        return;
      }
      Descend(s0, n, g, c, v, d);
      var node: nat := c + symbols[c].symbols;
      while true
        invariant symbols.Length == POOL && nextSymbol == n && shape == g
        invariant Descending(symbols[..], s0, n, g, c, v, d, node)
        invariant under == Below(k, g.lo[node]) && count == minimum
        decreases g.hi[node] - g.lo[node]
      {
        ghost var s := symbols[..];
        var after, before := SliceOf(c, code, minimum, node, under, v, d, s0, n, g);
        if code >= after {
          RoomBelow(s, s0, n, g, c, v, d, node);
          under := under + symbols[node].under;
          if symbols[node].right != 0 {
            DescendRight(symbols[..], s0, n, g, c, v, d, node);
            node := node + symbols[node].right;
            continue;
          }
          value, under, symbol := CreateRight(c, code, d, minimum, node, after, v, s0, n, g);
        } else if code < after - before {
          PassLeft(c, v, d, node, s0, n, g);
          if symbols[node].left != 0 {
            node := node + symbols[node].left;
            continue;
          }
          value, under, symbol := CreateLeft(c, code, d, minimum, node, after - before, v, s, s0, n, g);
        } else {
          value := symbols[node].value;
          count := count + symbols[node].count;
          under := after - before;
          Raise(c, v, d, node, s0, n, g);
          symbol := node;
        }
        break;
      }
    }

    // enet_symbol_rescale: halve the counts of a whole subtree and add up what is left.
    method Rescale(start: nat, c: nat, ghost s0: seq<Symbol>, ghost n: nat, ghost g: Shape) returns (total: u16)
      requires symbols.Length == POOL && Halving(symbols[..], symbols[..], s0, n, g, c, start, start)
      modifies symbols
      ensures AllHalved(symbols[..], old(symbols[..]), s0, n, g, c, start)
      ensures total == Between(Halve(g.counts[c]), g.lo[start], g.hi[start])
      decreases g.hi[start] - g.lo[start], 1
    {
      ghost var s, k := symbols[..], Halve(g.counts[c]);
      var node: nat := start;
      total := 0;
      HalvedSmall(g.counts[c], 256);
      while true
        invariant Halving(symbols[..], s, s0, n, g, c, start, node)
        invariant total == Between(k, g.lo[start], g.lo[node])
        decreases g.hi[node] - g.lo[node]
      {
        assert Node(s0, n, g, node);
        HalvedRoom(s0, n, g, c, node);
        HalvedEmpty(g.counts[c], s0[node].value + 1, g.hi[node]);
        SplitBetween(k, g.lo[start], g.lo[node], s0[node].value, g.hi[node]);
        RescaleNode(node, c, start, s, s0, n, g);
        total := total + symbols[node].under;
        if symbols[node].right == 0 { break; }
        node := node + symbols[node].right;
      }
    }

    // One turn of its loop.
    method RescaleNode(node: nat, c: nat, ghost start: nat, ghost s: seq<Symbol>, ghost s0: seq<Symbol>, ghost n: nat,
                       ghost g: Shape)
      requires symbols.Length == POOL && Halving(symbols[..], s, s0, n, g, c, start, node)
      modifies symbols
      ensures symbols[node] == Halved(s0, n, g, c, node)
      ensures s0[node].right != 0 ==> Halving(symbols[..], s, s0, n, g, c, start, node + s0[node].right)
      ensures s0[node].right == 0 ==> AllHalved(symbols[..], s, s0, n, g, c, start)
      decreases g.hi[node] - g.lo[node], 0
    {
      ghost var t := symbols[..];
      assert Node(s0, n, g, node);
      assert t[node] == s0[node] by { assert s[node] == s0[node]; }
      HalvedRoom(s0, n, g, c, node);
      var halved := symbols[node].count - symbols[node].count / 2;
      symbols[node] := symbols[node].(count := halved, under := halved);
      ghost var u := symbols[..];
      if symbols[node].left != 0 {
        RescaleLeft(node, c, start, t, s, s0, n, g);
      } else {
        HalvedEmpty(g.counts[c], g.lo[node], s0[node].value);
        assert u[node := Halved(s0, n, g, c, node)] == u;
        HalvedTurn(t, s, s0, n, g, c, start, node, u, u);
      }
    }

    method RescaleLeft(node: nat, c: nat, ghost start: nat, ghost t: seq<Symbol>, ghost s: seq<Symbol>,
                       ghost s0: seq<Symbol>, ghost n: nat, ghost g: Shape)
      requires symbols.Length == POOL && Halving(t, s, s0, n, g, c, start, node) && s0[node].left != 0
      requires var half := s0[node].count - s0[node].count / 2;
        symbols[..] == t[node := s0[node].(count := half, under := half)]
      modifies symbols
      ensures symbols[..][node := Halved(s0, n, g, c, node)] == symbols[..]
      ensures s0[node].right != 0 ==> Halving(symbols[..], s, s0, n, g, c, start, node + s0[node].right)
      ensures s0[node].right == 0 ==> AllHalved(symbols[..], s, s0, n, g, c, start)
      decreases g.hi[node] - g.lo[node], 0, 0
    {
      ghost var u := symbols[..];
      LeftUntouched(t, s, s0, n, g, c, start, node, u);
      assert Node(s0, n, g, node);
      HalvedRoom(s0, n, g, c, node);
      var left := Rescale(node + symbols[node].left, c, s0, n, g);
      ghost var w := symbols[..];
      assert w[node] == u[node];
      HalvedTurn(t, s, s0, n, g, c, start, node, u, w);
      symbols[node] := symbols[node].(under := symbols[node].under + left);
    }
  
    method RescaleTree(c: nat) returns (total: u16)
      requires Valid() && c < nextSymbol
      modifies symbols, this`shape
      ensures Valid() && shape == HalvingShape(old(shape), c)
      ensures total == Sum(shape.counts[c])
      ensures forall i :: 0 <= i < nextSymbol ==> SameContext(old(symbols[..])[i], symbols[i])
    {
      ghost var s, n, g := symbols[..], nextSymbol, shape;
      assert Root(s, n, g, c);
      HalvedEmpty(g.counts[c], 0, 256);
      total := 0;
      if symbols[c].symbols != 0 {
        total := Rescale(c + symbols[c].symbols, c, s, n, g);
      } else {
        forall i | 0 < i < n && g.own[i] == c ensures false {
          EmptySlot(s, n, g, c, 0, 256, i);
        }
      }
      HalvedPool(s, n, g, c, symbols[..]);
      shape := HalvingShape(g, c);
    }

    // ENET_CONTEXT_RESCALE
    method RescaleContext(c: nat, minimum: nat)
      requires Valid() && c < nextSymbol && minimum <= 1
      requires symbols[c].escapes + Sum(shape.counts[c]) + 256 * minimum < HALF
      modifies symbols, this`shape
      ensures Valid()
      ensures Content(symbols[..], shape, c) == Rescaled(old(shape.counts[c]), old(symbols[c].escapes), minimum)
      ensures OthersKept(old(symbols[..]), old(nextSymbol), old(shape), symbols[..], shape, c)
    {
      BelowHalved(shape.counts[c], 256);
      var total := RescaleTree(c);
      ghost var t := symbols[..];
      var escapes := symbols[c].escapes - symbols[c].escapes / 2;
      symbols[c] := symbols[c].(escapes := escapes, total := total + escapes + 256 * minimum);
      SameTrees(t, nextSymbol, shape, symbols[..]);
    }

    // A context's weights grow with a counted value.
    method AddWeight(c: nat, v: u8, count: nat, minimum: nat, ghost x: Context)
      requires Valid() && c < nextSymbol && Tame(x, minimum) && count == x.counts[v] + minimum
      requires Content(symbols[..], shape, c) == Context(Bump(x.counts, v, Delta(minimum)), x.escapes, x.total)
      modifies symbols
      ensures Valid()
      ensures Content(symbols[..], shape, c)
        == Context(Bump(x.counts, v, Delta(minimum)), EscapesAfter(x, v, minimum), TotalAfter(x, v, minimum))
      ensures OthersKept(old(symbols[..]), nextSymbol, shape, symbols[..], shape, c)
    {
      hide Node, Root, Laminar;
      ghost var s := symbols[..];
      if count == 0 {
        symbols[c] := symbols[c].(escapes := symbols[c].escapes + ESCAPE_DELTA,
          total := symbols[c].total + ESCAPE_DELTA);
      }
      symbols[c] := symbols[c].(total := symbols[c].total + Delta(minimum));
      SameTrees(s, nextSymbol, shape, symbols[..]);
    }

    // What follows every coded value: the context's weights grow, and are halved when due.
    method Reweigh(c: nat, v: u8, count: nat, minimum: nat, ghost x: Context)
      requires Valid() && c < nextSymbol && Tame(x, minimum) && count == x.counts[v] + minimum
      requires Content(symbols[..], shape, c) == Context(Bump(x.counts, v, Delta(minimum)), x.escapes, x.total)
      modifies symbols, this`shape
      ensures Valid()
      ensures Content(symbols[..], shape, c) == Learned(x, v, minimum)
      ensures OthersKept(old(symbols[..]), old(nextSymbol), old(shape), symbols[..], shape, c)
    {
      hide Pool;
      BumpBetween(x.counts, v, Delta(minimum));
      AddWeight(c, v, count, minimum, x);
      if count > CountLimit(minimum) || symbols[c].total > TOTAL_LIMIT {
        RescaleContext(c, minimum);
      }
    }
  }

  // A descent can only end beside a node if the context's minimum gives unseen values a code,
  // and then the code's distance from the node's is the value's.
  lemma SlotValue(s: seq<Symbol>, s0: seq<Symbol>, n: nat, g: Shape, c: nat, v: u8, d: nat, node: nat, minimum: nat,
                  code: nat)
    requires Descending(s, s0, n, g, c, v, d, node) && v != s[node].value && minimum <= 1
    requires Codes(g.counts[c], minimum, v, code)
    requires if v < s[node].value then s[node].left == 0 else s[node].right == 0
    ensures minimum == 1 && code == Below(g.counts[c], v) + v && g.counts[c][v] == 0
    ensures Below(g.counts[c], v) == Below(g.counts[c], if v < s[node].value then s[node].value else s[node].value + 1)
  {
    var k := g.counts[c];
    assert Node(s0, n, g, node);
    if v < s[node].value {
      SlotUnder(k, g.lo[node], v, s[node].value);
    } else {
      SlotUnder(k, s[node].value + 1, v, g.hi[node]);
    }
  }

  lemma SlotUnder(k: Counts, a: nat, v: nat, b: nat)
    requires a <= v < b <= 256 && Between(k, a, b) == 0
    ensures Below(k, v) == Below(k, a) == Below(k, b) && k[v] == 0
  {
    BelowFlat(k, a, b);
    BelowFlat(k, a, v);
  }

  lemma SplitBetween(k: Counts, a: nat, b: nat, v: nat, w: nat)
    requires a <= b <= v < w <= 256
    ensures 0 <= Between(k, a, b) && 0 <= Between(k, b, v)
    ensures Between(k, a, v + 1) == Between(k, a, b) + Between(k, b, v) + k[v]
    ensures Between(k, b, v + 1) == Between(k, b, v) + k[v]
    ensures Between(k, a, v + 1) <= Below(k, w) <= Sum(k)
  {
    BelowMonotone(k, a, b);
    BelowMonotone(k, b, v);
    BelowMonotone(k, v + 1, w);
    BelowMonotone(k, w, 256);
  }
}
