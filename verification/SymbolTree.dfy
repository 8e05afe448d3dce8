/** The symbol pool of src/enet/compress.c as a flat array: every context is a binary search
    tree of symbols linked by relative offsets, and every symbol is itself a context.
    The shape is ghost: for each symbol, which context's tree it is in, which values its
    subtree covers, and which counts its own context holds. */
module SymbolTree {
  import opened Words
  import opened ContextCounts

  const POOL := 4096

  datatype Symbol = Symbol(
    value: u8, count: u8, under: u16, left: u16, right: u16,
    symbols: u16, escapes: u16, total: u16, parent: u16)

  datatype Shape = Shape(own: seq<nat>, lo: seq<nat>, hi: seq<nat>, counts: seq<Counts>)

  ghost predicate Shaped(n: nat, g: Shape) {
    && |g.own| == |g.lo| == |g.hi| == |g.counts| == n
    && forall i {:trigger g.own[i]} {:trigger g.lo[i]} :: 0 < i < n ==> g.own[i] < i && g.lo[i] < g.hi[i] <= 256
  }

  function Between(k: Counts, v: nat, w: nat): int
    requires v <= 256 && w <= 256
  {
    Below(k, w) - Below(k, v)
  }

  // A link of width 0 means that nothing between v and w was ever counted.
  ghost predicate Link(n: nat, g: Shape, from: nat, offset: nat, c: nat, v: nat, w: nat)
    requires Shaped(n, g) && c < n && v <= 256 && w <= 256
  {
    if offset == 0 then Between(g.counts[c], v, w) == 0
    else
      && from + offset < n
      && g.own[from + offset] == c && g.lo[from + offset] == v && g.hi[from + offset] == w
  }

  // Symbol i in its context's tree: a search-tree node whose `under` is its own count
  // and those of the smaller values of its subtree.
  ghost predicate Node(s: seq<Symbol>, n: nat, g: Shape, i: nat)
    requires Shaped(n, g) && 0 < i < n <= |s|
  {
    var k := g.counts[g.own[i]];
    && g.lo[i] <= s[i].value < g.hi[i]
    && 0 < s[i].count == k[s[i].value]
    && s[i].under == Between(k, g.lo[i], s[i].value + 1)
    && Link(n, g, i, s[i].left, g.own[i], g.lo[i], s[i].value)
    && Link(n, g, i, s[i].right, g.own[i], s[i].value + 1, g.hi[i])
  }

  // A context's link to its whole tree.
  ghost predicate Root(s: seq<Symbol>, n: nat, g: Shape, c: nat)
    requires Shaped(n, g) && c < n <= |s|
  {
    Link(n, g, c, s[c].symbols, c, 0, 256)
  }

  ghost predicate InLeft(s: seq<Symbol>, g: Shape, i: nat, j: nat)
    requires i < |s| && i < |g.lo| == |g.hi| && j < |g.lo|
  {
    g.lo[i] <= g.lo[j] && g.hi[j] <= s[i].value
  }

  ghost predicate InRight(s: seq<Symbol>, g: Shape, i: nat, j: nat)
    requires i < |s| && i < |g.lo| == |g.hi| && j < |g.lo|
  {
    s[i].value < g.lo[j] && g.hi[j] <= g.hi[i]
  }

  // Two symbols of one tree: side by side, or one below the other on one side.
  ghost predicate Apart(s: seq<Symbol>, g: Shape, i: nat, j: nat)
    requires i < |s| && j < |s| && i < |g.lo| == |g.hi| && j < |g.lo|
  {
    || g.hi[i] <= g.lo[j] || g.hi[j] <= g.lo[i]
    || InLeft(s, g, i, j) || InRight(s, g, i, j) || InLeft(s, g, j, i) || InRight(s, g, j, i)
  }

  ghost predicate Laminar(s: seq<Symbol>, n: nat, g: Shape)
    requires Shaped(n, g) && n <= |s|
  {
    forall i, j {:trigger Apart(s, g, i, j)} ::
      0 < i < n && 0 < j < n && i != j && g.own[i] == g.own[j] ==> Apart(s, g, i, j)
  }

  ghost predicate Pool(s: seq<Symbol>, n: nat, g: Shape) {
    && 0 < n <= |s| == POOL
    && Shaped(n, g)
    && (forall i {:trigger Node(s, n, g, i)} :: 0 < i < n ==> Node(s, n, g, i))
    && (forall c {:trigger Root(s, n, g, c)} :: 0 <= c < n ==> Root(s, n, g, c))
    && Laminar(s, n, g)
  }

  // Symbol i's subtree lies inside symbol node's.
  ghost predicate Within(g: Shape, node: nat, i: nat)
    requires node < |g.lo| == |g.hi| && i < |g.lo|
  {
    g.lo[node] <= g.lo[i] && g.hi[i] <= g.hi[node]
  }

  // --- One value counted: the descent of ENET_CONTEXT_ENCODE and ENET_CONTEXT_DECODE. ---

  function Bump(k: Counts, v: u8, d: nat): Counts
    requires k[v] + d < BYTE
  {
    k[v := k[v] + d]
  }

  lemma BumpBetween(k: Counts, v: u8, d: nat)
    requires k[v] + d < BYTE
    ensures forall x :: 0 <= x <= 256 ==> Below(Bump(k, v, d), x) == Below(k, x) + if v < x then d else 0
  {
    forall x | 0 <= x <= 256
      ensures Below(Bump(k, v, d), x) == Below(k, x) + if v < x then d else 0
    {
      BelowBumped(k, v, d, x);
    }
  }

  // Room to count v once more in context c.
  ghost predicate Room(n: nat, g: Shape, c: nat, v: u8, d: nat) {
    && |g.counts| == n && c < n && d > 0
    && g.counts[c][v] + d < BYTE
    && Sum(g.counts[c]) + d < HALF
  }

  // Halfway down: symbols outside the current subtree already count v, those inside do not.
  ghost function UnderWhile(s0: seq<Symbol>, n: nat, g: Shape, c: nat, v: u8, d: nat, node: nat, i: nat): int
    requires Pool(s0, n, g) && Room(n, g, c, v, d) && 0 < node < n && i < |s0|
  {
    if 0 < i < n && g.own[i] == c && !Within(g, node, i)
    then Between(Bump(g.counts[c], v, d), g.lo[i], s0[i].value + 1)
    else s0[i].under
  }

  ghost predicate Descending(s: seq<Symbol>, s0: seq<Symbol>, n: nat, g: Shape, c: nat, v: u8, d: nat, node: nat) {
    && Pool(s0, n, g) && Room(n, g, c, v, d)
    && |s| == |s0|
    && 0 < node < n && g.own[node] == c && g.lo[node] <= v < g.hi[node]
    && (forall i {:trigger s[i]} :: 0 <= i < POOL ==> s[i] == s0[i].(under := s[i].under))
    && (forall i {:trigger s[i]} :: 0 <= i < POOL ==> s[i].under == UnderWhile(s0, n, g, c, v, d, node, i))
  }

  lemma Descend(s: seq<Symbol>, n: nat, g: Shape, c: nat, v: u8, d: nat)
    requires Pool(s, n, g) && Room(n, g, c, v, d) && s[c].symbols != 0
    ensures Descending(s, s, n, g, c, v, d, c + s[c].symbols)
    ensures g.lo[c + s[c].symbols] == 0 && g.hi[c + s[c].symbols] == 256
  {
    assert Root(s, n, g, c);
  }

  lemma TwoNodes(s: seq<Symbol>, n: nat, g: Shape, node: nat, i: nat)
    requires Pool(s, n, g) && 0 < i < n && 0 < node < n && i != node && g.own[i] == g.own[node]
    ensures Apart(s, g, i, node) && g.lo[i] <= s[i].value < g.hi[i] <= 256
    ensures s[i].under == Between(g.counts[g.own[i]], g.lo[i], s[i].value + 1)
  {
    assert Apart(s, g, i, node);
    assert Node(s, n, g, i);
  }

  lemma DescendLeft(s: seq<Symbol>, s0: seq<Symbol>, n: nat, g: Shape, c: nat, v: u8, d: nat, node: nat)
    requires Descending(s, s0, n, g, c, v, d, node) && v < s[node].value && s[node].left != 0
    ensures s[node].under + d < HALF
    ensures Descending(s[node := s[node].(under := s[node].under + d)], s0, n, g, c, v, d, node + s[node].left)
    ensures var next := node + s[node].left; g.lo[next] == g.lo[node] && g.hi[next] < g.hi[node]
  {
    var k := g.counts[c];
    BumpBetween(k, v, d);
    assert s0[node].under == s[node].under;
    assert Node(s0, n, g, node);
    BelowMonotone(k, s[node].value + 1, 256);
    var next := node + s[node].left;
    var t := s[node := s[node].(under := s[node].under + d)];
    forall i | 0 <= i < POOL
      ensures t[i].under == UnderWhile(s0, n, g, c, v, d, next, i)
    {
      if 0 < i < n && g.own[i] == c && i != node { TwoNodes(s0, n, g, node, i); }
    }
  }

  lemma DescendRight(s: seq<Symbol>, s0: seq<Symbol>, n: nat, g: Shape, c: nat, v: u8, d: nat, node: nat)
    requires Descending(s, s0, n, g, c, v, d, node) && v > s[node].value && s[node].right != 0
    ensures Descending(s, s0, n, g, c, v, d, node + s[node].right)
    ensures var next := node + s[node].right;
      g.lo[next] == s[node].value + 1 && g.hi[next] == g.hi[node] && g.lo[node] < g.lo[next]
  {
    var k := g.counts[c];
    BumpBetween(k, v, d);
    assert Node(s0, n, g, node);
    var next := node + s[node].right;
    forall i | 0 <= i < POOL
      ensures s[i].under == UnderWhile(s0, n, g, c, v, d, next, i)
    {
      if 0 < i < n && g.own[i] == c && i != node { TwoNodes(s0, n, g, node, i); }
    }
  }

  ghost function Counting(g: Shape, c: nat, v: u8, d: nat): Shape
    requires c < |g.counts| && g.counts[c][v] + d < BYTE
  {
    g.(counts := g.counts[c := Bump(g.counts[c], v, d)])
  }

  lemma EmptySlot(s: seq<Symbol>, n: nat, g: Shape, c: nat, a: nat, b: nat, i: nat)
    requires Pool(s, n, g) && c < n && a <= b <= 256 && Between(g.counts[c], a, b) == 0
    requires 0 < i < n && g.own[i] == c
    ensures !(a <= s[i].value < b) && g.lo[i] <= s[i].value < g.hi[i] <= 256
  {
    assert g.own[i] < i;
    BelowFlat(g.counts[c], a, b);
    assert Node(s, n, g, i);
  }

  lemma CountingShaped(n: nat, g: Shape, c: nat, v: u8, d: nat)
    requires Shaped(n, g) && Room(n, g, c, v, d)
    ensures Shaped(n, Counting(g, c, v, d))
  {
    var h := Counting(g, c, v, d);
    forall i {:trigger h.own[i]} {:trigger h.lo[i]} | 0 < i < n
      ensures h.own[i] < i && h.lo[i] < h.hi[i] <= 256
    {
      assert g.own[i] < i;
    }
  }

  lemma FoundUnder(s: seq<Symbol>, s0: seq<Symbol>, n: nat, g: Shape, c: nat, v: u8, d: nat, node: nat, i: nat)
    requires Descending(s, s0, n, g, c, v, d, node) && v == s[node].value && 0 < i < n && g.own[i] == c
    ensures s[i].under + (if i == node then d else 0) == Between(Bump(g.counts[c], v, d), g.lo[i], s0[i].value + 1)
    ensures i != node ==> s[i].value != v
  {
    hide Laminar, Root;
    BumpBetween(g.counts[c], v, d);
    assert Node(s0, n, g, i);
    if i != node { TwoNodes(s0, n, g, node, i); }
  }

  // Where a node has no child, no other symbol of the context has its value.
  lemma NoChild(s: seq<Symbol>, n: nat, g: Shape, i: nat, j: nat)
    requires Pool(s, n, g) && 0 < i < n && 0 < j < n && g.own[i] == g.own[j]
    ensures s[i].left == 0 ==> !(g.lo[i] <= s[j].value < s[i].value)
    ensures s[i].right == 0 ==> !(s[i].value + 1 <= s[j].value < g.hi[i])
  {
    assert Node(s, n, g, i);
    if s[i].left == 0 { EmptySlot(s, n, g, g.own[i], g.lo[i], s[i].value, j); }
    if s[i].right == 0 { EmptySlot(s, n, g, g.own[i], s[i].value + 1, g.hi[i], j); }
  }

  lemma FoundNode(s: seq<Symbol>, s0: seq<Symbol>, n: nat, g: Shape, c: nat, v: u8, d: nat, node: nat, t: seq<Symbol>,
                  i: nat)
    requires Descending(s, s0, n, g, c, v, d, node) && v == s[node].value && 0 < i < n && |t| == POOL
    requires Shaped(n, Counting(g, c, v, d))
    requires t[i] == if i == node then s0[i].(under := t[i].under, count := t[i].count) else s[i]
    requires t[node].under == s0[node].under + d && t[node].count == s0[node].count + d
    ensures Node(t, n, Counting(g, c, v, d), i)
  {
    hide Laminar, Root;
    assert Node(s0, n, g, i);
    if g.own[i] == c {
      hide UnderWhile;
      BumpBetween(g.counts[c], v, d);
      FoundUnder(s, s0, n, g, c, v, d, node, i);
      RoomBelow(s, s0, n, g, c, v, d, node);
      NoChild(s0, n, g, i, node);
    }
  }

  lemma RoomBelow(s: seq<Symbol>, s0: seq<Symbol>, n: nat, g: Shape, c: nat, v: u8, d: nat, node: nat)
    requires Descending(s, s0, n, g, c, v, d, node)
    ensures s[node].under == s0[node].under && s[node].under + d < HALF
    ensures s[node].count == g.counts[c][s[node].value] && s[node].under >= s[node].count
    ensures Below(g.counts[c], g.lo[node]) + s[node].under == Below(g.counts[c], s[node].value + 1)
    ensures Below(g.counts[c], s[node].value + 1) == Below(g.counts[c], s[node].value) + s[node].count
  {
    assert Node(s0, n, g, node);
    BelowMonotone(g.counts[c], s[node].value + 1, 256);
    BelowMonotone(g.counts[c], 0, g.lo[node]);
    BelowMonotone(g.counts[c], g.lo[node], s[node].value);
  }

  // The value is already there: its count and under grow in place.
  lemma Found(s: seq<Symbol>, s0: seq<Symbol>, n: nat, g: Shape, c: nat, v: u8, d: nat, node: nat)
    requires Descending(s, s0, n, g, c, v, d, node) && v == s[node].value
    ensures s[node].under + d < HALF && s[node].count == g.counts[c][v]
    ensures Pool(s[node := s[node].(under := s[node].under + d, count := s[node].count + d)], n, Counting(g, c, v, d))
  {
    RoomBelow(s, s0, n, g, c, v, d, node);
    var t, h := s[node := s[node].(under := s[node].under + d, count := s[node].count + d)], Counting(g, c, v, d);
    CountingShaped(n, g, c, v, d);
    forall i {:trigger Node(t, n, h, i)} | 0 < i < n ensures Node(t, n, h, i) {
      FoundNode(s, s0, n, g, c, v, d, node, t, i);
    }
    forall b {:trigger Root(t, n, h, b)} | 0 <= b < n ensures Root(t, n, h, b) {
      assert Root(s0, n, g, b);
      BumpBetween(g.counts[c], v, d);
      if b == c && t[c].symbols == 0 { EmptySlot(s0, n, g, c, 0, 256, node); }
    }
    SameLaminar(s0, g, t, h, n);
  }

  lemma SameLaminar(s: seq<Symbol>, g: Shape, t: seq<Symbol>, h: Shape, n: nat)
    requires Shaped(n, g) && Shaped(n, h) && n <= |s| == |t| && Laminar(s, n, g)
    requires h.own == g.own && h.lo == g.lo && h.hi == g.hi
    requires forall i :: 0 <= i < n ==> t[i].value == s[i].value
    ensures Laminar(t, n, h)
  {
    forall i, j {:trigger Apart(t, h, i, j)} | 0 < i < n && 0 < j < n && i != j && h.own[i] == h.own[j]
      ensures Apart(t, h, i, j)
    {
      assert Apart(s, g, i, j);
    }
  }

  // --- A value new to its context: one more symbol, hung into an empty slot. ---

  function Created(v: u8, d: u8): Symbol { Symbol(v, d, d, 0, 0, 0, 0, 0, 0) }

  ghost function Growing(g: Shape, c: nat, v: u8, d: nat, a: nat, b: nat): Shape
    requires c < |g.counts| && g.counts[c][v] + d < BYTE
  {
    Shape(g.own + [c], g.lo + [a], g.hi + [b], g.counts[c := Bump(g.counts[c], v, d)] + [Nothing()])
  }

  lemma GrowingShaped(n: nat, g: Shape, c: nat, v: u8, d: nat, a: nat, b: nat)
    requires Shaped(n, g) && Room(n, g, c, v, d) && a < b <= 256 && n > 0
    ensures Shaped(n + 1, Growing(g, c, v, d, a, b))
  {
    var h := Growing(g, c, v, d, a, b);
    forall i {:trigger h.own[i]} {:trigger h.lo[i]} | 0 < i < n + 1
      ensures h.own[i] < i && h.lo[i] < h.hi[i] <= 256
    {
      if i < n { assert g.own[i] < i; }
    }
  }

  lemma NewNode(s: seq<Symbol>, n: nat, g: Shape, c: nat, v: u8, d: nat, a: nat, b: nat, t: seq<Symbol>)
    requires Pool(s, n, g) && Room(n, g, c, v, d) && n < POOL && d < BYTE
    requires a <= v < b <= 256 && Between(g.counts[c], a, b) == 0
    requires |t| == POOL && t[n] == Created(v, d)
    ensures g.counts[c][v] == 0
    ensures var h := Growing(g, c, v, d, a, b); Shaped(n + 1, h) && Node(t, n + 1, h, n) && Root(t, n + 1, h, n)
  {
    GrowingShaped(n, g, c, v, d, a, b);
    BumpBetween(g.counts[c], v, d);
    BelowFlat(g.counts[c], a, b);
    BelowFlat(g.counts[c], a, v);
    BelowFlat(g.counts[c], v + 1, b);
    ZeroSum(Nothing());
    assert Below(g.counts[c], v + 1) == Below(g.counts[c], v) + g.counts[c][v];
  }

  // Where an empty slot lies from the point of view of one symbol of its tree.
  ghost predicate Beside(s: seq<Symbol>, g: Shape, i: nat, a: nat, b: nat)
    requires i < |s| && i < |g.lo| == |g.hi|
  {
    b <= g.lo[i] || g.hi[i] <= a || (g.lo[i] <= a && b <= s[i].value) || (s[i].value < a && b <= g.hi[i])
  }

  // A symbol other than the slot's parent keeps its links, and its under counts v if it covers the slot.
  lemma KeptNode(s: seq<Symbol>, n: nat, g: Shape, c: nat, v: u8, d: nat, a: nat, b: nat, t: seq<Symbol>, h: Shape,
                 i: nat)
    requires Pool(s, n, g) && Room(n, g, c, v, d) && n < POOL
    requires h == Growing(g, c, v, d, a, b) && Shaped(n + 1, h) && |t| == POOL
    requires 0 < i < n && t[i] == s[i].(under := t[i].under, symbols := t[i].symbols)
    requires t[i].under == Between(h.counts[g.own[i]], g.lo[i], s[i].value + 1)
    requires a <= v < b && (g.own[i] == c ==> Beside(s, g, i, a, b))
    requires g.own[i] == c && s[i].left == 0 ==> !(g.lo[i] <= a && b <= s[i].value)
    requires g.own[i] == c && s[i].right == 0 ==> !(s[i].value < a && b <= g.hi[i])
    ensures Node(t, n + 1, h, i)
  {
    assert Node(s, n, g, i);
    BumpBetween(g.counts[c], v, d);
  }

  lemma AttachedLaminar(s: seq<Symbol>, n: nat, g: Shape, c: nat, v: u8, d: nat, a: nat, b: nat, t: seq<Symbol>)
    requires Pool(s, n, g) && Room(n, g, c, v, d) && n < POOL && d < BYTE
    requires a <= v < b <= 256
    requires Shaped(n + 1, Growing(g, c, v, d, a, b)) && |t| == POOL && t[n] == Created(v, d)
    requires forall i :: 0 <= i < n ==> t[i].value == s[i].value
    requires forall i {:trigger Beside(s, g, i, a, b)} :: 0 < i < n && g.own[i] == c ==> Beside(s, g, i, a, b)
    ensures Laminar(t, n + 1, Growing(g, c, v, d, a, b))
  {
    var h := Growing(g, c, v, d, a, b);
    forall i, j {:trigger Apart(t, h, i, j)} | 0 < i < n + 1 && 0 < j < n + 1 && i != j && h.own[i] == h.own[j]
      ensures Apart(t, h, i, j)
    {
      if i < n && j < n {
        assert Apart(s, g, i, j);
      } else {
        assert i < n ==> Beside(s, g, i, a, b);
        assert j < n ==> Beside(s, g, j, a, b);
      }
    }
  }

  // The free slot on one side of a node.
  ghost predicate FreeSlot(s: seq<Symbol>, n: nat, g: Shape, c: nat, node: nat, a: nat, b: nat) {
    && Pool(s, n, g) && 0 < node < n && g.own[node] == c
    && ((s[node].left == 0 && a == g.lo[node] && b == s[node].value)
      || (s[node].right == 0 && a == s[node].value + 1 && b == g.hi[node]))
  }

  lemma SlotBeside(s: seq<Symbol>, n: nat, g: Shape, c: nat, node: nat, a: nat, b: nat, i: nat)
    requires FreeSlot(s, n, g, c, node, a, b) && a < b && 0 < i < n && g.own[i] == c
    ensures Between(g.counts[c], a, b) == 0
    ensures Beside(s, g, i, a, b)
    ensures i != node && s[i].left == 0 ==> !(g.lo[i] <= a && b <= s[i].value)
    ensures i != node && s[i].right == 0 ==> !(s[i].value < a && b <= g.hi[i])
  {
    assert Node(s, n, g, node);
    assert Node(s, n, g, i);
    if i != node {
      assert Apart(s, g, i, node);
      EmptySlot(s, n, g, c, a, b, i);
      if s[i].left == 0 { EmptySlot(s, n, g, c, g.lo[i], s[i].value, node); }
      if s[i].right == 0 { EmptySlot(s, n, g, c, s[i].value + 1, g.hi[i], node); }
    }
  }

  // t is s with a new symbol linked into the free slot [a, b) of node.
  ghost predicate Hung(s: seq<Symbol>, s0: seq<Symbol>, n: nat, g: Shape, c: nat, v: u8, d: nat, node: nat, a: nat,
                       b: nat, t: seq<Symbol>) {
    && Descending(s, s0, n, g, c, v, d, node) && FreeSlot(s0, n, g, c, node, a, b) && a <= v < b
    && n < POOL && d < BYTE && |t| == POOL && t[n] == Created(v, d)
    && (forall i :: 0 <= i < n && i != node ==> t[i] == s[i])
    && (if v < s0[node].value then t[node] == s0[node].(under := t[node].under, left := n - node)
        else t[node] == s0[node].(under := t[node].under, right := n - node))
    && t[node].under == s0[node].under + if v < s0[node].value then d else 0
  }

  lemma HungNode(s: seq<Symbol>, s0: seq<Symbol>, n: nat, g: Shape, c: nat, v: u8, d: nat, node: nat, a: nat, b: nat,
                 t: seq<Symbol>, i: nat)
    requires Hung(s, s0, n, g, c, v, d, node, a, b, t) && 0 < i < n + 1
    requires Shaped(n + 1, Growing(g, c, v, d, a, b))
    ensures Node(t, n + 1, Growing(g, c, v, d, a, b), i)
  {
    SlotBeside(s0, n, g, c, node, a, b, node);
    if i == node {
      LinkedNode(s0, n, g, c, v, d, node, a, b, t);
    } else if i < n {
      AttachedUnder(s, s0, n, g, c, v, d, node, a, b, i);
      if g.own[i] == c { SlotBeside(s0, n, g, c, node, a, b, i); }
      KeptNode(s0, n, g, c, v, d, a, b, t, Growing(g, c, v, d, a, b), i);
    } else {
      NewNode(s0, n, g, c, v, d, a, b, t);
    }
  }

  lemma HungRoot(s: seq<Symbol>, s0: seq<Symbol>, n: nat, g: Shape, c: nat, v: u8, d: nat, node: nat, a: nat, b: nat,
                 t: seq<Symbol>, e: nat)
    requires Hung(s, s0, n, g, c, v, d, node, a, b, t) && e < n + 1
    requires Shaped(n + 1, Growing(g, c, v, d, a, b))
    ensures Root(t, n + 1, Growing(g, c, v, d, a, b), e)
  {
    if e < n {
      assert Root(s0, n, g, e);
      if e == c && s0[c].symbols == 0 { EmptySlot(s0, n, g, c, 0, 256, node); }
    } else {
      SlotBeside(s0, n, g, c, node, a, b, node);
      NewNode(s0, n, g, c, v, d, a, b, t);
    }
  }

  lemma Attached(s: seq<Symbol>, s0: seq<Symbol>, n: nat, g: Shape, c: nat, v: u8, d: nat, node: nat, a: nat, b: nat,
                 t: seq<Symbol>)
    requires Hung(s, s0, n, g, c, v, d, node, a, b, t)
    ensures g.counts[c][v] == 0 && Pool(t, n + 1, Growing(g, c, v, d, a, b))
  {
    var h := Growing(g, c, v, d, a, b);
    SlotBeside(s0, n, g, c, node, a, b, node);
    NewNode(s0, n, g, c, v, d, a, b, t);
    forall i {:trigger Beside(s0, g, i, a, b)} | 0 < i < n && g.own[i] == c ensures Beside(s0, g, i, a, b) {
      SlotBeside(s0, n, g, c, node, a, b, i);
    }
    forall i {:trigger Node(t, n + 1, h, i)} | 0 < i < n + 1 ensures Node(t, n + 1, h, i) {
      HungNode(s, s0, n, g, c, v, d, node, a, b, t, i);
    }
    forall e {:trigger Root(t, n + 1, h, e)} | 0 <= e < n + 1 ensures Root(t, n + 1, h, e) {
      HungRoot(s, s0, n, g, c, v, d, node, a, b, t, e);
    }
    AttachedLaminar(s0, n, g, c, v, d, a, b, t);
  }

  lemma AttachedUnder(s: seq<Symbol>, s0: seq<Symbol>, n: nat, g: Shape, c: nat, v: u8, d: nat, node: nat, a: nat,
                      b: nat, i: nat)
    requires Descending(s, s0, n, g, c, v, d, node) && FreeSlot(s0, n, g, c, node, a, b) && a <= v < b
    requires 0 < i < n && i != node
    ensures s[i].under == Between(Growing(g, c, v, d, a, b).counts[g.own[i]], g.lo[i], s0[i].value + 1)
  {
    assert g.own[i] < i;
    assert Node(s0, n, g, i);
    assert Node(s0, n, g, node);
    BumpBetween(g.counts[c], v, d);
    if g.own[i] == c {
      assert Apart(s0, g, i, node);
      EmptySlot(s0, n, g, c, a, b, i);
    }
  }

  lemma LinkedNode(s: seq<Symbol>, n: nat, g: Shape, c: nat, v: u8, d: nat, node: nat, a: nat, b: nat, t: seq<Symbol>)
    requires FreeSlot(s, n, g, c, node, a, b) && Room(n, g, c, v, d) && a <= v < b && n < POOL && |t| == POOL
    requires Shaped(n + 1, Growing(g, c, v, d, a, b))
    requires if v < s[node].value then t[node] == s[node].(under := t[node].under, left := n - node)
             else t[node] == s[node].(under := t[node].under, right := n - node)
    requires t[node].under == s[node].under + if v < s[node].value then d else 0
    ensures Node(t, n + 1, Growing(g, c, v, d, a, b), node)
  {
    assert Node(s, n, g, node);
    BumpBetween(g.counts[c], v, d);
  }

  // The first symbol of a context.
  lemma AttachedRoot(s: seq<Symbol>, n: nat, g: Shape, c: nat, v: u8, d: nat, t: seq<Symbol>)
    requires Pool(s, n, g) && Room(n, g, c, v, d) && s[c].symbols == 0
    requires n < POOL && d < BYTE && t == s[c := s[c].(symbols := n - c)][n := Created(v, d)]
    ensures g.counts[c][v] == 0 && Pool(t, n + 1, Growing(g, c, v, d, 0, 256))
  {
    var h := Growing(g, c, v, d, 0, 256);
    assert Root(s, n, g, c);
    NewNode(s, n, g, c, v, d, 0, 256, t);
    forall i | 0 < i < n ensures g.own[i] != c {
      if g.own[i] == c { EmptySlot(s, n, g, c, 0, 256, i); }
    }
    forall i {:trigger Node(t, n + 1, h, i)} | 0 < i < n + 1 ensures Node(t, n + 1, h, i) {
      if i < n {
        assert Node(s, n, g, i);
        assert g.own[i] < i;
        KeptNode(s, n, g, c, v, d, 0, 256, t, h, i);
      }
    }
    forall e {:trigger Root(t, n + 1, h, e)} | 0 <= e < n + 1 ensures Root(t, n + 1, h, e) {
      if e < n { assert Root(s, n, g, e); }
    }
    AttachedLaminar(s, n, g, c, v, d, 0, 256, t);
  }

  // --- The outcome of counting a value, whichever way the descent ended. ---

  predicate SameContext(a: Symbol, b: Symbol) {
    a.value == b.value && a.escapes == b.escapes && a.total == b.total && a.parent == b.parent
  }

  // Symbol `symbol` now stands for v in context c; it is new exactly if v was never counted.
  // Contexts other than c keep their counts, and no symbol loses its value, weights or parent.
  ghost predicate Counted(s: seq<Symbol>, n: nat, g: Shape, t: seq<Symbol>, m: nat, h: Shape, c: nat, v: u8, d: nat,
                          symbol: nat)
    requires Pool(s, n, g) && Room(n, g, c, v, d)
  {
    var k := g.counts[c];
    && Pool(t, m, h)
    && m == (if k[v] == 0 then n + 1 else n)
    && 0 < symbol < m && h.own[symbol] == c && t[symbol].value == v
    && (k[v] == 0 ==> symbol == n && h.counts[n] == Nothing() && t[n] == Created(v, d))
    && h.counts[..n] == g.counts[c := Bump(k, v, d)]
    && h.own[..n] == g.own
    && forall i :: 0 <= i < n ==> SameContext(s[i], t[i])
  }

  lemma FoundCounted(s: seq<Symbol>, s0: seq<Symbol>, n: nat, g: Shape, c: nat, v: u8, d: nat, node: nat)
    requires Descending(s, s0, n, g, c, v, d, node) && v == s[node].value
    ensures s[node].under + d < HALF && s[node].count == g.counts[c][v]
    ensures var t := s[node := s[node].(under := s[node].under + d, count := s[node].count + d)];
      Counted(s0, n, g, t, n, Counting(g, c, v, d), c, v, d, node)
  {
    Found(s, s0, n, g, c, v, d, node);
    assert Node(s0, n, g, node);
  }

  lemma AttachedCounted(s: seq<Symbol>, s0: seq<Symbol>, n: nat, g: Shape, c: nat, v: u8, d: nat, node: nat, a: nat,
                        b: nat, t: seq<Symbol>)
    requires Hung(s, s0, n, g, c, v, d, node, a, b, t)
    ensures Counted(s0, n, g, t, n + 1, Growing(g, c, v, d, a, b), c, v, d, n)
    ensures g.counts[c][v] == 0 && Below(g.counts[c], v) == Below(g.counts[c], a)
  {
    Attached(s, s0, n, g, c, v, d, node, a, b, t);
    SlotBeside(s0, n, g, c, node, a, b, node);
    BelowFlat(g.counts[c], a, b);
    BelowFlat(g.counts[c], a, v);
  }

  lemma RootCounted(s: seq<Symbol>, n: nat, g: Shape, c: nat, v: u8, d: nat, t: seq<Symbol>)
    requires Pool(s, n, g) && Room(n, g, c, v, d) && s[c].symbols == 0
    requires n < POOL && d < BYTE && t == s[c := s[c].(symbols := n - c)][n := Created(v, d)]
    ensures Counted(s, n, g, t, n + 1, Growing(g, c, v, d, 0, 256), c, v, d, n)
    ensures g.counts[c][v] == 0 && Below(g.counts[c], v) == 0
  {
    AttachedRoot(s, n, g, c, v, d, t);
    assert Root(s, n, g, c);
    BelowFlat(g.counts[c], 0, 256);
    BelowFlat(g.counts[c], 0, v);
  }

  // --- Halving every count of one context: enet_symbol_rescale. ---

  ghost predicate InTree(n: nat, g: Shape, c: nat, node: nat, i: nat)
    requires Shaped(n, g) && 0 < node < n
  {
    0 < i < n && g.own[i] == c && Within(g, node, i)
  }

  ghost function Halved(s: seq<Symbol>, n: nat, g: Shape, c: nat, i: nat): Symbol
    requires Pool(s, n, g) && c < n && 0 < i < n && g.own[i] == c
  {
    HalvedRoom(s, n, g, c, i);
    s[i].(count := s[i].count - s[i].count / 2, under := Between(Halve(g.counts[c]), g.lo[i], s[i].value + 1))
  }

  lemma HalvedRoom(s: seq<Symbol>, n: nat, g: Shape, c: nat, i: nat)
    requires Pool(s, n, g) && c < n && 0 < i < n && g.own[i] == c
    ensures 0 <= Between(Halve(g.counts[c]), g.lo[i], s[i].value + 1) < HALF
    ensures s[i].count - s[i].count / 2 == Halve(g.counts[c])[s[i].value]
  {
    var k := Halve(g.counts[c]);
    assert Node(s, n, g, i);
    assert g.own[i] < i;
    HalvedSmall(g.counts[c], s[i].value + 1);
    BelowMonotone(k, g.lo[i], s[i].value + 1);
  }

  lemma {:induction false} HalvedSmall(k: Counts, v: nat)
    requires v <= 256
    ensures Below(Halve(k), v) <= 128 * v
  {
    if v > 0 { HalvedSmall(k, v - 1); }
  }

  // The part of `start`'s subtree outside `node`'s is halved, all the rest is as it was.
  ghost predicate Halving(t: seq<Symbol>, s: seq<Symbol>, s0: seq<Symbol>, n: nat, g: Shape, c: nat, start: nat,
                          node: nat) {
    && Pool(s0, n, g) && c < n
    && |t| == |s| == POOL
    && 0 < start < n && g.own[start] == c && 0 < node < n && g.own[node] == c
    && Within(g, start, node) && g.hi[node] == g.hi[start]
    && (forall i {:trigger s[i]} :: 0 <= i < POOL && InTree(n, g, c, start, i) ==> s[i] == s0[i])
    && (forall i {:trigger t[i]} :: 0 <= i < POOL ==>
        t[i] == if InTree(n, g, c, start, i) && !Within(g, node, i) then Halved(s0, n, g, c, i) else s[i])
  }

  ghost predicate AllHalved(t: seq<Symbol>, s: seq<Symbol>, s0: seq<Symbol>, n: nat, g: Shape, c: nat, start: nat) {
    && Pool(s0, n, g) && c < n && 0 < start < n && g.own[start] == c && |t| == |s| == POOL
    && forall i {:trigger t[i]} :: 0 <= i < POOL ==>
      t[i] == if InTree(n, g, c, start, i) then Halved(s0, n, g, c, i) else s[i]
  }

  lemma LeftUntouched(t: seq<Symbol>, s: seq<Symbol>, s0: seq<Symbol>, n: nat, g: Shape, c: nat, start: nat, node: nat,
                      u: seq<Symbol>)
    requires Halving(t, s, s0, n, g, c, start, node) && s0[node].left != 0
    requires |u| == POOL && forall i :: 0 <= i < POOL && i != node ==> u[i] == t[i]
    ensures node + s0[node].left < n
    ensures var left := node + s0[node].left; Halving(u, u, s0, n, g, c, left, left)
  {
    assert Node(s0, n, g, node);
    var left := node + s0[node].left;
    forall i {:trigger u[i]} | 0 <= i < POOL && InTree(n, g, c, left, i) ensures u[i] == s0[i] {
      assert InTree(n, g, c, start, i);
      assert s[i] == s0[i] == t[i];
    }
  }

  // One turn of the loop: the node itself (t to u), then its whole left subtree (u to w).
  ghost predicate Turned(t: seq<Symbol>, s: seq<Symbol>, s0: seq<Symbol>, n: nat, g: Shape, c: nat, start: nat,
                         node: nat, u: seq<Symbol>, w: seq<Symbol>) {
    && Halving(t, s, s0, n, g, c, start, node)
    && |u| == |w| == POOL
    && (forall i {:trigger u[i]} :: 0 <= i < POOL && i != node ==> u[i] == t[i])
    && (if s0[node].left == 0 then w == u
        else node + s0[node].left < n && AllHalved(w, u, s0, n, g, c, node + s0[node].left))
  }

  lemma TurnedSymbol(t: seq<Symbol>, s: seq<Symbol>, s0: seq<Symbol>, n: nat, g: Shape, c: nat, start: nat, node: nat,
                     u: seq<Symbol>, w: seq<Symbol>, i: nat)
    requires Turned(t, s, s0, n, g, c, start, node, u, w) && i < POOL && i != node
    requires s0[node].right != 0 ==> node + s0[node].right < n
    ensures w[i] == if InTree(n, g, c, start, i) && !(s0[node].right != 0 && Within(g, node + s0[node].right, i))
      then Halved(s0, n, g, c, i) else s[i]
  {
    assert Node(s0, n, g, node);
    assert u[i] == t[i];
    if 0 < i < n && g.own[i] == c {
      assert Apart(s0, g, i, node);
      assert Node(s0, n, g, i);
      if s0[node].left == 0 {
        EmptySlot(s0, n, g, c, g.lo[node], s0[node].value, i);
      }
      if s0[node].right == 0 {
        EmptySlot(s0, n, g, c, s0[node].value + 1, g.hi[node], i);
      }
    }
  }

  lemma HalvedTurn(t: seq<Symbol>, s: seq<Symbol>, s0: seq<Symbol>, n: nat, g: Shape, c: nat, start: nat, node: nat,
                   u: seq<Symbol>, w: seq<Symbol>)
    requires Turned(t, s, s0, n, g, c, start, node, u, w)
    ensures s0[node].right != 0 ==>
      Halving(w[node := Halved(s0, n, g, c, node)], s, s0, n, g, c, start, node + s0[node].right)
    ensures s0[node].right == 0 ==> AllHalved(w[node := Halved(s0, n, g, c, node)], s, s0, n, g, c, start)
  {
    var x := w[node := Halved(s0, n, g, c, node)];
    assert Node(s0, n, g, node);
    forall i {:trigger x[i]} | 0 <= i < POOL
      ensures x[i] == if InTree(n, g, c, start, i) && !(s0[node].right != 0 && Within(g, node + s0[node].right, i))
        then Halved(s0, n, g, c, i) else s[i]
    {
      if i != node { TurnedSymbol(t, s, s0, n, g, c, start, node, u, w, i); }
    }
  }

  ghost function HalvingShape(g: Shape, c: nat): Shape
    requires c < |g.counts|
  {
    g.(counts := g.counts[c := Halve(g.counts[c])])
  }

  lemma HalvedNode(s: seq<Symbol>, n: nat, g: Shape, c: nat, t: seq<Symbol>, i: nat)
    requires Pool(s, n, g) && c < n && |t| == POOL && 0 < i < n
    requires Shaped(n, HalvingShape(g, c))
    requires t[i] == if g.own[i] == c then Halved(s, n, g, c, i) else s[i]
    ensures Node(t, n, HalvingShape(g, c), i)
  {
    assert Node(s, n, g, i);
    assert g.own[i] < i;
    if g.own[i] == c {
      HalvedRoom(s, n, g, c, i);
      HalvedEmpty(g.counts[c], g.lo[i], s[i].value);
      HalvedEmpty(g.counts[c], s[i].value + 1, g.hi[i]);
    }
  }

  lemma HalvedPool(s: seq<Symbol>, n: nat, g: Shape, c: nat, t: seq<Symbol>)
    requires Pool(s, n, g) && c < n && |t| == POOL
    requires forall i :: 0 <= i < POOL ==> t[i] == if 0 < i < n && g.own[i] == c then Halved(s, n, g, c, i) else s[i]
    ensures Pool(t, n, HalvingShape(g, c))
  {
    var h := HalvingShape(g, c);
    assert Shaped(n, h) by {
      forall i {:trigger h.own[i]} {:trigger h.lo[i]} | 0 < i < n
        ensures h.own[i] < i && h.lo[i] < h.hi[i] <= 256
      {
        assert g.own[i] < i;
      }
    }
    forall i {:trigger Node(t, n, h, i)} | 0 < i < n ensures Node(t, n, h, i) {
      HalvedNode(s, n, g, c, t, i);
    }
    forall b {:trigger Root(t, n, h, b)} | 0 <= b < n ensures Root(t, n, h, b) {
      assert Root(s, n, g, b);
      HalvedEmpty(g.counts[c], 0, 256);
    }
    SameLaminar(s, g, t, h, n);
  }

  lemma HalvedEmpty(k: Counts, v: nat, w: nat)
    requires v <= w <= 256
    ensures Between(k, v, w) == 0 ==> Between(Halve(k), v, w) == 0
  {
    BelowFlat(k, v, w);
    BelowFlat(Halve(k), v, w);
  }

  // --- Weights: what a context means beyond its tree. ---

  ghost function Content(s: seq<Symbol>, g: Shape, c: nat): Context
    requires c < |s| && c < |g.counts|
  {
    Context(g.counts[c], s[c].escapes, s[c].total)
  }

  // Contexts other than c mean what they meant, and symbols keep their names.
  ghost predicate OthersKept(s: seq<Symbol>, n: nat, g: Shape, t: seq<Symbol>, h: Shape, c: nat) {
    && n <= |s| && n <= |t| && |g.counts| == |g.own| == n && n <= |h.counts| && n <= |h.own|
    && h.own[..n] == g.own
    && (forall i {:trigger t[i]} :: 0 <= i < n ==> t[i].value == s[i].value && t[i].parent == s[i].parent)
    && forall i {:trigger Content(t, h, i)} :: 0 <= i < n && i != c ==> Content(t, h, i) == Content(s, g, i)
  }

  // Weights and parents are no part of any tree.
  lemma SameTrees(s: seq<Symbol>, n: nat, g: Shape, t: seq<Symbol>)
    requires Pool(s, n, g) && |t| == POOL
    requires forall i :: 0 <= i < n ==>
      t[i] == s[i].(escapes := t[i].escapes, total := t[i].total, parent := t[i].parent)
    ensures Pool(t, n, g)
  {
    forall i {:trigger Node(t, n, g, i)} | 0 < i < n ensures Node(t, n, g, i) {
      assert Node(s, n, g, i);
    }
    forall b {:trigger Root(t, n, g, b)} | 0 <= b < n ensures Root(t, n, g, b) {
      assert Root(s, n, g, b);
    }
    SameLaminar(s, g, t, g, n);
  }
}
