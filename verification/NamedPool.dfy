/** The symbol pool read as the context model: symbol i stands for the bytes that lead to it,
    and its parent for the same bytes without the first. */
module NamedPool {
  import opened Words
  import opened ContextCounts
  import opened SymbolTree
  import opened ContextModel

  ghost predicate NamedAt(s: seq<Symbol>, n: nat, g: Shape, nm: seq<Name>, i: nat)
    requires Shaped(n, g) && 0 < i < n <= |s| && |nm| == n
  {
    nm[i] == nm[g.own[i]] + [s[i].value] && 0 < |nm[i]| <= ORDER + 1
  }

  ghost predicate ParentAt(s: seq<Symbol>, n: nat, nm: seq<Name>, i: nat)
    requires 0 < i < n <= |s| && |nm| == n && 0 < |nm[i]|
  {
    s[i].parent < n && nm[s[i].parent] == nm[i][1..]
  }

  // All symbols but possibly the last one visited have their parent set.
  ghost predicate Named(s: seq<Symbol>, n: nat, g: Shape, nm: seq<Name>, cs: Contexts, loose: nat) {
    && Shaped(n, g) && 0 < n <= |s| && |nm| == n && nm[0] == [] && s[0].parent == 0
    && (forall i {:trigger NamedAt(s, n, g, nm, i)} :: 0 < i < n ==> NamedAt(s, n, g, nm, i))
    && (forall i, j {:trigger nm[i], nm[j]} :: 0 <= i < j < n ==> nm[i] != nm[j])
    && (forall i {:trigger Content(s, g, i)} :: 0 <= i < n ==> Content(s, g, i) == Look(cs, nm[i]))
    && (forall c {:trigger c in cs} :: c in cs ==> c in nm)
    && (forall i {:trigger ParentAt(s, n, nm, i)} :: 0 < i < n && i != loose ==> 0 < |nm[i]| && ParentAt(s, n, nm, i))
  }

  // One context visited: v counted, the symbol before linked to this one, the weights renewed.
  ghost predicate Visited(s: seq<Symbol>, n: nat, g: Shape, u: seq<Symbol>, m: nat, h: Shape, c: nat, v: u8,
                          symbol: nat, loose: nat, x: Context) {
    && Shaped(n, g) && Shaped(m, h) && c < n <= m <= |u| && n <= |s| && (loose == 0 || loose < n)
    && symbol < m && h.own[symbol] == c && u[symbol].value == v && symbol > 0
    && m == (if g.counts[c][v] == 0 then n + 1 else n)
    && (m == n + 1 ==> symbol == n && Content(u, h, n) == EMPTY && u[n].parent == 0)
    && (forall i {:trigger h.own[i]} :: 0 <= i < n ==> h.own[i] == g.own[i])
    && (forall i {:trigger u[i]} :: 0 <= i < n ==>
        u[i].value == s[i].value && u[i].parent == if i == loose != 0 then symbol else s[i].parent)
    && Content(u, h, c) == x
    && (forall i {:trigger Content(u, h, i)} :: 0 <= i < n && i != c ==> Content(u, h, i) == Content(s, g, i))
  }

  lemma VisitedBy(s: seq<Symbol>, n: nat, g: Shape, t: seq<Symbol>, m: nat, h: Shape, t': seq<Symbol>, u: seq<Symbol>,
                  e: Shape, c: nat, v: u8, d: nat, symbol: nat, loose: nat)
    requires Pool(s, n, g) && Room(n, g, c, v, d) && (loose == 0 || loose < n)
    requires Counted(s, n, g, t, m, h, c, v, d, symbol)
    requires t' == if loose == 0 then t else t[loose := t[loose].(parent := symbol)]
    requires Pool(u, m, e) && OthersKept(t', m, h, u, e, c)
    ensures Visited(s, n, g, u, m, e, c, v, symbol, loose, Content(u, e, c))
  {
    forall i {:trigger u[i]} | 0 <= i < n
      ensures u[i].value == s[i].value && u[i].parent == if i == loose != 0 then symbol else s[i].parent
    {
      assert SameContext(s[i], t[i]);
    }
    forall i {:trigger Content(u, e, i)} | 0 <= i < n && i != c ensures Content(u, e, i) == Content(s, g, i) {
      assert SameContext(s[i], t[i]);
      assert Content(u, e, i) == Content(t', h, i);
      assert h.counts[i] == h.counts[..n][i];
    }
    forall i {:trigger e.own[i]} | 0 <= i < n ensures e.own[i] == g.own[i] {
      assert e.own[i] == e.own[..m][i] == h.own[i] == h.own[..n][i];
    }
    assert e.own[symbol] == e.own[..m][symbol];
    if m == n + 1 {
      assert Content(u, e, n) == Content(t', h, n);
    }
  }

  // Context c, which meant x, has counted v (s to t) and been linked (t to u), but not been reweighed.
  ghost predicate Midway(s: seq<Symbol>, n: nat, g: Shape, t: seq<Symbol>, u: seq<Symbol>, m: nat, h: Shape,
                         c: nat, v: u8, minimum: nat, symbol: nat, loose: nat, x: Context) {
    && Pool(s, n, g) && Pool(u, m, h) && Tame(x, minimum) && loose < n
    && Room(n, g, c, v, Delta(minimum)) && Counted(s, n, g, t, m, h, c, v, Delta(minimum), symbol)
    && u == (if loose == 0 then t else t[loose := t[loose].(parent := symbol)])
    && Content(s, g, c) == x
    && Content(u, h, c) == Context(Bump(x.counts, v, Delta(minimum)), x.escapes, x.total)
  }

  lemma CountedWithin(s: seq<Symbol>, n: nat, g: Shape, t: seq<Symbol>, m: nat, h: Shape, c: nat, v: u8, d: nat,
                      symbol: nat)
    requires Pool(s, n, g) && Room(n, g, c, v, d) && Counted(s, n, g, t, m, h, c, v, d, symbol)
    ensures Pool(t, m, h) && symbol < m <= POOL && n <= m
  {
    hide Node, Root, Laminar;
  }

  lemma CountedMidway(s: seq<Symbol>, n: nat, g: Shape, t: seq<Symbol>, u: seq<Symbol>, m: nat, h: Shape,
                      c: nat, v: u8, minimum: nat, symbol: nat, loose: nat, x: Context)
    requires Pool(s, n, g) && Pool(u, m, h) && Tame(x, minimum) && loose < n && c < n
    requires Room(n, g, c, v, Delta(minimum)) && Counted(s, n, g, t, m, h, c, v, Delta(minimum), symbol)
    requires u == if loose == 0 then t else t[loose := t[loose].(parent := symbol)]
    requires Content(s, g, c) == x
    ensures Midway(s, n, g, t, u, m, h, c, v, minimum, symbol, loose, x)
    ensures c < m <= |u| && u[c].escapes == x.escapes && u[c].total == x.total
  {
    hide Node, Root, Laminar;
    assert SameContext(s[c], t[c]);
    assert h.counts[..n][c] == h.counts[c];
  }

  ghost function NamesAfter(nm: seq<Name>, m: nat, c: nat, v: u8): seq<Name>
    requires c < |nm|
  {
    if m == |nm| then nm else nm + [nm[c] + [v]]
  }

  lemma NameMet(s: seq<Symbol>, n: nat, g: Shape, nm: seq<Name>, cs: Contexts, loose: nat, c: nat, v: u8, i: nat)
    requires Pool(s, n, g) && Named(s, n, g, nm, cs, loose) && c < n && i < n && nm[i] == nm[c] + [v]
    ensures g.counts[c][v] > 0 && i > 0 && g.own[i] == c
  {
    assert NamedAt(s, n, g, nm, i);
    assert g.own[i] < i;
    assert nm[g.own[i]] == nm[i][..|nm[i]| - 1] == nm[c];
    assert Node(s, n, g, i);
    assert s[i].value == nm[i][|nm[i]| - 1] == v;
  }

  // A value never counted has no symbol, so its name is new.
  lemma NewName(s: seq<Symbol>, n: nat, g: Shape, nm: seq<Name>, cs: Contexts, loose: nat, c: nat, v: u8)
    requires Pool(s, n, g) && Named(s, n, g, nm, cs, loose) && c < n && g.counts[c][v] == 0
    ensures nm[c] + [v] !in nm && nm[c] + [v] !in cs
  {
    forall i | 0 <= i < n && nm[i] == nm[c] + [v] ensures false {
      NameMet(s, n, g, nm, cs, loose, c, v, i);
    }
  }

  lemma OldName(s: seq<Symbol>, n: nat, g: Shape, nm: seq<Name>, cs: Contexts, loose: nat, c: nat, v: u8,
                u: seq<Symbol>, m: nat, h: Shape, symbol: nat, x: Context)
    requires Named(s, n, g, nm, cs, loose) && Visited(s, n, g, u, m, h, c, v, symbol, loose, x) && m == n
    ensures nm[symbol] == nm[c] + [v]
  {
    assert NamedAt(s, n, g, nm, symbol);
  }

  lemma VisitedName(s: seq<Symbol>, n: nat, g: Shape, nm: seq<Name>, cs: Contexts, loose: nat, c: nat, v: u8,
                    u: seq<Symbol>, m: nat, h: Shape, symbol: nat, x: Context, i: nat)
    requires Named(s, n, g, nm, cs, loose) && Visited(s, n, g, u, m, h, c, v, symbol, loose, x) && 0 < i < m
    requires |nm[c]| <= ORDER
    ensures NamedAt(u, m, h, NamesAfter(nm, m, c, v), i)
  {
    if i < n {
      assert NamedAt(s, n, g, nm, i);
      assert g.own[i] < i && u[i].value == s[i].value && h.own[i] == g.own[i];
    } else {
      assert h.own[i] == c;
    }
  }

  lemma VisitedParent(s: seq<Symbol>, n: nat, g: Shape, nm: seq<Name>, cs: Contexts, loose: nat, c: nat, v: u8,
                      u: seq<Symbol>, m: nat, h: Shape, symbol: nat, x: Context, i: nat)
    requires Pool(s, n, g) && Named(s, n, g, nm, cs, loose) && Visited(s, n, g, u, m, h, c, v, symbol, loose, x)
    requires 0 < i < m
    requires loose != 0 ==> |nm[loose]| > 0 && nm[loose][1..] == nm[c] + [v]
    requires i == symbol ==> nm[c] == [] || m == n
    ensures var nm' := NamesAfter(nm, m, c, v); 0 < |nm'[i]| && ParentAt(u, m, nm', i)
  {
    if m == n { OldName(s, n, g, nm, cs, loose, c, v, u, m, h, symbol, x); }
    var nm' := NamesAfter(nm, m, c, v);
    assert nm'[symbol] == nm[c] + [v];
    if i < n {
      assert u[i].parent == if i == loose then symbol else s[i].parent;
      if i != loose { assert ParentAt(s, n, nm, i); }
    }
  }

  lemma VisitedContent(s: seq<Symbol>, n: nat, g: Shape, nm: seq<Name>, cs: Contexts, loose: nat, c: nat, v: u8,
                       u: seq<Symbol>, m: nat, h: Shape, symbol: nat, x: Context, i: nat)
    requires Pool(s, n, g) && Named(s, n, g, nm, cs, loose) && Visited(s, n, g, u, m, h, c, v, symbol, loose, x)
    requires i < m
    ensures Content(u, h, i) == Look(cs[nm[c] := x], NamesAfter(nm, m, c, v)[i])
  {
    hide Learned, Pool;
    if i == n {
      NewName(s, n, g, nm, cs, loose, c, v);
    } else if i != c {
      assert Content(s, g, i) == Look(cs, nm[i]);
      assert nm[i] != nm[c];
    }
  }

  lemma VisitedDistinct(s: seq<Symbol>, n: nat, g: Shape, nm: seq<Name>, cs: Contexts, loose: nat, c: nat, v: u8,
                        u: seq<Symbol>, m: nat, h: Shape, symbol: nat, x: Context)
    requires Pool(s, n, g) && Named(s, n, g, nm, cs, loose) && Visited(s, n, g, u, m, h, c, v, symbol, loose, x)
    ensures var nm' := NamesAfter(nm, m, c, v);
      && (forall i, j {:trigger nm'[i], nm'[j]} :: 0 <= i < j < m ==> nm'[i] != nm'[j])
      && forall e {:trigger e in cs[nm[c] := x]} :: e in cs[nm[c] := x] ==> e in nm'
  {
    if m > n { NewName(s, n, g, nm, cs, loose, c, v); }
    var nm' := NamesAfter(nm, m, c, v);
    assert nm'[c] == nm[c];
    forall e | e in cs ensures e in nm' {
      var k :| 0 <= k < n && nm[k] == e;
      assert nm'[k] == e;
    }
  }

  // The whole invariant across a visit: context c has learned v, and v's symbol is the loose end
  // unless its parent is known, because the symbol is old or because it is a root symbol.
  lemma VisitedNamed(s: seq<Symbol>, n: nat, g: Shape, nm: seq<Name>, cs: Contexts, loose: nat, c: nat, v: u8,
                     u: seq<Symbol>, m: nat, h: Shape, symbol: nat, x: Context)
    requires Pool(s, n, g) && Named(s, n, g, nm, cs, loose) && Visited(s, n, g, u, m, h, c, v, symbol, loose, x)
    requires |nm[c]| <= ORDER
    requires loose != 0 ==> |nm[loose]| > 0 && nm[loose][1..] == nm[c] + [v]
    ensures var nm' := NamesAfter(nm, m, c, v);
      && Named(u, m, h, nm', cs[nm[c] := x], if nm[c] == [] || g.counts[c][v] != 0 then 0 else symbol)
      && nm'[symbol] == nm[c] + [v]
  {
    hide Pool;
    var nm', cs' := NamesAfter(nm, m, c, v), cs[nm[c] := x];
    if m == n { OldName(s, n, g, nm, cs, loose, c, v, u, m, h, symbol, x); }
    VisitedDistinct(s, n, g, nm, cs, loose, c, v, u, m, h, symbol, x);
    forall i {:trigger NamedAt(u, m, h, nm', i)} | 0 < i < m ensures NamedAt(u, m, h, nm', i) {
      VisitedName(s, n, g, nm, cs, loose, c, v, u, m, h, symbol, x, i);
    }
    forall i {:trigger Content(u, h, i)} | 0 <= i < m ensures Content(u, h, i) == Look(cs', nm'[i]) {
      VisitedContent(s, n, g, nm, cs, loose, c, v, u, m, h, symbol, x, i);
    }
    forall i {:trigger ParentAt(u, m, nm', i)} | 0 < i < m
      && i != (if nm[c] == [] || g.counts[c][v] != 0 then 0 else symbol)
      ensures 0 < |nm'[i]| && ParentAt(u, m, nm', i)
    {
      VisitedParent(s, n, g, nm, cs, loose, c, v, u, m, h, symbol, x, i);
    }
    assert u[0].parent == s[0].parent;
  }

  // From counting, linking and reweighing to the model's own step.
  lemma MidwayReady(s: seq<Symbol>, n: nat, g: Shape, nm: seq<Name>, cs: Contexts, loose: nat, t: seq<Symbol>,
                    u: seq<Symbol>, m: nat, h: Shape, c: nat, v: u8, symbol: nat, x: Context)
    requires Named(s, n, g, nm, cs, loose) && c < n
    requires Midway(s, n, g, t, u, m, h, c, v, Minimum(nm[c]), symbol, loose, x)
    ensures Pool(u, m, h) && c < m <= |u| == POOL && m == |h.counts| && Tame(x, Minimum(nm[c]))
    ensures x.counts[v] + Delta(Minimum(nm[c])) < BYTE
    ensures Content(u, h, c) == Context(Bump(x.counts, v, Delta(Minimum(nm[c]))), x.escapes, x.total)
    ensures Minimum(nm[c]) == if c == 0 then 1 else 0
  {
    hide Node, Root, Laminar;
    assert nm[c] == [] <==> c == 0 by { assert nm[0] == []; }
  }

  lemma SettledNamed(s: seq<Symbol>, n: nat, g: Shape, nm: seq<Name>, cs: Contexts, t: seq<Symbol>, u: seq<Symbol>,
                     m: nat, h: Shape, w: seq<Symbol>, e: Shape, c: nat, v: u8, symbol: nat, loose: nat, x: Context)
    requires Named(s, n, g, nm, cs, loose) && AllTame(cs) && c < n && |nm[c]| <= ORDER && x == Look(cs, nm[c])
    requires Midway(s, n, g, t, u, m, h, c, v, Minimum(nm[c]), symbol, loose, x)
    requires Pool(w, m, e) && OthersKept(u, m, h, w, e, c) && Content(w, e, c) == Learned(x, v, Minimum(nm[c]))
    requires loose != 0 ==> |nm[loose]| > 0 && nm[loose][1..] == nm[c] + [v]
    ensures var nm' := NamesAfter(nm, m, c, v);
      && Named(w, m, e, nm', LearnIn(cs, nm[c], v), if StopsAt(cs, nm[c], v) then 0 else symbol)
      && symbol < m && nm'[symbol] == nm[c] + [v]
      && m == n + (if x.counts[v] == 0 then 1 else 0)
  {
    hide Learned, Tame, AllTame;
    VisitedBy(s, n, g, t, m, h, u, w, e, c, v, Delta(Minimum(nm[c])), symbol, loose);
    VisitedNamed(s, n, g, nm, cs, loose, c, v, w, m, e, symbol, Content(w, e, c));
    LearnInIs(cs, nm[c], v, Content(w, e, c));
  }

  lemma ParentName(s: seq<Symbol>, n: nat, g: Shape, nm: seq<Name>, cs: Contexts, loose: nat, c: nat)
    requires Named(s, n, g, nm, cs, loose) && 0 < c < n && c != loose
    ensures s[c].parent < n && nm[c] != [] && nm[s[c].parent] == nm[c][1..]
  {
    assert ParentAt(s, n, nm, c);
  }

  // Following parent links k times.
  function Up(s: seq<Symbol>, c: nat, k: nat): nat
    decreases k
  {
    if k == 0 || c >= |s| then c else Up(s, s[c].parent, k - 1)
  }

  // So the links lead to the root, in as many steps as the name has bytes, through all shorter contexts.
  lemma {:induction false} ReachesRoot(s: seq<Symbol>, n: nat, g: Shape, nm: seq<Name>, cs: Contexts, c: nat, k: nat)
    requires Named(s, n, g, nm, cs, 0) && c < n && k <= |nm[c]|
    ensures Up(s, c, k) < n && nm[Up(s, c, k)] == nm[c][k..]
    ensures k == |nm[c]| ==> Up(s, c, k) == 0
    decreases k
  {
    if k > 0 {
      assert c != 0;
      ParentName(s, n, g, nm, cs, 0, c);
      ReachesRoot(s, n, g, nm, cs, s[c].parent, k - 1);
      assert nm[c][1..][k - 1..] == nm[c][k..];
    } else if |nm[c]| == 0 {
      assert nm[c] == nm[0];
    }
  }

  // --- Climbing from the predicted context towards the root. ---

  // c is still to be visited, the loose end (if any) waits for its symbol, and what is left to
  // learn and to grow from here is what was from the start.
  ghost predicate Climbing(nm: seq<Name>, now: Contexts, next: nat, c: nat, v: u8, loose: nat, predicted: nat,
                           from: Name, cs: Contexts, n: nat) {
    && AllTame(cs) && AllTame(now) && c < next && loose < next && predicted < next == |nm|
    && (if loose == 0 then nm[c] == nm[predicted] == from
        else nm[loose] != [] && nm[loose][1..] == nm[c] + [v] && nm[predicted] == from + [v])
    && Learn(now, nm[c], v) == Learn(cs, from, v)
    && next + Grown(now, nm[c], v) == n + Grown(cs, from, v)
    && next + |nm[c]| <= n + |from| < POOL && |nm[c]| <= ORDER
  }

  // What a visit to c did, as far as the climb is concerned.
  ghost predicate Stepped(nm: seq<Name>, now: Contexts, next: nat, c: nat, v: u8, nm': seq<Name>, now': Contexts,
                          next': nat, symbol: nat)
  {
    && AllTame(now) && c < next == |nm| && next <= next' == |nm'| && symbol < next'
    && now' == LearnIn(now, nm[c], v) && nm' == NamesAfter(nm, next', c, v) && nm'[symbol] == nm[c] + [v]
    && next' == next + (if Look(now, nm[c]).counts[v] == 0 then 1 else 0)
  }

  lemma SteppedNames(nm: seq<Name>, now: Contexts, next: nat, c: nat, v: u8, nm': seq<Name>, now': Contexts,
                     next': nat, symbol: nat)
    requires Stepped(nm, now, next, c, v, nm', now', next', symbol)
    ensures c < |nm| <= |nm'| && nm'[c] == nm[c] && symbol != c && AllTame(now')
    ensures symbol < |nm'| && nm'[symbol] != []
  {
    assert nm'[c] == nm[c] != nm'[symbol];
  }

  lemma ClimbOn(nm: seq<Name>, now: Contexts, next: nat, c: nat, v: u8, loose: nat, predicted: nat, from: Name,
                cs: Contexts, n: nat, nm': seq<Name>, now': Contexts, next': nat, symbol: nat, parent: nat)
    requires Climbing(nm, now, next, c, v, loose, predicted, from, cs, n) && !StopsAt(now, nm[c], v)
    requires Stepped(nm, now, next, c, v, nm', now', next', symbol)
    requires parent < next' && nm'[parent] == nm[c][1..] && symbol != 0
    ensures Climbing(nm', now', next', parent, v, symbol, if loose == 0 then symbol else predicted, from, cs, n)
    ensures Slots(now', nm'[parent], v) == Slots(now, nm[c][1..], v)
    ensures symbol != c && |nm'[parent]| < |nm[c]|
  {
    hide Learned, Tame, AllTame;
    ShorterUnmoved(now, nm[c], now'[nm[c]], nm[c][1..], v);
    assert nm'[predicted] == nm[predicted];
    assert nm'[symbol][1..] == nm[c][1..] + [v];
    assert nm'[c] == nm[c] != nm'[symbol];
  }

  lemma ClimbEnd(nm: seq<Name>, now: Contexts, next: nat, c: nat, v: u8, loose: nat, predicted: nat, from: Name,
                 cs: Contexts, n: nat, nm': seq<Name>, now': Contexts, next': nat, symbol: nat)
    requires Climbing(nm, now, next, c, v, loose, predicted, from, cs, n) && StopsAt(now, nm[c], v)
    requires Stepped(nm, now, next, c, v, nm', now', next', symbol)
    ensures var p := if loose == 0 then symbol else predicted; p < next' && nm'[p] == from + [v]
    ensures now' == Learn(cs, from, v) && next' == n + Grown(cs, from, v)
  {
    hide Learned, Tame, AllTame;
    assert nm'[predicted] == nm[predicted];
  }

  // --- The decoder's patching: from the predicted context down to the one that knew the byte. ---

  ghost predicate Patching(nm: seq<Name>, now: Contexts, next: nat, patch: nat, v: u8, loose: nat, predicted: nat,
                           from: Name, goal: Contexts, end: nat, c: nat, bottom: nat) {
    && AllTame(now) && patch < next && loose < next && predicted < next == |nm| && c < next && 0 < bottom < next
    && |nm[c]| <= |nm[patch]| <= |from| <= ORDER && end <= POOL
    && nm[patch] == Shorten(from, |nm[patch]|) && nm[c] == Shorten(from, |nm[c]|) && nm[bottom] == nm[c] + [v]
    && (if loose == 0 then nm[patch] == nm[predicted] == from
        else nm[loose] != [] && nm[loose][1..] == nm[patch] + [v] && nm[predicted] == from + [v])
    && Unmet(now, nm[patch], |nm[c]|, v) && LearnDownTo(now, nm[patch], |nm[c]|, v) == goal
    && next + |nm[patch]| - |nm[c]| == end
  }

  lemma PatchOn(nm: seq<Name>, now: Contexts, next: nat, patch: nat, v: u8, loose: nat, predicted: nat, from: Name,
                goal: Contexts, end: nat,
                c: nat, bottom: nat, nm': seq<Name>, now': Contexts, next': nat, symbol: nat, parent: nat)
    requires Patching(nm, now, next, patch, v, loose, predicted, from, goal, end, c, bottom) && |nm[patch]| > |nm[c]|
    requires Stepped(nm, now, next, patch, v, nm', now', next', symbol)
    requires parent < next' && nm'[patch] != [] && nm'[parent] == nm'[patch][1..] && symbol != 0
    ensures Patching(nm', now', next', parent, v, symbol, if loose == 0 then symbol else predicted, from, goal, end,
      c, bottom)
    ensures symbol != patch && |nm'[parent]| < |nm[patch]|
  {
    hide Learned, Tame, AllTame;
    UnmetUnmoved(now, nm[patch], now'[nm[patch]], nm[patch][1..], |nm[c]|, v);
    ShortenTail(from, |nm[patch]|);
    assert nm'[predicted] == nm[predicted] && nm'[c] == nm[c] && nm'[bottom] == nm[bottom];
    assert nm'[symbol][1..] == nm[patch][1..] + [v];
    assert nm'[patch] == nm[patch] != nm'[symbol];
  }

  lemma {:induction false} ShortenTail(c: Name, stop: nat)
    requires 0 < stop <= |c|
    ensures |Shorten(c, stop)| == stop && Shorten(c, stop - 1) == Shorten(c, stop)[1..]
    decreases |c|
  {
    if |c| > stop { ShortenTail(c[1..], stop); }
  }

  // The last link closes the chain.
  lemma LinkBottom(s: seq<Symbol>, n: nat, g: Shape, nm: seq<Name>, cs: Contexts, loose: nat, bottom: nat,
                   t: seq<Symbol>)
    requires Named(s, n, g, nm, cs, loose) && n <= |t| && bottom < n && 0 < loose < n
    requires nm[loose] != [] && nm[bottom] == nm[loose][1..]
    requires t == s[loose := s[loose].(parent := t[loose].parent)] && t[loose].parent == bottom
    ensures Named(t, n, g, nm, cs, 0)
  {
    forall i {:trigger NamedAt(t, n, g, nm, i)} | 0 < i < n ensures NamedAt(t, n, g, nm, i) {
      assert NamedAt(s, n, g, nm, i);
    }
    forall i {:trigger Content(t, g, i)} | 0 <= i < n ensures Content(t, g, i) == Look(cs, nm[i]) {
      assert Content(s, g, i) == Look(cs, nm[i]);
    }
    forall i {:trigger ParentAt(t, n, nm, i)} | 0 < i < n ensures 0 < |nm[i]| && ParentAt(t, n, nm, i) {
      if i != loose { assert ParentAt(s, n, nm, i); }
    }
  }

  // What was learned and grown at the context that knew the byte, and what patching has still to add.
  lemma PatchStart(nm: seq<Name>, now: Contexts, next: nat, predicted: nat, c: nat, v: u8, nm': seq<Name>,
                   now': Contexts, next': nat, bottom: nat)
    requires Stepped(nm, now, next, c, v, nm', now', next', bottom) && predicted < next && bottom != 0
    requires |nm[c]| <= |nm[predicted]| <= ORDER && next + |nm[predicted]| < POOL
    requires Unmet(now, nm[predicted], |nm[c]|, v) && nm[c] == Shorten(nm[predicted], |nm[c]|) && StopsAt(now, nm[c], v)
    ensures nm'[predicted] == nm[predicted]
    ensures Patching(nm', now', next', predicted, v, 0, predicted, nm[predicted], Learn(now, nm[predicted], v),
                     next + Grown(now, nm[predicted], v), c, bottom)
  {
    hide Learned, Tame, AllTame;
    var from, stop := nm[predicted], |nm[c]|;
    PatchOrder(now, from, stop, v);
    UnmetGrown(now, from, stop, v);
    UnmetUnmoved(now, nm[c], now'[nm[c]], from, stop, v);
    UnmetHere(now, from, v);
    assert nm'[predicted] == nm[predicted] && nm'[c] == nm[c];
  }
}
