/** What the compressor remembers of a text: the contexts, weights and pool of ContextModel, told by the text
    alone. */
module ContextHistory {
  import opened Words
  import opened Numbers
  import opened RangeInterval
  import opened ContextCounts
  import opened ContextModel

  type Text = seq<u8>

  function Tail(r: Text): Name { if |r| <= 2 then r else r[|r| - 2..] }

  predicate Ends(r: Text, c: Name) { |c| <= |r| && r[|r| - |c|..] == c }

  // A byte v behind c and behind all that c ends in.
  function Behind(c: Name, v: u8): set<Text>
    decreases |c|
  {
    {c + [v]} + if c == [] then {} else Behind(c[1..], v)
  }

  // The strings of one to three bytes in a text.
  function Strings(r: Text): set<Text> {
    if r == [] then {} else Strings(r[..|r| - 1]) + Behind(Tail(r[..|r| - 1]), r[|r| - 1])
  }

  lemma {:induction false} BehindIs(c: Name, v: u8)
    ensures forall w: Text {:trigger w in Behind(c, v)} :: w in Behind(c, v) <==> 0 < |w| <= |c| + 1 && Ends(c + [v], w)
    decreases |c|
  {
    if c != [] {
      BehindIs(c[1..], v);
      forall w: Text ensures w in Behind(c, v) <==> 0 < |w| <= |c| + 1 && Ends(c + [v], w) {
        assert w in Behind(c, v) <==> w == c + [v] || w in Behind(c[1..], v);
        var a, b := c + [v], c[1..] + [v];
        assert a[1..] == b;
        if 0 < |w| <= |c| { assert a[|a| - |w|..] == b[|b| - |w|..]; }
        if |w| == |c| + 1 { assert a[|a| - |w|..] == a; }
      }
    } else {
      forall w: Text ensures w in Behind(c, v) <==> 0 < |w| <= |c| + 1 && Ends(c + [v], w) {
        assert Behind(c, v) == {c + [v]};
        if |w| == 1 { assert (c + [v])[0..] == c + [v]; }
      }
    }
  }

  ghost predicate Occurs(r: Text, w: Text) { exists i :: 0 <= i <= |r| && Ends(r[..i], w) }

  lemma OccursMore(r: Text, v: u8, w: Text)
    ensures Occurs(r + [v], w) <==> Occurs(r, w) || Ends(r + [v], w)
  {
    var t := r + [v];
    assert forall i :: 0 <= i <= |r| ==> t[..i] == r[..i];
    assert t[..|t|] == t;
    hide Ends;
    if Occurs(r, w) {
      var i :| 0 <= i <= |r| && Ends(r[..i], w);
      assert Ends(t[..i], w);
    }
    if Ends(t, w) { assert Ends(t[..|t|], w); }
  }

  // They are what their name says.
  lemma {:induction false} StringsAre(r: Text, w: Text)
    ensures w in Strings(r) <==> 0 < |w| <= 3 && Occurs(r, w)
    decreases |r|
  {
    if r == [] {
      assert r[..0] == [];
    } else {
      hide Ends, Occurs, Behind, Tail;
      var front, v := r[..|r| - 1], r[|r| - 1];
      assert r == front + [v];
      StringsAre(front, w);
      TailLength(front);
      BehindIs(Tail(front), v);
      OccursMore(front, v, w);
      if 0 < |w| <= 3 { EndsTail(front, v, w); }
    }
  }

  lemma TailLength(r: Text)
    ensures |Tail(r)| <= 2 && |Tail(r)| <= |r|
  {
  }

  lemma EndsTail(r: Text, v: u8, w: Text)
    requires 0 < |w| <= 3
    ensures Ends(r + [v], w) <==> |w| <= |Tail(r)| + 1 && Ends(Tail(r) + [v], w)
  {
    var a, b := r + [v], Tail(r) + [v];
    assert a[|a| - |b|..] == b;
    if |w| <= |b| { assert a[|a| - |w|..] == b[|b| - |w|..]; }
  }

  // --- The state that a text leads to. ---

  ghost function Reached(text: Text): (m: Model)
    ensures Sane(m)
  {
    if text == [] then BlankSane(); BLANK else After(Reached(text[..|text| - 1]), text[|text| - 1])
  }

  // The part of a text that counts: all of it, until its strings would leave fewer than two symbols of the
  // pool to spare.
  ghost function Since(text: Text): Text {
    if text == [] then []
    else
      var r := Since(text[..|text| - 1]) + [text[|text| - 1]];
      if 1 + |Strings(r)| >= 4096 - 2 then [] else r
  }

  ghost predicate Known(cs: Contexts, c: Name, v: u8) { Look(cs, c).counts[v] > 0 }

  // What a context knows all that it ends in know.
  ghost predicate Closed(cs: Contexts, c: Name, v: u8)
    decreases |c|
  {
    c == [] || ((Known(cs, c, v) ==> Known(cs, c[1..], v)) && Closed(cs, c[1..], v))
  }

  // The contexts that coding v in c goes through: down to the first that knows it.
  ghost predicate Visited(cs: Contexts, c: Name, b: Name, v: u8)
    decreases |c|
  {
    b == c || (!StopsAt(cs, c, v) && Visited(cs, c[1..], b, v))
  }

  lemma {:induction false} VisitedEnds(cs: Contexts, c: Name, b: Name, v: u8)
    requires Visited(cs, c, b, v)
    ensures Ends(c, b)
    decreases |c|
  {
    if b != c {
      VisitedEnds(cs, c[1..], b, v);
      assert c[|c| - |b|..] == c[1..][|c| - 1 - |b|..];
    } else {
      assert c[0..] == c;
    }
  }

  lemma {:induction false} VisitedUnmoved(cs: Contexts, d: Name, x: Context, c: Name, b: Name, v: u8)
    requires |d| > |c|
    ensures Visited(cs[d := x], c, b, v) == Visited(cs, c, b, v)
    decreases |c|
  {
    assert Look(cs[d := x], c) == Look(cs, c);
    if !StopsAt(cs, c, v) { VisitedUnmoved(cs, d, x, c[1..], b, v); }
  }

  // Those learn it, and no others.
  lemma {:induction false} LearnLooks(cs: Contexts, c: Name, v: u8, b: Name)
    requires AllTame(cs)
    ensures Tame(Look(cs, b), Minimum(b))
    ensures Look(Learn(cs, c, v), b) ==
      if Visited(cs, c, b, v) then Learned(Look(cs, b), v, Minimum(b)) else Look(cs, b)
    decreases |c|
  {
    hide Learned, Tame;
    var x := LearnIn(cs, c, v)[c];
    if !StopsAt(cs, c, v) {
      LearnLooks(LearnIn(cs, c, v), c[1..], v, b);
      VisitedUnmoved(cs, c, x, c[1..], b, v);
      if b == c && Visited(cs, c[1..], b, v) { VisitedEnds(cs, c[1..], b, v); }
    }
  }

  // --- Which bytes a context knows, and how much of the pool is used. ---

  // c knows v if v has followed it, and the pool has one symbol for each string of up to three bytes.
  ghost predicate Remembers(m: Model, r: Text) {
    && Sane(m) && m.predicted == Tail(r) && m.next == 1 + |Strings(r)|
    && forall c: Name, v: u8 {:trigger Known(m.contexts, c, v)} :: |c| <= 2 ==>
      (Known(m.contexts, c, v) <==> c + [v] in Strings(r))
  }

  ghost predicate Matches(cs: Contexts, s: set<Text>, c: Name, v: u8)
    decreases |c|
  {
    (Known(cs, c, v) <==> c + [v] in s) && (c != [] ==> Matches(cs, s, c[1..], v))
  }

  lemma {:induction false} StringsClosed(r: Text, w: Text)
    requires w in Strings(r) && |w| > 1
    ensures w[1..] in Strings(r)
  {
    StringsAre(r, w);
    StringsAre(r, w[1..]);
    var i :| 0 <= i <= |r| && Ends(r[..i], w);
    assert r[..i][i - |w|..][1..] == r[..i][i - (|w| - 1)..];
    assert Ends(r[..i], w[1..]);
  }

  lemma {:induction false} MatchesAll(m: Model, r: Text, c: Name, v: u8)
    requires Remembers(m, r) && |c| <= 2
    ensures Matches(m.contexts, Strings(r), c, v) && Closed(m.contexts, c, v)
    decreases |c|
  {
    if c != [] {
      MatchesAll(m, r, c[1..], v);
      if c + [v] in Strings(r) {
        StringsClosed(r, c + [v]);
        assert (c + [v])[1..] == c[1..] + [v];
      }
    }
  }

  lemma {:induction false} MatchesUnmoved(cs: Contexts, d: Name, x: Context, s: set<Text>, c: Name, v: u8)
    requires |d| > |c|
    ensures Matches(cs[d := x], s, c, v) == Matches(cs, s, c, v) && Closed(cs[d := x], c, v) == Closed(cs, c, v)
    decreases |c|
  {
    assert Look(cs[d := x], c) == Look(cs, c);
    if c != [] {
      assert Look(cs[d := x], c[1..]) == Look(cs, c[1..]);
      MatchesUnmoved(cs, d, x, s, c[1..], v);
    }
  }

  // A context that knows v has nothing new behind it.
  lemma {:induction false} KnownBehind(cs: Contexts, s: set<Text>, c: Name, v: u8)
    requires Matches(cs, s, c, v) && Closed(cs, c, v) && Known(cs, c, v)
    ensures Behind(c, v) <= s
    decreases |c|
  {
    if c != [] { KnownBehind(cs, s, c[1..], v); }
  }

  // As many symbols are created as there are new strings.
  lemma {:induction false} GrownIs(cs: Contexts, s: set<Text>, c: Name, v: u8)
    requires Matches(cs, s, c, v) && Closed(cs, c, v)
    ensures |s + Behind(c, v)| == |s| + Grown(cs, c, v)
    decreases |c|
  {
    if Known(cs, c, v) {
      KnownBehind(cs, s, c, v);
      assert s + Behind(c, v) == s;
    } else if c == [] {
      assert s + Behind(c, v) == s + {c + [v]} && c + [v] !in s;
    } else {
      GrownIs(cs, s, c[1..], v);
      NotBehind(c, v);
      NewOne(s, Behind(c[1..], v), c + [v]);
    }
  }

  // The longest string is none of the shorter contexts'.
  lemma NotBehind(c: Name, v: u8)
    requires c != []
    ensures Behind(c, v) == {c + [v]} + Behind(c[1..], v) && c + [v] !in Behind(c[1..], v)
  {
    BehindIs(c[1..], v);
  }

  lemma NewOne(s: set<Text>, b: set<Text>, x: Text)
    requires x !in s && x !in b
    ensures |s + ({x} + b)| == |s + b| + 1
  {
    assert s + ({x} + b) == s + b + {x};
  }

  // A context known with all it ends in, or visited, is one behind which v stands now.
  lemma {:induction false} VisitedOrKnown(cs: Contexts, s: set<Text>, c: Name, b: Name, v: u8)
    requires Matches(cs, s, c, v) && Closed(cs, c, v)
    ensures b + [v] in s + Behind(c, v) <==> Visited(cs, c, b, v) || b + [v] in s
    decreases |c|
  {
    if b != c {
      assert b + [v] != c + [v] by { assert (b + [v])[..|b|] == b && (c + [v])[..|c|] == c; }
      if Known(cs, c, v) {
        KnownBehind(cs, s, c, v);
      } else if c != [] {
        VisitedOrKnown(cs, s, c[1..], b, v);
      }
    }
  }

  lemma BlankRemembers()
    ensures Remembers(BLANK, [])
  {
    BlankSane();
    forall c: Name, v: u8 {:trigger Known(BLANK.contexts, c, v)} | |c| <= 2 ensures !Known(BLANK.contexts, c, v) {}
  }

  lemma StringsNext(r: Text, v: u8)
    ensures Strings(r + [v]) == Strings(r) + Behind(Tail(r), v)
  {
    assert (r + [v])[..|r|] == r;
  }

  lemma TailNext(r: Text, v: u8)
    ensures ContextModel.Recent(Tail(r), v) == Tail(r + [v])
  {
  }

  // Learning leaves a context that knows something knowing it.
  lemma LearnedKnows(x: Context, v: u8, minimum: nat, w: u8)
    requires Tame(x, minimum)
    ensures Learned(x, v, minimum).counts[w] > 0 <==> x.counts[w] > 0 || w == v
  {
    LearnedIs(x, v, minimum);
    var d, e := if minimum == 0 then 2 else 3, if minimum == 0 && x.counts[v] == 0 then 5 else 0;
    var k := x.counts[v := x.counts[v] + d];
    RescaledIs(k, x.escapes + e, minimum);
    hide Learned, Rescaled, Tame, Due;
    assert k[w] == if w == v then x.counts[v] + d else x.counts[w];
  }

  lemma LearnRemembers(m: Model, r: Text, v: u8, c: Name, w: u8)
    requires Remembers(m, r) && |c| <= 2
    ensures Known(Learn(m.contexts, m.predicted, v), c, w) <==> c + [w] in Strings(r + [v])
  {
    var cs, p := m.contexts, m.predicted;
    LearnLooks(cs, p, v, c);
    if Visited(cs, p, c, v) { LearnedKnows(Look(cs, c), v, Minimum(c), w); }
    hide Learn, Learned, Tame, Strings, Visited;
    MatchesAll(m, r, p, v);
    VisitedOrKnown(cs, Strings(r), p, c, v);
    StringsNext(r, v);
    assert Known(cs, c, w) <==> c + [w] in Strings(r);
    if w != v {
      BehindIs(p, v);
      assert c + [w] !in Behind(p, v) by { assert (c + [w])[|c|] == w; OtherEnd(p, v, c, w); }
    }
  }

  lemma OtherEnd(p: Name, v: u8, c: Name, w: u8)
    requires v != w
    ensures !Ends(p + [v], c + [w])
  {
    var a, b := p + [v], c + [w];
    if |b| <= |a| { assert a[|a| - |b|..][|b| - 1] == a[|a| - 1]; }
  }

  // A byte more: the pool is cleared exactly where too few symbols would be left to spare.
  lemma AfterRemembers(m: Model, r: Text, v: u8)
    requires Remembers(m, r)
    ensures var t := r + [v];
      if 1 + |Strings(t)| >= 4096 - 2 then After(m, v) == BLANK else Remembers(After(m, v), t)
  {
    hide Learn, Strings, Grown, Known, Behind, AllTame, Matches, Closed, Tail, Recent;
    MatchesAll(m, r, m.predicted, v);
    GrownIs(m.contexts, Strings(r), m.predicted, v);
    StringsNext(r, v);
    TailNext(r, v);
    forall c: Name, w: u8 {:trigger Known(Learn(m.contexts, m.predicted, v), c, w)} | |c| <= 2
      ensures Known(Learn(m.contexts, m.predicted, v), c, w) <==> c + [w] in Strings(r + [v])
    {
      LearnRemembers(m, r, v, c, w);
    }
  }

  // What any text leaves behind.
  lemma {:induction false} ReachedRemembers(text: Text)
    ensures Remembers(Reached(text), Since(text))
    decreases |text|
  {
    if text == [] {
      BlankRemembers();
    } else {
      var front := text[..|text| - 1];
      ReachedRemembers(front);
      AfterRemembers(Reached(front), Since(front), text[|text| - 1]);
      BlankRemembers();
    }
  }

  lemma {:induction false} StringsFew(r: Text)
    ensures |Strings(r)| <= 3 * |r|
    decreases |r|
  {
    if r != [] {
      StringsFew(r[..|r| - 1]);
      BehindFew(Tail(r[..|r| - 1]), r[|r| - 1]);
    }
  }

  lemma {:induction false} BehindFew(c: Name, v: u8)
    ensures |Behind(c, v)| <= |c| + 1
    decreases |c|
  {
    if c != [] { BehindFew(c[1..], v); }
  }

  // Of a short text nothing is forgotten.
  lemma {:induction false} ShortKept(text: Text)
    requires 1 + 3 * |text| < 4096 - 2
    ensures Since(text) == text
    decreases |text|
  {
    if text != [] {
      ShortKept(text[..|text| - 1]);
      assert text == text[..|text| - 1] + [text[|text| - 1]];
      StringsFew(text);
    }
  }

  // --- Weights, until the first are halved. ---

  // v, coming behind r, is counted in c: c ends the text, and nothing longer that does has been followed by v.
  ghost predicate Counts(r: Text, c: Name, v: u8) {
    |c| <= 2 && Ends(r, c) && forall d: Name :: |c| < |d| <= 2 && Ends(r, d) ==> d + [v] !in Strings(r)
  }

  // How often v has been counted in c, and anything.
  ghost function Times(r: Text, c: Name, v: u8): nat {
    if r == [] then 0
    else
      var front, w := r[..|r| - 1], r[|r| - 1];
      Times(front, c, v) + if w == v && Counts(front, c, v) then 1 else 0
  }

  ghost function AllTimes(r: Text, c: Name): nat {
    if r == [] then 0
    else AllTimes(r[..|r| - 1], c) + if Counts(r[..|r| - 1], c, r[|r| - 1]) then 1 else 0
  }

  // How many values have followed c.
  ghost function Kinds(r: Text, c: Name): nat { |Followers(r, c)| }

  ghost function Followers(r: Text, c: Name): set<u8> { set v: u8 | 0 <= v < 256 && c + [v] in Strings(r) }

  // Counting v in c would outgrow the fields of the weights.
  ghost predicate Heavy(r: Text, c: Name, v: u8) {
    if c == [] then 3 * Times(r, c, v) > 249 || 257 + 3 * AllTimes(r, c) + 3 > 65280
    else
      || 2 * Times(r, c, v) > 251
      || 5 * Kinds(r, c) + 2 * AllTimes(r, c) + 2 + (if c + [v] in Strings(r) then 0 else 5) > 65280
  }

  ghost predicate Light(r: Text) {
    r == []
    || (Light(r[..|r| - 1]) && LightStep(r[..|r| - 1], r[|r| - 1]))
  }

  ghost predicate LightStep(r: Text, v: u8) { forall c: Name :: Counts(r, c, v) ==> !Heavy(r, c, v) }

  ghost predicate WeighedAt(cs: Contexts, r: Text, c: Name) {
    var x := Look(cs, c);
    if c == []
    then x.escapes == 1 && x.total == 257 + 3 * AllTimes(r, c) && forall v: u8 :: x.counts[v] == 3 * Times(r, c, v)
    else
      && x.escapes == 5 * Kinds(r, c) && x.total == 5 * Kinds(r, c) + 2 * AllTimes(r, c)
      && forall v: u8 :: x.counts[v] == 2 * Times(r, c, v)
  }

  // In the root each time weighs 3, in the other contexts 2, and each value known there 5 for an escape.
  ghost predicate Weighed(m: Model, r: Text) {
    forall c: Name {:trigger WeighedAt(m.contexts, r, c)} :: |c| <= 2 ==> WeighedAt(m.contexts, r, c)
  }

  lemma {:induction false} VisitedWhere(cs: Contexts, s: set<Text>, c: Name, b: Name, v: u8)
    requires Matches(cs, s, c, v)
    ensures Visited(cs, c, b, v) <==> Ends(c, b) && forall d: Name :: |b| < |d| && Ends(c, d) ==> d + [v] !in s
    decreases |c|
  {
    assert c[0..] == c;
    if b != c {
      if c != [] {
        VisitedWhere(cs, s, c[1..], b, v);
        assert forall d: Name :: |d| < |c| ==> (Ends(c, d) <==> Ends(c[1..], d)) by {
          forall d: Name | |d| < |c| ensures Ends(c, d) <==> Ends(c[1..], d) {
            assert c[|c| - |d|..] == c[1..][|c| - 1 - |d|..];
          }
        }
        assert forall d: Name :: Ends(c, d) && |d| >= |c| ==> d == c;
      }
    }
  }

  lemma CountsWhere(m: Model, r: Text, c: Name, v: u8)
    requires Remembers(m, r)
    ensures Counts(r, c, v) <==> Visited(m.contexts, m.predicted, c, v)
  {
    MatchesAll(m, r, m.predicted, v);
    VisitedWhere(m.contexts, Strings(r), m.predicted, c, v);
    hide Visited, Strings, Matches;
    forall d: Name | |d| <= 2 ensures Ends(r, d) <==> Ends(Tail(r), d) {
      if |d| <= |Tail(r)| { assert Tail(r)[|Tail(r)| - |d|..] == r[|r| - |d|..]; }
    }
  }

  lemma TimesNext(r: Text, c: Name, v: u8)
    ensures var t, here := r + [v], Counts(r, c, v);
      && AllTimes(t, c) == AllTimes(r, c) + (if here then 1 else 0)
      && forall w: u8 :: Times(t, c, w) == Times(r, c, w) + if w == v && here then 1 else 0
  {
    assert (r + [v])[..|r|] == r;
  }

  lemma OtherStrings(r: Text, v: u8, c: Name, w: u8)
    requires w != v
    ensures c + [w] in Strings(r + [v]) <==> c + [w] in Strings(r)
  {
    StringsNext(r, v);
    BehindIs(Tail(r), v);
    OtherEnd(Tail(r), v, c, w);
    hide Strings, Behind, Ends;
  }

  lemma KindsNext(r: Text, v: u8, c: Name)
    ensures var t := r + [v];
      Kinds(t, c) == Kinds(r, c) + if c + [v] in Strings(t) && c + [v] !in Strings(r) then 1 else 0
  {
    hide Strings;
    var t := r + [v];
    StringsNext(r, v);
    forall w: u8 | w != v ensures w in Followers(t, c) <==> w in Followers(r, c) { OtherStrings(r, v, c, w); }
    assert v in Followers(r, c) <==> c + [v] in Strings(r);
    assert v in Followers(t, c) <==> c + [v] in Strings(t);
    hide Followers;
    if v in Followers(t, c) && v !in Followers(r, c) {
      assert Followers(t, c) == Followers(r, c) + {v};
    } else {
      assert Followers(t, c) == Followers(r, c);
    }
  }

  // A context in which v is counted.
  lemma WeighCounted(x: Context, r: Text, v: u8, c: Name, y: Context)
    requires Tame(x, Minimum(c)) && Counts(r, c, v) && !Heavy(r, c, v) && y == Learned(x, v, Minimum(c))
    requires c + [v] in Strings(r + [v]) && (c != [] ==> (x.counts[v] > 0 <==> c + [v] in Strings(r)))
    requires WeighedAt(map[c := x], r, c)
    ensures WeighedAt(map[c := y], r + [v], c)
  {
    LearnedIs(x, v, Minimum(c));
    TimesNext(r, c, v);
    KindsNext(r, v, c);
    hide Counts, Times, AllTimes, Kinds, Learned, Tame, Strings;
  }

  lemma WeighedSame(cs: Contexts, r: Text, c: Name)
    ensures WeighedAt(cs, r, c) == WeighedAt(map[c := Look(cs, c)], r, c)
  {
    hide Times, AllTimes, Kinds;
  }

  lemma WeighNext(m: Model, r: Text, v: u8, c: Name)
    requires Remembers(m, r) && Weighed(m, r) && LightStep(r, v) && |c| <= 2
    ensures WeighedAt(Learn(m.contexts, m.predicted, v), r + [v], c)
  {
    hide Learn, Learned, Tame, Counts, Times, AllTimes, Kinds, Heavy, Strings, Visited;
    var cs, p, t := m.contexts, m.predicted, r + [v];
    var x, y := Look(cs, c), Look(Learn(cs, p, v), c);
    LearnLooks(cs, p, v, c);
    CountsWhere(m, r, c, v);
    MatchesAll(m, r, p, v);
    VisitedOrKnown(cs, Strings(r), p, c, v);
    StringsNext(r, v);
    TimesNext(r, c, v);
    KindsNext(r, v, c);
    assert WeighedAt(cs, r, c) && (Known(cs, c, v) <==> c + [v] in Strings(r));
    WeighedSame(cs, r, c);
    WeighedSame(Learn(cs, p, v), t, c);
    if Counts(r, c, v) {
      WeighCounted(x, r, v, c, y);
    }
  }

  lemma BlankWeighed()
    ensures Weighed(BLANK, [])
  {
    forall c: Name {:trigger WeighedAt(BLANK.contexts, [], c)} | |c| <= 2 ensures WeighedAt(BLANK.contexts, [], c) {
      assert Followers([], c) == {};
    }
  }

  // The weights that any text leaves behind, before any has been halved.
  lemma {:induction false} ReachedWeighed(text: Text)
    requires Light(Since(text))
    ensures Weighed(Reached(text), Since(text))
    decreases |text|
  {
    BlankWeighed();
    if text != [] {
      var front, v := text[..|text| - 1], text[|text| - 1];
      var m, r := Reached(front), Since(front);
      ReachedRemembers(front);
      AfterRemembers(m, r, v);
      if Since(text) != [] {
        assert (r + [v])[..|r|] == r && (r + [v])[|r|] == v;
        ReachedWeighed(front);
        WeighLearnt(m, r, v);
      }
    }
  }

  lemma AfterLearnt(m: Model, v: u8)
    requires Sane(m) && After(m, v) != BLANK
    ensures After(m, v).contexts == Learn(m.contexts, m.predicted, v)
  {
    hide AllTame, Learn, Grown, Recent;
  }

  lemma WeighLearnt(m: Model, r: Text, v: u8)
    requires Remembers(m, r) && Sane(m) && Weighed(m, r) && LightStep(r, v) && After(m, v) != BLANK
    ensures Weighed(After(m, v), r + [v])
  {
    hide Learn, Strings, WeighedAt, LightStep, Remembers, After, AllTame;
    var t := After(m, v);
    AfterLearnt(m, v);
    forall c: Name {:trigger WeighedAt(t.contexts, r + [v], c)} | |c| <= 2 ensures WeighedAt(t.contexts, r + [v], c) {
      WeighNext(m, r, v, c);
    }
  }

  lemma {:induction false} TimesFew(r: Text, c: Name, v: u8)
    ensures Times(r, c, v) <= AllTimes(r, c) <= |r|
    decreases |r|
  {
    if r != [] { TimesFew(r[..|r| - 1], c, v); }
  }

  lemma {:induction false} KindsFew(r: Text, c: Name)
    ensures Kinds(r, c) <= 3 * |r|
  {
    StringsFew(r);
    var behind := set v: u8 | 0 <= v < 256 && c + [v] in Strings(r) :: c + [v];
    assert behind <= Strings(r);
    SubsetSize(behind, Strings(r));
    FollowersFew(Followers(r, c), behind, c);
  }

  lemma {:induction false} FollowersFew(s: set<u8>, t: set<Text>, c: Name)
    requires forall v :: v in s ==> c + [v] in t
    ensures |s| <= |t|
    decreases |s|
  {
    if s != {} {
      var v :| v in s;
      forall w | w in s - {v} ensures c + [w] in t - {c + [v]} { assert (c + [w])[|c|] == w && (c + [v])[|c|] == v; }
      FollowersFew(s - {v}, t - {c + [v]}, c);
    }
  }

  // No weight is halved for the first 84 bytes.
  lemma {:induction false} ShortLight(r: Text)
    requires |r| <= 84
    ensures Light(r)
    decreases |r|
  {
    if r != [] {
      var front, v := r[..|r| - 1], r[|r| - 1];
      ShortLight(front);
      hide Counts, Times, AllTimes, Kinds, Strings;
      forall c: Name | Counts(front, c, v) ensures !Heavy(front, c, v) {
        TimesFew(front, c, v);
        KindsFew(front, c);
      }
    }
  }

  // --- What is written. ---

  // All that is written for a text is what each byte costs after those before it.
  lemma SlotsAfter(text: Text, v: u8)
    ensures Sane(BLANK)
    ensures AllSlots(BLANK, text + [v]) ==
      AllSlots(BLANK, text) + Slots(Reached(text).contexts, Reached(text).predicted, v)
  {
    hide Slots, After, AllTame, Reached, AllSlots;
    BlankSane();
    ReachedStart();
    SlotsFrom([], text, v);
    assert [] + text == text;
  }

  lemma ReachedStart()
    ensures Reached([]) == BLANK
  {
  }

  lemma ReachedNext(done: Text, u: u8)
    ensures Reached(done + [u]) == After(Reached(done), u)
  {
    assert (done + [u])[..|done|] == done;
  }

  lemma AllSlotsFirst(m: Model, text: Text)
    requires Sane(m) && text != []
    ensures AllSlots(m, text) == Slots(m.contexts, m.predicted, text[0]) + AllSlots(After(m, text[0]), text[1..])
  {
  }

  lemma {:induction false} SlotsFrom(done: Text, text: Text, v: u8)
    ensures AllSlots(Reached(done), text + [v]) ==
      AllSlots(Reached(done), text) + Slots(Reached(done + text).contexts, Reached(done + text).predicted, v)
    decreases |text|
  {
    hide Slots, After, AllTame, Reached, AllSlots, Sane;
    var m := Reached(done);
    AllSlotsFirst(m, text + [v]);
    if text == [] {
      assert [] + [v] == [v] && [v][1..] == [] && done + [] == done;
      NoSlots(After(m, v));
      NoSlots(m);
    } else {
      var u := text[0];
      AllSlotsFirst(m, text);
      ReachedNext(done, u);
      assert (text + [v])[1..] == text[1..] + [v];
      SlotsFrom(done + [u], text[1..], v);
      assert done + [u] + text[1..] == done + text;
    }
  }

  lemma NoSlots(m: Model)
    requires Sane(m)
    ensures AllSlots(m, []) == []
  {
  }

  // In a context c that ends the text, v costs one slot if it has followed c or c is empty, and otherwise an
  // escape, where anything has followed c, and what it costs in the next shorter context.
  lemma CostIn(m: Model, r: Text, c: Name, v: u8)
    requires Remembers(m, r) && |c| <= 2
    ensures var cs := m.contexts;
      Slots(cs, c, v) ==
        if c == [] || c + [v] in Strings(r) then [SlotFor(Look(cs, c), v, Minimum(c))]
        else (if Followers(r, c) != {} then [EscapeSlot(Look(cs, c))] else []) + Slots(cs, c[1..], v)
  {
    var x := Look(m.contexts, c);
    assert Known(m.contexts, c, v) <==> c + [v] in Strings(r);
    assert Tame(x, Minimum(c));
    if c != [] {
      forall w: u8 ensures x.counts[w] > 0 <==> w in Followers(r, c) {
        assert Known(m.contexts, c, w) <==> c + [w] in Strings(r);
      }
      if Followers(r, c) != {} { var w :| w in Followers(r, c); }
    }
  }

  // --- One text, to the byte. ---

  lemma TwoZeroSlots()
    ensures Sane(BLANK) && AllSlots(BLANK, [0, 0]) == [Slot(1, 1, 257), Slot(1, 4, 260)]
  {
    hide Slots, AllSlots, Reached, AllTame;
    BlankSane();
    NoSlots(BLANK);
    assert [] + [0] == [0] && [0] + [0] == [0, 0];
    SlotsAfter([], 0);
    SlotsAfter([0], 0);
    FirstZero();
    SecondZero();
    assert [] + [Slot(1, 1, 257)] + [Slot(1, 4, 260)] == [Slot(1, 1, 257), Slot(1, 4, 260)];
  }

  lemma Settles(r: Text)
    requires |r| <= 84
    ensures Remembers(Reached(r), r) && Weighed(Reached(r), r)
  {
    hide Remembers, Weighed, Reached, Light, Since;
    ShortKept(r);
    ShortLight(r);
    ReachedRemembers(r);
    ReachedWeighed(r);
  }

  // A byte that nothing has been coded before in the root.
  lemma RootSlot(m: Model, r: Text, v: u8)
    requires Remembers(m, r) && Weighed(m, r) && (forall w: u8 :: w < v ==> Times(r, [], w) == 0)
    ensures Slots(m.contexts, [], v) == [Slot(1 + v, 3 * Times(r, [], v) + 1, 257 + 3 * AllTimes(r, []))]
  {
    hide Strings, Times, AllTimes, Followers, Kinds;
    CostIn(m, r, [], v);
    assert WeighedAt(m.contexts, r, []);
    var x := Look(m.contexts, []);
    BelowFlat(x.counts, 0, v);
  }

  lemma FirstZero()
    ensures Slots(Reached([]).contexts, Reached([]).predicted, 0) == [Slot(1, 1, 257)]
  {
    hide Slots, Reached, Strings;
    Settles([]);
    RootSlot(Reached([]), [], 0);
    assert Tail([]) == [];
  }

  // In the context of the first byte nothing has come yet.
  lemma SecondZero()
    ensures Slots(Reached([0]).contexts, Reached([0]).predicted, 0) == [Slot(1, 4, 260)]
  {
    hide Slots, Reached, Strings, Times, AllTimes;
    var r: Text := [0];
    Settles(r);
    OneZero();
    CostIn(Reached(r), r, [0], 0);
    RootSlot(Reached(r), r, 0);
    assert [0][1..] == [] && [] + Slots(Reached(r).contexts, [], 0) == Slots(Reached(r).contexts, [], 0);
  }

  lemma OneZero()
    ensures Strings([0]) == {[0]} && Tail([0]) == [0] && [0] + [0] !in Strings([0]) && Followers([0], [0]) == {}
    ensures Times([0], [], 0) == 1 && AllTimes([0], []) == 1
  {
    var r: Text := [0];
    assert [] + [0] == r && Strings([]) == {} && Behind([], 0) == {r};
    StringsNext([], 0);
    assert Ends([], []) && Counts([], [], 0);
    TimesNext([], [], 0);
    assert |[0] + [0]| == 2;
    forall v: u8 ensures [0] + [v] !in {r} { assert |[0] + [v]| == 2; }
  }

  // Its four bytes.
  lemma TwoZeros()
    ensures Compressed([0, 0]) == [0x00, 0xff, 0xfc, 0x13]
  {
    TwoZeroSlots();
    hide AllSlots;
    var e, f := Slot(1, 1, 257), Slot(1, 4, 260);
    var c, d := Coder(0xff_00ff, 0xff_00ff), Coder(0xff_fc13, 257104);
    assert Narrow(Start, e) == c && Narrow(c, f) == d;
    assert Settled(c) && Settled(d);
    assert Settle(c) == c && Emitted(c) == [] && Settle(d) == d && Emitted(d) == [];
    assert [e, f][1..] == [f] && [f][1..] == [];
    assert Encoded(d, []) == Flushed(0xff_fc13);
    assert Encoded(c, [f]) == Flushed(0xff_fc13);
    assert Encoded(Start, [e, f]) == Flushed(0xff_fc13);
    LastBytes();
  }

  lemma LastBytes()
    ensures Flushed(0xff_fc13) == [0x00, 0xff, 0xfc, 0x13]
  {
    assert Shl(0xff_fc13) == 0xfffc_1300 && Shl(0xfffc_1300) == 0xfc13_0000 && Shl(0xfc13_0000) == 0x1300_0000;
    assert Shl(0x1300_0000) == 0;
    assert Flushed(0) == [];
    assert Flushed(0x1300_0000) == [0x13];
    assert Flushed(0xfc13_0000) == [0xfc, 0x13];
  }
}
