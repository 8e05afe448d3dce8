/** buildworldstate of src/fpsgame/server.cpp: all updates of a tick go into one buffer, each flushed
    part of it is doubled, and every client's packet is one slice that leaves out its own updates. */
module Broadcast {
  import opened Words
  import opened IntCodec

  const N_CLIENT: int32 := 85

  // A client; bots are clients too, listed again under the human who runs them.
  datatype Player = Player(human: bool, clientnum: int32, position: seq<u8>, messages: seq<u8>, bots: seq<nat>)

  // What one addposition or addmessages appends, on whose account, and the length it is given when
  // the MTU is watched.
  datatype Update = Update(owner: nat, bytes: seq<u8>, cost: nat)

  // A packet is a slice of the buffer.
  datatype Packet = Packet(channel: nat, to: nat, start: nat, size: nat)

  function Bytes(us: seq<Update>): seq<u8> {
    if us == [] then [] else Bytes(us[..|us| - 1]) + us[|us| - 1].bytes
  }

  // --- Whose updates. ---

  ghost function Before(us: seq<Update>, i: nat): seq<Update> {
    if us == [] then [] else
      Before(us[..|us| - 1], i) + if us[|us| - 1].owner < i then [us[|us| - 1]] else []
  }

  ghost function Own(us: seq<Update>, i: nat): seq<Update> {
    if us == [] then [] else
      Own(us[..|us| - 1], i) + if us[|us| - 1].owner == i then [us[|us| - 1]] else []
  }

  ghost function After(us: seq<Update>, i: nat): seq<Update> {
    if us == [] then [] else
      After(us[..|us| - 1], i) + if us[|us| - 1].owner > i then [us[|us| - 1]] else []
  }

  // What client i is to get of a flush: everyone's after it, then everyone's before it; all of it in
  // order if it said nothing itself.
  ghost function Expected(us: seq<Update>, i: nat): seq<u8> {
    if Own(us, i) == [] then Bytes(us) else Bytes(After(us, i)) + Bytes(Before(us, i))
  }

  ghost function Others(us: seq<Update>, i: nat): seq<Update> {
    if us == [] then [] else
      Others(us[..|us| - 1], i) + if us[|us| - 1].owner != i then [us[|us| - 1]] else []
  }

  // Updates come in the order of the clients on whose account they are.
  ghost predicate InTurn(us: seq<Update>) {
    forall j, k :: 0 <= j < k < |us| ==> us[j].owner <= us[k].owner
  }

  lemma BytesLast(us: seq<Update>, u: Update)
    ensures Bytes(us + [u]) == Bytes(us) + u.bytes
  {
    assert (us + [u])[..|us|] == us;
  }

  lemma {:induction false} BytesJoin(us: seq<Update>, vs: seq<Update>)
    ensures Bytes(us + vs) == Bytes(us) + Bytes(vs)
    decreases |vs|
  {
    if vs == [] {
      assert us + vs == us;
    } else {
      var n := |vs| - 1;
      var v, front := vs[n], vs[..n];
      BytesJoin(us, front);
      BytesLast(us + front, v);
      BytesLast(front, v);
      hide Bytes;
      JoinLast(us, front, v, vs);
      Chained(Bytes(us), Bytes(front), v.bytes);
    }
  }

  lemma JoinLast(us: seq<Update>, front: seq<Update>, v: Update, vs: seq<Update>)
    requires vs != [] && front == vs[..|vs| - 1] && v == vs[|vs| - 1]
    ensures us + vs == us + front + [v] && vs == front + [v]
  {
  }

  lemma Chained(a: seq<u8>, b: seq<u8>, c: seq<u8>)
    ensures a + (b + c) == a + b + c
  {
  }

  lemma InTurnLess(us: seq<Update>)
    requires InTurn(us) && us != []
    ensures InTurn(us[..|us| - 1]) && us == us[..|us| - 1] + [us[|us| - 1]]
    ensures |us| > 1 ==> us[..|us| - 1][|us| - 2].owner <= us[|us| - 1].owner
  {
  }

  lemma Last(us: seq<Update>, u: Update, i: nat)
    ensures Before(us + [u], i) == if u.owner < i then Before(us, i) + [u] else Before(us, i)
    ensures Own(us + [u], i) == if u.owner == i then Own(us, i) + [u] else Own(us, i)
    ensures After(us + [u], i) == if u.owner > i then After(us, i) + [u] else After(us, i)
  {
    assert (us + [u])[..|us|] == us;
  }

  lemma Nobody(i: nat)
    ensures Before([], i) == Own([], i) == After([], i) == Others([], i) == []
  {
  }

  // In turn, a client's own updates stand together.
  lemma {:induction false} Parts(us: seq<Update>, i: nat)
    requires InTurn(us)
    ensures us == Before(us, i) + Own(us, i) + After(us, i)
    ensures After(us, i) != [] ==> us != [] && us[|us| - 1].owner > i
    ensures Own(us, i) != [] ==> us != [] && us[|us| - 1].owner >= i
    decreases |us|
  {
    Nobody(i);
    if us != [] {
      var n := |us| - 1;
      var b, o, a, u := Before(us[..n], i), Own(us[..n], i), After(us[..n], i), us[n];
      InTurnLess(us);
      Last(us[..n], u, i);
      hide *;
      Parts(us[..n], i);
      Grown(us[..n], b, o, a, u);
    }
  }

  lemma Grown(us: seq<Update>, b: seq<Update>, o: seq<Update>, a: seq<Update>, u: Update)
    requires us == b + o + a
    ensures o == [] && a == [] ==> us + [u] == b + [u] + o + a
    ensures a == [] ==> us + [u] == b + (o + [u]) + a
    ensures us + [u] == b + o + (a + [u])
  {
  }

  lemma BytesParts(us: seq<Update>, i: nat)
    requires InTurn(us)
    ensures Bytes(us) == Bytes(Before(us, i)) + Bytes(Own(us, i)) + Bytes(After(us, i))
  {
    Parts(us, i);
    hide *;
    var b, o := Before(us, i), Own(us, i);
    BytesJoin(b + o, After(us, i));
    BytesJoin(b, o);
  }

  // So one slice of the updates written out twice leaves a client's own out.
  lemma SliceIsExpected(us: seq<Update>, i: nat, start: nat, n: int)
    requires InTurn(us)
    requires start == |Bytes(Before(us, i))| + |Bytes(Own(us, i))| && n == |Bytes(us)| - |Bytes(Own(us, i))|
    ensures n >= 0 && start + n <= 2 * |Bytes(us)|
    ensures Own(us, i) != [] ==> (Bytes(us) + Bytes(us))[start..start + n] == Expected(us, i)
  {
    BytesParts(us, i);
    hide Bytes, Before, Own, After, InTurn;
    Twice(Bytes(us), Bytes(Before(us, i)), Bytes(Own(us, i)), Bytes(After(us, i)), start, n);
  }

  lemma Twice(s: seq<u8>, b: seq<u8>, o: seq<u8>, a: seq<u8>, start: nat, n: int)
    requires s == b + o + a && start == |b| + |o| && n == |s| - |o|
    ensures n >= 0 && start + n <= |s + s| && (s + s)[start..start + n] == a + b
  {
    assert s + s == (b + o) + ((a + b) + (o + a));
  }

  // Exactly the others' updates, rotated.
  lemma ExpectedIsOthers(us: seq<Update>, i: nat) returns (k: nat)
    requires InTurn(us)
    ensures k <= |Bytes(Others(us, i))|
    ensures var s := Bytes(Others(us, i)); Expected(us, i) == s[k..] + s[..k]
  {
    OthersAre(us, i);
    BytesJoin(Before(us, i), After(us, i));
    BytesParts(us, i);
    NoBytes();
    hide Bytes, Before, Own, After, Others, InTurn;
    k := if Own(us, i) == [] then 0 else |Bytes(Before(us, i))|;
    Rotated(Bytes(Others(us, i)), Bytes(Before(us, i)), Bytes(After(us, i)));
  }

  lemma Rotated(s: seq<u8>, b: seq<u8>, a: seq<u8>)
    requires s == b + a
    ensures s[|b|..] + s[..|b|] == a + b && s[0..] + s[..0] == s == b + [] + a
  {
  }

  lemma NoBytes()
    ensures Bytes([]) == []
  {
  }

  lemma {:induction false} OthersAre(us: seq<Update>, i: nat)
    requires InTurn(us)
    ensures Others(us, i) == Before(us, i) + After(us, i)
  {
    hide *;
    if us == [] {
      Nobody(i);
    } else {
      var front, u := us[..|us| - 1], us[|us| - 1];
      InTurnLess(us);
      Last(front, u, i);
      LastOther(front, u, i);
      OthersAre(front, i);
      Parts(front, i);
      OneMore(Before(front, i), After(front, i), u);
    }
  }

  lemma LastOther(us: seq<Update>, u: Update, i: nat)
    ensures Others(us + [u], i) == if u.owner != i then Others(us, i) + [u] else Others(us, i)
  {
    assert (us + [u])[..|us|] == us;
  }

  lemma OneMore(b: seq<Update>, a: seq<Update>, u: Update)
    ensures b + a + [u] == b + (a + [u])
    ensures a == [] ==> b + a + [u] == (b + [u]) + a
    ensures b + a + [] == b + a
  {
  }

  // --- The updates of a tick. ---

  // Whom the loops over clients visit, with the human on whose account: each human, then their bots.
  function Visits(ps: seq<Player>, n: nat): seq<(nat, nat)>
    requires n <= |ps|
  {
    if n == 0 then [] else
      Visits(ps, n - 1) + if ps[n - 1].human then [(n - 1, n - 1)] + BotVisits(ps[n - 1].bots, n - 1) else []
  }

  function BotVisits(bots: seq<nat>, owner: nat): seq<(nat, nat)> {
    seq(|bots|, j requires 0 <= j < |bots| => (bots[j], owner))
  }

  // What a client has to say on a channel, and the update made of it.
  function Said(p: Player, channel: nat): seq<u8> { if channel == 0 then p.position else p.messages }

  function Silenced(p: Player, channel: nat): Player {
    if channel == 0 then p.(position := []) else p.(messages := [])
  }

  function Header(p: Player): (h: seq<u8>)
    ensures |h| <= 10
  {
    IntBytes(N_CLIENT) + IntBytes(p.clientnum) + UintBytes(Length(p.messages))
  }

  // int; no message buffer grows beyond it.
  function Length(s: seq<u8>): int32 { if |s| <= INT_MAX then |s| else INT_MAX }

  function Made(p: Player, channel: nat, owner: nat): Update {
    if channel == 0 then Update(owner, p.position, |p.position|)
    else Update(owner, Header(p) + p.messages, 10 + |p.messages|)
  }

  predicate Known(ps: seq<Player>, vs: seq<(nat, nat)>) { forall k :: 0 <= k < |vs| ==> vs[k].0 < |ps| }

  // The updates made on the visits, and the clients with what was sent taken from them.
  function Collected(ps: seq<Player>, vs: seq<(nat, nat)>, channel: nat): (r: (seq<Update>, seq<Player>))
    requires Known(ps, vs)
    ensures |r.1| == |ps|
  {
    if vs == [] then ([], ps) else
      var n := |vs| - 1;
      var (us, qs) := Collected(ps, vs[..n], channel);
      var (p, owner) := vs[n];
      if Said(qs[p], channel) == [] then (us, qs)
      else (us + [Made(qs[p], channel, owner)], qs[p := Silenced(qs[p], channel)])
  }

  // --- Flushes: before the buffer would grow beyond the MTU, and at the end. ---

  datatype Flushes = Flushes(closed: seq<seq<Update>>, open: seq<Update>)

  function Closed(f: Flushes): Flushes {
    if f.open == [] then f else Flushes(f.closed + [f.open], [])
  }

  function Grouped(us: seq<Update>, mtu: int): Flushes {
    if us == [] then Flushes([], []) else
      var n := |us| - 1;
      Stepped(Grouped(us[..n], mtu), us[n], mtu)
  }

  function Flat(gs: seq<seq<Update>>): seq<Update> {
    if gs == [] then [] else Flat(gs[..|gs| - 1]) + gs[|gs| - 1]
  }

  // Nothing is lost or sent twice over the flushes.
  lemma {:induction false} GroupedIsAll(us: seq<Update>, mtu: int)
    ensures Flat(Grouped(us, mtu).closed) + Grouped(us, mtu).open == us
  {
    hide *;
    if us == [] {
      GroupedNone(mtu);
    } else {
      var front, u := us[..|us| - 1], us[|us| - 1];
      GroupedIsAll(front, mtu);
      GroupedMore(front, u, mtu);
      assert us == front + [u];
    }
  }

  lemma GroupedNone(mtu: int)
    ensures Flat(Grouped([], mtu).closed) + Grouped([], mtu).open == []
  {
  }

  lemma GroupedMore(front: seq<Update>, u: Update, mtu: int)
    requires Flat(Grouped(front, mtu).closed) + Grouped(front, mtu).open == front
    ensures var g := Grouped(front + [u], mtu); Flat(g.closed) + g.open == front + [u]
  {
    hide Flat, Grouped, Bytes;
    var f := Grouped(front, mtu);
    FlatMore(f.closed, f.open);
    GroupedLast(front, u, mtu);
    Regrouped(Flat(f.closed), f.open, front, u);
  }

  lemma Regrouped(closed: seq<Update>, open: seq<Update>, us: seq<Update>, u: Update)
    requires closed + open == us
    ensures closed + (open + [u]) == us + [u] && us + ([] + [u]) == us + [u]
  {
  }

  lemma GroupedLast(us: seq<Update>, u: Update, mtu: int)
    ensures Grouped(us + [u], mtu) == Stepped(Grouped(us, mtu), u, mtu)
  {
    assert (us + [u])[..|us|] == us;
  }

  // Closed at the end, the flushes hold every update once, in order.
  lemma FlushesHoldAll(us: seq<Update>, mtu: int)
    ensures Flat(Closed(Grouped(us, mtu)).closed) == us
  {
    var f := Grouped(us, mtu);
    GroupedIsAll(us, mtu);
    FlatMore(f.closed, f.open);
  }

  lemma FlatMore(gs: seq<seq<Update>>, g: seq<Update>)
    ensures Flat(gs + [g]) == Flat(gs) + g
  {
    assert (gs + [g])[..|gs|] == gs;
  }

  // What client i gets of the flushes.
  ghost function Deliveries(gs: seq<seq<Update>>, channel: nat, i: nat): seq<(nat, seq<u8>)> {
    if gs == [] then [] else
      Deliveries(gs[..|gs| - 1], channel, i)
      + if Expected(gs[|gs| - 1], i) == [] then [] else [(channel, Expected(gs[|gs| - 1], i))]
  }

  // --- What is still to be sent bounds what is still to be written. ---

  function Weight(p: Player): nat {
    |p.position| + if p.messages == [] then 0 else 10 + |p.messages|
  }

  function Pending(ps: seq<Player>): nat {
    if ps == [] then 0 else Pending(ps[..|ps| - 1]) + Weight(ps[|ps| - 1])
  }

  lemma {:induction false} PendingLess(ps: seq<Player>, p: nat, q: Player)
    requires p < |ps|
    ensures Pending(ps[p := q]) + Weight(ps[p]) == Pending(ps) + Weight(q)
    decreases |ps|
  {
    var n := |ps| - 1;
    if p < n {
      PendingLess(ps[..n], p, q);
      assert ps[p := q][..n] == ps[..n][p := q];
    } else {
      assert ps[p := q][..n] == ps[..n];
    }
  }

  // --- The slices sent, and what clients find in them. ---

  ghost function Inbox(d: seq<u8>, sent: seq<Packet>, i: nat): seq<(nat, seq<u8>)> {
    if sent == [] then [] else
      var p := sent[|sent| - 1];
      Inbox(d, sent[..|sent| - 1], i)
      + if p.to == i && p.start + p.size <= |d| then [(p.channel, d[p.start..p.start + p.size])] else []
  }

  ghost predicate Within(sent: seq<Packet>, end: nat) {
    forall k :: 0 <= k < |sent| ==> sent[k].start + sent[k].size <= end
  }

  // What is written behind the slices already sent does not change them.
  lemma {:induction false} InboxKept(d: seq<u8>, d': seq<u8>, sent: seq<Packet>, end: nat, i: nat)
    requires Within(sent, end) && end <= |d| && end <= |d'| && d[..end] == d'[..end]
    ensures Inbox(d', sent, i) == Inbox(d, sent, i)
    decreases |sent|
  {
    if sent != [] {
      var p := sent[|sent| - 1];
      InboxKept(d, d', sent[..|sent| - 1], end, i);
      assert d[p.start..p.start + p.size] == d[..end][p.start..p.start + p.size];
      assert d'[p.start..p.start + p.size] == d'[..end][p.start..p.start + p.size];
    }
  }

  lemma InboxMore(d: seq<u8>, sent: seq<Packet>, p: Packet, i: nat)
    requires p.start + p.size <= |d|
    ensures Inbox(d, sent + [p], i) ==
      if p.to == i then Inbox(d, sent, i) + [(p.channel, d[p.start..p.start + p.size])] else Inbox(d, sent, i)
  {
    assert (sent + [p])[..|sent|] == sent;
  }

  // --- Where each client's own updates begin, and how long they are: wsdata and wslen. ---

  ghost predicate NonEmpty(us: seq<Update>) { forall k :: 0 <= k < |us| ==> us[k].bytes != [] }

  ghost predicate Marked(us: seq<Update>, base: nat, wsdata: seq<int>, wslen: seq<int>) {
    && |wslen| == |wsdata|
    && forall i {:trigger wsdata[i]} :: 0 <= i < |wsdata| ==> MarkedAt(us, base, wsdata[i], wslen[i], i)
  }

  ghost predicate MarkedAt(us: seq<Update>, base: nat, start: int, size: int, i: nat) {
    if Own(us, i) == [] then start < base else start == base + |Bytes(Before(us, i))| && size == |Bytes(Own(us, i))|
  }

  lemma MarkOther(us: seq<Update>, base: nat, start: int, size: int, u: Update, i: nat)
    requires MarkedAt(us, base, start, size, i) && InTurn(us + [u]) && u.owner != i
    ensures MarkedAt(us + [u], base, start, size, i)
  {
    Last(us, u, i);
    LastOwner(us, u, i);
    hide Bytes, Before, Own, After, InTurn;
  }

  lemma MarkFirst(us: seq<Update>, base: nat, start: int, size: int, u: Update)
    requires MarkedAt(us, base, start, size, u.owner) && InTurn(us + [u]) && start < base
    ensures MarkedAt(us + [u], base, base + |Bytes(us)|, |u.bytes|, u.owner)
  {
    hide Bytes, Before, Own, After, InTurn;
    LastOwner(us, u, u.owner);
    NoBytes();
    OwnMore(us, u);
  }

  lemma OwnMore(us: seq<Update>, u: Update)
    ensures Own(us + [u], u.owner) != [] && Before(us + [u], u.owner) == Before(us, u.owner)
    ensures |Bytes(Own(us + [u], u.owner))| == |Bytes(Own(us, u.owner))| + |u.bytes|
  {
    Last(us, u, u.owner);
    BytesLast(Own(us, u.owner), u);
  }

  lemma MarkMore(us: seq<Update>, base: nat, start: int, size: int, u: Update)
    requires MarkedAt(us, base, start, size, u.owner) && start >= base
    ensures MarkedAt(us + [u], base, start, size + |u.bytes|, u.owner)
  {
    OwnMore(us, u);
    hide Bytes, Before, Own, After;
  }

  lemma LastOwner(us: seq<Update>, u: Update, i: nat)
    requires InTurn(us + [u])
    ensures u.owner == i && Own(us, i) == [] ==> Before(us, i) == us
    ensures u.owner < i ==> Own(us, i) == []
  {
    InTurnLess(us + [u]);
    assert (us + [u])[..|us|] == us;
    Parts(us, i);
    hide Before, Own, After, InTurn;
    assert Before(us, i) + [] + [] == Before(us, i);
  }

  lemma MarksAdded(us: seq<Update>, base: nat, wsdata: seq<int>, wslen: seq<int>, u: Update)
    requires Marked(us, base, wsdata, wslen) && InTurn(us + [u]) && u.owner < |wsdata|
    ensures var o := u.owner;
      if wsdata[o] < base then Marked(us + [u], base, wsdata[o := base + |Bytes(us)|], wslen[o := |u.bytes|])
      else Marked(us + [u], base, wsdata, wslen[o := wslen[o] + |u.bytes|])
  {
    hide MarkedAt, InTurn, Bytes;
    var o := u.owner;
    forall i | 0 <= i < |wsdata| && i != o ensures MarkedAt(us + [u], base, wsdata[i], wslen[i], i) {
      MarkOther(us, base, wsdata[i], wslen[i], u, i);
    }
    if wsdata[o] < base {
      MarkFirst(us, base, wsdata[o], wslen[o], u);
    } else {
      MarkMore(us, base, wsdata[o], wslen[o], u);
    }
  }

  // After a flush all marks lie behind.
  lemma MarkPast(us: seq<Update>, base: nat, start: int, size: int, i: nat)
    requires MarkedAt(us, base, start, size, i) && InTurn(us) && Bytes(us) != []
    ensures MarkedAt([], base + 2 * |Bytes(us)|, start, size, i)
  {
    hide InTurn, Bytes, Before, Own, After;
    Nobody(i);
    BytesParts(us, i);
    assert |Bytes(Before(us, i))| <= |Bytes(us)|;
  }

  lemma NoMarks(n: nat)
    ensures Marked([], 0, seq(n, _ => -1), seq(n, _ => 0))
  {
    forall i: nat ensures Own([], i) == [] { Nobody(i); }
  }

  lemma MarksPast(us: seq<Update>, base: nat, wsdata: seq<int>, wslen: seq<int>)
    requires Marked(us, base, wsdata, wslen) && InTurn(us) && Bytes(us) != []
    ensures Marked([], base + 2 * |Bytes(us)|, wsdata, wslen)
  {
    hide InTurn, Bytes, MarkedAt;
    forall i | 0 <= i < |wsdata| ensures MarkedAt([], base + 2 * |Bytes(us)|, wsdata[i], wslen[i], i) {
      MarkPast(us, base, wsdata[i], wslen[i], i);
    }
  }

  lemma {:induction false} SomeBytes(us: seq<Update>)
    requires NonEmpty(us)
    ensures Bytes(us) == [] <==> us == []
  {
  }

  // One packet: none for nothing.
  ghost function Delivery(us: seq<Update>, channel: nat, i: nat): seq<(nat, seq<u8>)> {
    if Expected(us, i) == [] then [] else [(channel, Expected(us, i))]
  }

  lemma OwnBytes(us: seq<Update>, i: nat)
    requires InTurn(us)
    ensures |Bytes(Own(us, i))| <= |Bytes(us)|
  {
    hide *;
    BytesParts(us, i);
  }

  // The slice that the marks give is what is expected.
  lemma SliceTaken(us: seq<Update>, d: seq<u8>, base: nat, start: int, size: int, i: nat, from: int, n: int)
    requires InTurn(us) && MarkedAt(us, base, start, size, i)
    requires base + 2 * |Bytes(us)| <= |d| && d[base..base + 2 * |Bytes(us)|] == Bytes(us) + Bytes(us)
    requires from == (if start >= base then start + size else base)
    requires n == |Bytes(us)| - (if start >= base then size else 0)
    ensures 0 <= n && base <= from && from + n <= base + 2 * |Bytes(us)|
    ensures d[from..from + n] == Expected(us, i)
  {
    hide InTurn, Bytes, Before, Own, After;
    OwnBytes(us, i);
    if Own(us, i) == [] {
      SliceOf(d, base, Bytes(us), 0, n);
    } else {
      SliceRotated(us, d, base, i, from - base, n);
    }
  }

  lemma SliceRotated(us: seq<Update>, d: seq<u8>, base: nat, i: nat, from: nat, n: nat)
    requires InTurn(us) && Own(us, i) != []
    requires base + 2 * |Bytes(us)| <= |d| && d[base..base + 2 * |Bytes(us)|] == Bytes(us) + Bytes(us)
    requires from == |Bytes(Before(us, i))| + |Bytes(Own(us, i))| && n == |Bytes(us)| - |Bytes(Own(us, i))|
    ensures from + n <= 2 * |Bytes(us)| && d[base + from..base + from + n] == Expected(us, i)
  {
    hide *;
    SliceIsExpected(us, i, from, n);
    SliceOf(d, base, Bytes(us), from, n);
  }

  lemma SliceOf(d: seq<u8>, base: nat, s: seq<u8>, from: nat, n: nat)
    requires base + 2 * |s| <= |d| && d[base..base + 2 * |s|] == s + s && from + n <= 2 * |s|
    ensures d[base + from..base + from + n] == (s + s)[from..from + n]
    ensures from == 0 && n == |s| ==> d[base..base + n] == s
  {
    var w := s + s;
    var m := 2 * |s|;
    var x, y, e := d[base + from..base + from + n], w[from..from + n], d[base..base + m];
    forall k | 0 <= k < n ensures x[k] == y[k] {
      assert e[from + k] == d[base + (from + k)];
    }
    assert w[0..|s|] == s;
  }

  lemma NothingExpected()
    ensures forall i: nat :: Expected([], i) == []
  {
  }

  // Writing behind what has been sent changes no packet.
  lemma InboxesKept(d: seq<u8>, d': seq<u8>, was: seq<u8>, sent: seq<Packet>, end: nat)
    requires Within(sent, end) && end <= |was| && was <= d && was <= d'
    ensures forall i: nat {:trigger Inbox(d', sent, i)} :: Inbox(d', sent, i) == Inbox(d, sent, i)
  {
    hide Inbox;
    assert d[..end] == was[..end] == d'[..end];
    forall i: nat ensures Inbox(d', sent, i) == Inbox(d, sent, i) { InboxKept(d, d', sent, end, i); }
  }

  // What follows `from` in a prefix of the data that has been extended.
  lemma Tail(s: seq<u8>, t: seq<u8>, from: nat)
    requires from <= |s|
    ensures (s + t)[from..] == s[from..] + t
  {
  }

  // The state of the buffer: d is the data, us what was appended since the last flush.
  ghost predicate Good(d: seq<u8>, buf: nat, len: nat, us: seq<Update>, ps: seq<Player>, wsdata: seq<int>,
                       wslen: seq<int>, sent: seq<Packet>) {
    && buf + len <= |d| && d[buf..buf + len] == Bytes(us) && NonEmpty(us) && InTurn(us)
    && |wsdata| == |wslen| == |ps| && Marked(us, buf, wsdata, wslen) && Within(sent, buf)
    && buf + 2 * len + 2 * Pending(ps) <= |d|
  }

  ghost predicate Upto(us: seq<Update>, o: nat) { forall k :: 0 <= k < |us| ==> us[k].owner <= o }

  lemma UptoMade(us: seq<Update>, p: Player, channel: nat, owner: nat)
    requires Upto(us, owner)
    ensures Upto(us + [Made(p, channel, owner)], owner)
  {
  }

  lemma Appendable(us: seq<Update>, u: Update)
    requires InTurn(us) && NonEmpty(us) && Upto(us, u.owner) && u.bytes != []
    ensures InTurn(us + [u]) && NonEmpty(us + [u])
  {
  }

  lemma AppendFits(ps: seq<Player>, p: nat, channel: nat, owner: nat)
    requires p < |ps| && Said(ps[p], channel) != []
    ensures var u := Made(ps[p], channel, owner);
      && u.bytes != [] && u.owner == owner
      && Pending(ps[p := Silenced(ps[p], channel)]) + |u.bytes| <= Pending(ps)
  {
    PendingLess(ps, p, Silenced(ps[p], channel));
  }

  lemma UpdateFits(d: seq<u8>, buf: nat, len: nat, us: seq<Update>, ps: seq<Player>, wsdata: seq<int>, wslen: seq<int>,
                   sent: seq<Packet>, p: nat, channel: nat, owner: nat)
    requires Good(d, buf, len, us, ps, wsdata, wslen, sent) && p < |ps| && Said(ps[p], channel) != []
    ensures buf + len + |Made(ps[p], channel, owner).bytes| <= |d| && |wsdata| == |wslen| == |ps| && Within(sent, buf)
  {
    hide Marked, InTurn, Within, NonEmpty, Bytes, Made, Said, Silenced;
    AppendFits(ps, p, channel, owner);
  }

  lemma PrefixOf(d: seq<u8>, d': seq<u8>, s: seq<u8>, t: seq<u8>)
    requires |s| <= |d| && s == d[..|s|] && |s| + |t| <= |d'| && d'[..|s| + |t|] == s + t
    ensures s <= d && s <= d'
  {
    assert d'[..|s|] == d'[..|s| + |t|][..|s|];
  }

  // One more update written behind the others keeps it, and every packet sent.
  lemma Appended(d: seq<u8>, d': seq<u8>, buf: nat, len: nat, len': nat, us: seq<Update>, ps: seq<Player>,
                 wsdata: seq<int>, wslen: seq<int>, wsdata': seq<int>, wslen': seq<int>, sent: seq<Packet>,
                 p: nat, channel: nat, owner: nat, u: Update)
    requires Good(d, buf, len, us, ps, wsdata, wslen, sent) && p < |ps| && Said(ps[p], channel) != []
    requires u == Made(ps[p], channel, owner) && owner < |ps| && Upto(us, owner)
    requires |d'| == |d| && len' == len + |u.bytes| && buf + len' <= |d| && d'[..buf + len'] == d[..buf + len] + u.bytes
    requires if wsdata[owner] < buf
      then wsdata' == wsdata[owner := buf + len] && wslen' == wslen[owner := |u.bytes|]
      else wsdata' == wsdata && wslen' == wslen[owner := wslen[owner] + |u.bytes|]
    ensures Good(d', buf, len', us + [u], ps[p := Silenced(ps[p], channel)], wsdata', wslen', sent)
  {
    hide Bytes, InTurn, NonEmpty, Pending, Made, Silenced, Said, Within, Marked, Upto;
    AppendFits(ps, p, channel, owner);
    Appendable(us, u);
    MarksAdded(us, buf, wsdata, wslen, u);
    AppendedBytes(d, d', buf, len, len', us, u);
  }

  lemma AppendedBytes(d: seq<u8>, d': seq<u8>, buf: nat, len: nat, len': nat, us: seq<Update>, u: Update)
    requires buf + len <= |d| && d[buf..buf + len] == Bytes(us)
    requires len' == len + |u.bytes| && buf + len' <= |d'| && d'[..buf + len'] == d[..buf + len] + u.bytes
    ensures d'[buf..buf + len'] == Bytes(us + [u]) && len == |Bytes(us)|
  {
    BytesLast(us, u);
    hide Bytes;
    Tail(d[..buf + len], u.bytes, buf);
    assert d[..buf + len][buf..] == d[buf..buf + len] && d'[..buf + len'][buf..] == d'[buf..buf + len'];
  }

  // And every packet sent.
  lemma SentKept(d: seq<u8>, d': seq<u8>, buf: nat, len: nat, len': nat, bytes: seq<u8>, sent: seq<Packet>)
    requires Within(sent, buf) && buf + len <= |d|
    requires len' == len + |bytes| && buf + len' <= |d'| && d'[..buf + len'] == d[..buf + len] + bytes
    ensures forall i: nat {:trigger Inbox(d', sent, i)} :: Inbox(d', sent, i) == Inbox(d, sent, i)
  {
    hide Inbox, Within;
    PrefixOf(d, d', d[..buf + len], bytes);
    InboxesKept(d, d', d[..buf + len], sent, buf);
  }

  // The fields of the class at one moment.
  datatype View = View(d: seq<u8>, buf: nat, len: nat, us: seq<Update>, ps: seq<Player>, wsdata: seq<int>,
                       wslen: seq<int>, sent: seq<Packet>, overwrote: bool)

  ghost predicate Sound(v: View) {
    !v.overwrote && Good(v.d, v.buf, v.len, v.us, v.ps, v.wsdata, v.wslen, v.sent)
  }

  // Client p's update u has been written for `owner` and taken from the client.
  ghost predicate Wrote(v: View, w: View, p: nat, owner: nat, channel: nat, u: Update)
    requires p < |v.ps| && owner < |v.wsdata| == |v.wslen| && v.buf + v.len <= |v.d|
  {
    && w == v.(d := w.d, len := v.len + |u.bytes|, ps := v.ps[p := Silenced(v.ps[p], channel)], wsdata := w.wsdata,
      wslen := w.wslen)
    && |w.d| == |v.d| && w.buf + w.len <= |w.d| && w.d[..w.buf + w.len] == v.d[..v.buf + v.len] + u.bytes
    && if v.wsdata[owner] < v.buf
       then w.wsdata == v.wsdata[owner := v.buf + v.len] && w.wslen == v.wslen[owner := |u.bytes|]
       else w.wsdata == v.wsdata && w.wslen == v.wslen[owner := v.wslen[owner] + |u.bytes|]
  }

  lemma WrittenFits(v: View, p: nat, owner: nat, channel: nat)
    requires Sound(v) && p < |v.ps| && owner < |v.ps| && Said(v.ps[p], channel) != []
    ensures |v.wsdata| == |v.wslen| == |v.ps| && v.buf + v.len + |Made(v.ps[p], channel, owner).bytes| <= |v.d|
  {
    UpdateFits(v.d, v.buf, v.len, v.us, v.ps, v.wsdata, v.wslen, v.sent, p, channel, owner);
  }

  lemma WrittenKeeps(v: View, w: View, p: nat, owner: nat, channel: nat, u: Update)
    requires Sound(v) && p < |v.ps| && owner < |v.ps| && Said(v.ps[p], channel) != [] && Upto(v.us, owner)
    requires u == Made(v.ps[p], channel, owner)
    requires (WrittenFits(v, p, owner, channel); Wrote(v, w, p, owner, channel, u))
    ensures Sound(w.(us := v.us + [u]))
    ensures forall i: nat {:trigger Inbox(w.d, w.sent, i)} :: Inbox(w.d, w.sent, i) == Inbox(v.d, v.sent, i)
  {
    hide Good, Made, Silenced, Said, Inbox, Upto, Within;
    UpdateFits(v.d, v.buf, v.len, v.us, v.ps, v.wsdata, v.wslen, v.sent, p, channel, owner);
    SentKept(v.d, w.d, v.buf, v.len, w.len, u.bytes, v.sent);
    Appended(v.d, w.d, v.buf, v.len, w.len, v.us, v.ps, v.wsdata, v.wslen, w.wsdata, w.wslen, v.sent, p, channel,
      owner, u);
  }

  class WorldState {
    const data: array<u8>
    var buf: nat        // wsbuf: where it begins in the data,
    var len: nat        // and how much is in it
    var overwrote: bool
    var players: seq<Player>
    var wsdata: seq<int>  // of each client, as an index into the data; -1 for NULL
    var wslen: seq<int>
    var sent: seq<Packet>
    ghost var open: seq<Update>  // what was appended since the last flush

    ghost predicate Valid()
      reads this, data
    {
      Sound(Now())
    }

    ghost function Now(): View
      reads this, data
    {
      View(data[..], buf, len, open, players, wsdata, wslen, sent, overwrote)
    }

    constructor (wsmax: nat, players: seq<Player>)
      requires wsmax == Pending(players)
      ensures Valid() && this.players == players && open == [] && forall i: nat {:trigger Found(i)} :: Found(i) == []
      ensures fresh(data) && data.Length == 2 * wsmax
    {
      data := new u8[2 * wsmax];
      buf, len, overwrote, this.players, sent := 0, 0, false, players, [];
      wsdata, wslen := seq(|players|, _ => -1), seq(|players|, _ => 0);
      open := [];
      new;
      NoBytes();
      NoMarks(|players|);
    }

    // What client i can read in the packets sent to it.
    ghost function Found(i: nat): seq<(nat, seq<u8>)>
      reads this`sent, data
    {
      Inbox(data[..], sent, i)
    }

    // databuf::put
    method Put(bytes: seq<u8>)
      requires buf + len <= data.Length
      modifies this`len, this`overwrote, data
      ensures buf + len <= data.Length && data[..buf + old(len)] == old(data[..buf + len])
      ensures old(buf + len + |bytes|) <= data.Length ==>
        overwrote == old(overwrote) && len == old(len) + |bytes| && data[..buf + len] == old(data[..buf + len]) + bytes
    {
      ghost var before := data[..buf + len];
      var n := |bytes|;
      if data.Length - buf - len < n {
        overwrote := true;
        n := data.Length - buf - len;
      }
      forall j | 0 <= j < n { data[buf + len + j] := bytes[j]; }
      len := len + n;
      assert data[..buf + old(len)] == before;
      assert n == |bytes| ==> data[buf + old(len)..buf + len] == bytes;
      assert data[..buf + len] == data[..buf + old(len)] + data[buf + old(len)..buf + len];
    }

    // In the middle of a flush: what was appended stands there twice.
    ghost predicate Doubled(size: nat)
      reads this, data
    {
      && 0 < size == |Bytes(open)| && len == 2 * size && !overwrote && InTurn(open)
      && buf + len + 2 * Pending(players) <= data.Length && data[buf..buf + len] == Bytes(open) + Bytes(open)
      && |wsdata| == |wslen| == |players| && Marked(open, buf, wsdata, wslen) && Marked([], buf + len, wsdata, wslen)
      && Within(sent, buf + len)
    }

    // wsbuf.put(wsbuf.buf, wslen)
    method Double()
      requires Valid() && len > 0
      modifies this`len, this`overwrote, data
      ensures Doubled(old(len)) && forall i: nat {:trigger Found(i)} :: Found(i) == old(Found(i))
    {
      MarksPast(open, buf, wsdata, wslen);
      hide Bytes, Marked, InTurn, NonEmpty, Pending;
      ghost var d, was := data[..], data[..buf + len];
      Tail(was, Bytes(open), buf);
      Put(data[buf..buf + len]);
      InboxesKept(d, data[..], was, sent, buf);
    }

    // sendpacket
    method SendPacket(packet: Packet)
      requires packet.start + packet.size <= data.Length
      modifies this`sent
      ensures sent == old(sent) + [packet]
      ensures forall k: nat {:trigger Found(k)} ::
        Found(k) == old(Found(k)) +
          if k == packet.to then [(packet.channel, data[packet.start..packet.start + packet.size])] else []
    {
      forall k: nat ensures Inbox(data[..], sent + [packet], k) == Inbox(data[..], sent, k) +
        if k == packet.to then [(packet.channel, data[packet.start..packet.start + packet.size])] else []
      {
        InboxMore(data[..], sent, packet, k);
      }
      sent := sent + [packet];
    }

    // The body of the loop over the clients: one slice of the doubled updates for each human.
    method DealOne(channel: nat, size: nat, i: nat)
      requires Doubled(size) && i < |players|
      modifies this`sent
      ensures Doubled(size)
      ensures forall k: nat {:trigger Found(k)} ::
        Found(k) == old(Found(k)) + if k == i && players[i].human then Delivery(open, channel, i) else []
    {
      hide InTurn, Bytes, MarkedAt, Expected, Found, Pending;
      if !players[i].human { return; }
      var from, n := buf, size;
      if wsdata[i] >= buf { from, n := wsdata[i] + wslen[i], size - wslen[i]; }
      SliceTaken(open, data[..], buf, wsdata[i], wslen[i], i, from, n);
      assert data[..][from..from + n] == data[from..from + n];
      if n <= 0 { return; }
      SendPacket(Packet(channel, i, from, n));
    }

    // wsbuf.offset(wsbuf.length())
    method Advance(ghost size: nat)
      requires Doubled(size)
      modifies this`buf, this`len, this`open
      ensures Valid() && open == []
    {
      NoBytes();
      buf := buf + len;
      len := 0;
      open := [];
    }

    method DealAll(channel: nat, size: nat)
      requires Doubled(size)
      modifies this`sent
      ensures Doubled(size)
      ensures forall k: nat {:trigger Found(k)} :: k < |players| ==>
        Found(k) == old(Found(k)) + if players[k].human then Delivery(open, channel, k) else []
    {
      hide Doubled, Found, Delivery;
      var i: nat := 0;
      while i < |players|
        invariant i <= |players| && Doubled(size)
        invariant forall k: nat {:trigger Found(k)} :: k < |players| ==>
          Found(k) == old(Found(k)) + if k < i && players[k].human then Delivery(open, channel, k) else []
      {
        DealOne(channel, size, i);
        i := i + 1;
      }
    }

    // sendpositions, sendmessages
    method Flush(channel: nat)
      requires Valid()
      modifies this`buf, this`len, this`overwrote, this`sent, this`open, data
      ensures Valid() && open == []
      ensures forall i: nat {:trigger Found(i)} :: i < |players| ==>
        Found(i) == old(Found(i)) + if players[i].human then old(Delivery(open, channel, i)) else []
    {
      if len == 0 { NothingOpen(channel); return; }
      hide Doubled, Found, Delivery, Valid;
      var size := len;
      Double();
      DealAll(channel, size);
      Advance(size);
    }

    lemma NothingOpen(channel: nat)
      requires Valid() && len == 0
      ensures open == [] && forall i: nat :: Delivery(open, channel, i) == []
    {
      SomeBytes(open);
      NothingExpected();
    }

    // The puts of addposition and addmessages.
    method PutUpdate(p: Player, channel: nat, ghost owner: nat)
      requires buf + len + |Made(p, channel, owner).bytes| <= data.Length
      modifies this`len, this`overwrote, data
      ensures buf + len <= data.Length && len == old(len) + |Made(p, channel, owner).bytes|
      ensures overwrote == old(overwrote)
      ensures data[..][..buf + len] == old(data[..])[..buf + old(len)] + Made(p, channel, owner).bytes
    {
      if channel == 0 {
        Put(p.position);
        return;
      }
      ghost var s := data[..buf + len];
      var a, b, c, d := IntBytes(N_CLIENT), IntBytes(p.clientnum), UintBytes(Length(p.messages)), p.messages;
      assert s + a + b + c + d == s + Made(p, channel, owner).bytes;
      hide *;
      Put(a);
      Put(b);
      Put(c);
      Put(d);
    }

    // Their tail: what is sent is taken from the client, and the owner's marks follow.
    method Mark(p: nat, owner: nat, channel: nat, offset: nat)
      requires p < |players| && owner < |wsdata| == |wslen| && offset <= len
      modifies this`players, this`wsdata, this`wslen
      ensures players == old(players)[p := Silenced(old(players)[p], channel)]
      ensures if old(wsdata)[owner] < buf
        then wsdata == old(wsdata)[owner := buf + offset] && wslen == old(wslen)[owner := len - offset]
        else wsdata == old(wsdata) && wslen == old(wslen)[owner := old(wslen)[owner] + (len - offset)]
    {
      players := players[p := Silenced(players[p], channel)];
      var size := len - offset;
      if wsdata[owner] < buf {
        wsdata, wslen := wsdata[owner := buf + offset], wslen[owner := size];
      } else {
        wslen := wslen[owner := wslen[owner] + size];
      }
    }

    method Append(p: nat, owner: nat, channel: nat)
      requires Valid() && p < |players| && owner < |players| && Said(players[p], channel) != [] && Upto(open, owner)
      modifies this`len, this`overwrote, this`players, this`wsdata, this`wslen, this`open, data
      ensures Valid() && open == old(open) + [Made(old(players)[p], channel, owner)]
      ensures players == old(players)[p := Silenced(old(players)[p], channel)]
      ensures forall i: nat {:trigger Found(i)} :: Found(i) == old(Found(i))
    {
      ghost var v, u := Now(), Made(players[p], channel, owner);
      WrittenFits(v, p, owner, channel);
      hide Sound, Made, Silenced, Said, Inbox, Upto, Wrote;
      Write(p, owner, channel, u);
      WrittenKeeps(v, Now(), p, owner, channel, u);
      open := open + [u];
    }

    method Write(p: nat, owner: nat, channel: nat, ghost u: Update)
      requires p < |players| && owner < |wsdata| == |wslen| && u == Made(players[p], channel, owner)
      requires buf + len + |u.bytes| <= data.Length
      modifies this`len, this`overwrote, this`players, this`wsdata, this`wslen, data
      ensures Wrote(old(Now()), Now(), p, owner, channel, u)
    {
      hide Made, Silenced;
      var offset := len;
      PutUpdate(players[p], channel, owner);
      Mark(p, owner, channel, offset);
    }

    // How far the sending on a channel has come, in flushes; `before` is what clients had found when it began.
    ghost predicate Sending(f: Flushes, channel: nat, before: seq<seq<(nat, seq<u8>)>>)
      reads this, data
    {
      && open == f.open && |before| == |players|
      && forall i: nat {:trigger Found(i)} :: i < |players| ==>
        Found(i) == before[i] + if players[i].human then Deliveries(f.closed, channel, i) else []
    }

    method FlushStep(channel: nat, ghost f: Flushes, ghost before: seq<seq<(nat, seq<u8>)>>)
      requires Valid() && Sending(f, channel, before)
      modifies this`buf, this`len, this`overwrote, this`sent, this`open, data
      ensures Valid() && Sending(Closed(f), channel, before)
    {
      hide Good, Found, Deliveries, Delivery;
      forall i: nat
        ensures Deliveries(Closed(f).closed, channel, i)
          == Deliveries(f.closed, channel, i) + Delivery(f.open, channel, i)
      {
        DeliveriesMore(f, channel, i);
      }
      Flush(channel);
    }

    // addposition, addmessages
    method AddUpdate(p: nat, owner: nat, channel: nat, mtu: int, ghost f: Flushes,
                     ghost before: seq<seq<(nat, seq<u8>)>>)
        returns (ghost f': Flushes)
      requires Valid() && Sending(f, channel, before) && p < |players| && owner < |players| && Upto(open, owner)
      modifies this`buf, this`len, this`overwrote, this`players, this`wsdata, this`wslen, this`sent, this`open, data
      ensures Valid() && Sending(f', channel, before) && Upto(open, owner)
      ensures if Said(old(players)[p], channel) == [] then f' == f && players == old(players)
        else f' == Stepped(f, Made(old(players)[p], channel, owner), mtu)
             && players == old(players)[p := Silenced(old(players)[p], channel)]
    {
      hide Good, Found, Deliveries, Bytes, Made, Upto, Said;
      f' := f;
      if |Said(players[p], channel)| == 0 { return; }
      f' := Prepare(p, owner, channel, mtu, f, before);
      Append(p, owner, channel);
      UptoMade(f'.open, old(players)[p], channel, owner);
      f' := f'.(open := f'.open + [Made(old(players)[p], channel, owner)]);
    }

    // Their flush, where the update would not fit.
    method Prepare(p: nat, ghost owner: nat, channel: nat, mtu: int, ghost f: Flushes,
                   ghost before: seq<seq<(nat, seq<u8>)>>)
        returns (ghost f': Flushes)
      requires Valid() && Sending(f, channel, before) && p < |players| && Upto(open, owner)
      modifies this`buf, this`len, this`overwrote, this`sent, this`open, data
      ensures Valid() && Sending(f', channel, before) && Upto(open, owner)
      ensures f'.(open := f'.open + [Made(players[p], channel, owner)])
        == Stepped(f, Made(players[p], channel, owner), mtu)
    {
      f' := f;
      LengthIs();
      var cost := if channel == 0 then |players[p].position| else 10 + |players[p].messages|;
      assert Made(players[p], channel, owner).cost == cost;
      hide Good, Found, Deliveries, Bytes, Made;
      if len + cost > mtu {
        FlushStep(channel, f, before);
        f' := Closed(f);
      }
    }

    lemma LengthIs()
      requires Valid()
      ensures len == |Bytes(open)|
    {
    }

    // What has come of the visits made.
    ghost predicate Visited(ps: seq<Player>, done: seq<(nat, nat)>, channel: nat, mtu: int, f: Flushes,
                            before: seq<seq<(nat, seq<u8>)>>)
      reads this, data
    {
      && Valid() && Sending(f, channel, before) && Known(ps, done)
      && players == Collected(ps, done, channel).1 && f == Grouped(Collected(ps, done, channel).0, mtu)
    }

    method Visit(p: nat, owner: nat, channel: nat, mtu: int, ghost ps: seq<Player>, ghost done: seq<(nat, nat)>,
                 ghost f: Flushes, ghost before: seq<seq<(nat, seq<u8>)>>)
        returns (ghost f': Flushes)
      requires Visited(ps, done, channel, mtu, f, before) && Upto(open, owner) && p < |ps| && owner < |ps|
      modifies this`buf, this`len, this`overwrote, this`players, this`wsdata, this`wslen, this`sent, this`open, data
      ensures Visited(ps, done + [(p, owner)], channel, mtu, f', before) && Upto(open, owner)
    {
      CollectedMore(ps, done, p, owner, channel, mtu);
      hide Sound, Sending, Collected, Grouped, Stepped, Upto, Made, Silenced, Said;
      f' := AddUpdate(p, owner, channel, mtu, f, before);
    }

    method VisitBots(i: nat, channel: nat, mtu: int, ghost ps: seq<Player>, ghost done: seq<(nat, nat)>,
                     ghost f: Flushes, ghost before: seq<seq<(nat, seq<u8>)>>)
        returns (ghost f': Flushes, ghost done': seq<(nat, nat)>)
      requires Visited(ps, done, channel, mtu, f, before) && Upto(open, i) && i < |ps| && BotsKnown(ps)
      modifies this`buf, this`len, this`overwrote, this`players, this`wsdata, this`wslen, this`sent, this`open, data
      ensures Visited(ps, done', channel, mtu, f', before) && Upto(open, i)
      ensures done' == done + BotVisits(ps[i].bots, i)
    {
      hide Sound, Collected, Grouped, Sending;
      f', done' := f, done;
      var j: nat := 0;
      CollectedSame(ps, done', channel);
      while j < |players[i].bots|
        invariant |players| == |ps| && players[i].bots == ps[i].bots && j <= |ps[i].bots|
        invariant Visited(ps, done', channel, mtu, f', before) && Upto(open, i)
        invariant done' == done + BotVisits(ps[i].bots, i)[..j]
      {
        var p := players[i].bots[j];
        f' := Visit(p, i, channel, mtu, ps, done', f', before);
        done' := done' + [(p, i)];
        CollectedSame(ps, done', channel);
        j := j + 1;
      }
      assert BotVisits(ps[i].bots, i)[..j] == BotVisits(ps[i].bots, i);
    }

    method VisitClient(i: nat, channel: nat, mtu: int, ghost ps: seq<Player>, ghost f: Flushes,
                       ghost before: seq<seq<(nat, seq<u8>)>>)
        returns (ghost f': Flushes)
      requires i < |ps| && Visited(ps, Visits(ps, i), channel, mtu, f, before) && Upto(open, i) && BotsKnown(ps)
      modifies this`buf, this`len, this`overwrote, this`players, this`wsdata, this`wslen, this`sent, this`open, data
      ensures Visited(ps, Visits(ps, i + 1), channel, mtu, f', before) && Upto(open, i)
    {
      ghost var done := Visits(ps, i);
      CollectedSame(ps, done, channel);
      NextVisits(ps, i);
      hide Sound, Collected, Grouped, Visits, Sending, BotVisits;
      f' := f;
      if players[i].human {
        f' := Visit(i, i, channel, mtu, ps, done, f', before);
        f', done := VisitBots(i, channel, mtu, ps, done + [(i, i)], f', before);
      }
    }

    method VisitAll(channel: nat, mtu: int, ghost before: seq<seq<(nat, seq<u8>)>>)
        returns (ghost f: Flushes)
      requires Valid() && open == [] && BotsKnown(players) && Sending(Flushes([], []), channel, before)
      modifies this`buf, this`len, this`overwrote, this`players, this`wsdata, this`wslen, this`sent, this`open, data
      ensures Visited(old(players), Visits(old(players), |old(players)|), channel, mtu, f, before)
    {
      ghost var ps := players;
      f := Flushes([], []);
      CollectedNone(ps, channel, mtu);
      NoVisits(ps);
      hide Sound, Collected, Grouped, Visits, Sending;
      var i: nat := 0;
      while i < |players|
        invariant i <= |ps| == |players| && Visited(ps, Visits(ps, i), channel, mtu, f, before) && Upto(open, i)
      {
        f := VisitClient(i, channel, mtu, ps, f, before);
        CollectedSame(ps, Visits(ps, i + 1), channel);
        i := i + 1;
      }
    }

    // The loops of buildworldstate over the humans and their bots, and the flush behind them.
    method Round(channel: nat, mtu: int)
      requires Valid() && open == [] && BotsKnown(players)
      modifies this`buf, this`len, this`overwrote, this`players, this`wsdata, this`wslen, this`sent, this`open, data
      ensures Valid() && open == [] && BotsKnown(players)
      ensures players == Swept(old(players), channel) && SameClients(old(players), players)
      ensures forall i: nat {:trigger Found(i)} :: i < |players| ==>
        Found(i) == old(Found(i)) +
          if players[i].human then Deliveries(Sent(old(players), channel, mtu), channel, i) else []
    {
      hide Sound, Collected, Grouped, Visits, Deliveries, BotsKnown, SameClients;
      ghost var ps, d, s := players, data[..], sent;
      ghost var before := seq(|ps|, i requires 0 <= i < |ps| => Inbox(d, s, i));
      NothingDelivered(channel);
      VisitsKnown(ps, |ps|);
      CollectedSame(ps, Visits(ps, |ps|), channel);
      BotsStay(ps, Collected(ps, Visits(ps, |ps|), channel).1);
      ghost var f := VisitAll(channel, mtu, before);
      FlushStep(channel, f, before);
    }

    // Positions first, then messages.
    method Tick(mtu: int)
      requires Valid() && open == [] && BotsKnown(players) && forall i: nat {:trigger Found(i)} :: Found(i) == []
      modifies this`buf, this`len, this`overwrote, this`players, this`wsdata, this`wslen, this`sent, this`open, data
      ensures Valid() && players == Swept(Swept(old(players), 0), 1)
      ensures forall i: nat {:trigger Found(i)} :: i < |old(players)| ==> Found(i) == Hears(old(players), mtu, i)
    {
      hide Sound, Swept, Sent, Deliveries, BotsKnown, Found;
      Round(0, mtu);
      Round(1, mtu);
    }
  }

  ghost predicate BotsKnown(ps: seq<Player>) {
    forall i, j :: 0 <= i < |ps| && 0 <= j < |ps[i].bots| ==> ps[i].bots[j] < |ps|
  }

  lemma {:induction false} VisitsKnown(ps: seq<Player>, n: nat)
    requires BotsKnown(ps) && n <= |ps|
    ensures Known(ps, Visits(ps, n))
    decreases n
  {
    if n > 0 { VisitsKnown(ps, n - 1); }
  }

  // All flushes of a channel.
  function Sent(ps: seq<Player>, channel: nat, mtu: int): seq<seq<Update>> {
    if Known(ps, Visits(ps, |ps|)) then Closed(Grouped(Collected(ps, Visits(ps, |ps|), channel).0, mtu)).closed else []
  }

  // The clients once everything to be sent on a channel has been taken from them.
  function Swept(ps: seq<Player>, channel: nat): seq<Player> {
    if Known(ps, Visits(ps, |ps|)) then Collected(ps, Visits(ps, |ps|), channel).1 else ps
  }

  // Who is human and who runs which bots does not change on the way.
  ghost predicate SameClients(ps: seq<Player>, qs: seq<Player>) {
    && |qs| == |ps|
    && forall i {:trigger qs[i]} {:trigger ps[i]} :: 0 <= i < |ps| ==>
      qs[i].human == ps[i].human && qs[i].bots == ps[i].bots
  }

  lemma {:induction false} CollectedSame(ps: seq<Player>, vs: seq<(nat, nat)>, channel: nat)
    requires Known(ps, vs)
    ensures SameClients(ps, Collected(ps, vs, channel).1)
    decreases |vs|
  {
    if vs != [] { CollectedSame(ps, vs[..|vs| - 1], channel); }
  }

  lemma BotsStay(ps: seq<Player>, qs: seq<Player>)
    requires BotsKnown(ps) && SameClients(ps, qs)
    ensures BotsKnown(qs)
  {
  }

  lemma CollectedNone(ps: seq<Player>, channel: nat, mtu: int)
    ensures Known(ps, []) && Collected(ps, [], channel) == ([], ps) && Grouped([], mtu) == Flushes([], [])
  {
  }

  lemma {:induction false} PendingNone(ps: seq<Player>)
    ensures Pending(ps) == 0 <==> forall i :: 0 <= i < |ps| ==> ps[i].position == [] && ps[i].messages == []
    decreases |ps|
  {
    if ps != [] {
      var n := |ps| - 1;
      PendingNone(ps[..n]);
      assert forall i :: 0 <= i < n ==> ps[..n][i] == ps[i];
    }
  }

  lemma NoVisits(ps: seq<Player>)
    ensures Visits(ps, 0) == []
  {
  }

  lemma NothingDelivered(channel: nat)
    ensures forall i: nat :: Deliveries([], channel, i) == []
  {
  }

  lemma NextVisits(ps: seq<Player>, i: nat)
    requires i < |ps|
    ensures ps[i].human ==> Visits(ps, i + 1) == Visits(ps, i) + [(i, i)] + BotVisits(ps[i].bots, i)
    ensures !ps[i].human ==> Visits(ps, i + 1) == Visits(ps, i)
  {
  }

  lemma CollectedMore(ps: seq<Player>, done: seq<(nat, nat)>, p: nat, owner: nat, channel: nat, mtu: int)
    requires Known(ps, done) && p < |ps|
    ensures Known(ps, done + [(p, owner)])
    ensures var (us, qs) := Collected(ps, done, channel); var (us', qs') := Collected(ps, done + [(p, owner)], channel);
      if Said(qs[p], channel) == [] then us' == us && qs' == qs && Grouped(us', mtu) == Grouped(us, mtu)
      else qs' == qs[p := Silenced(qs[p], channel)]
           && Grouped(us', mtu) == Stepped(Grouped(us, mtu), Made(qs[p], channel, owner), mtu)
  {
    hide Grouped, Stepped, Made, Silenced, Said;
    assert (done + [(p, owner)])[..|done|] == done;
    var r := Collected(ps, done, channel);
    GroupedLast(r.0, Made(r.1[p], channel, owner), mtu);
  }

  // One more update, after a flush where it would not fit.
  function Stepped(f: Flushes, u: Update, mtu: int): Flushes {
    var g := if |Bytes(f.open)| + u.cost > mtu then Closed(f) else f;
    g.(open := g.open + [u])
  }

  lemma DeliveriesMore(f: Flushes, channel: nat, i: nat)
    ensures Deliveries(Closed(f).closed, channel, i) == Deliveries(f.closed, channel, i) + Delivery(f.open, channel, i)
  {
    if f.open == [] { NothingExpected(); } else { assert (f.closed + [f.open])[..|f.closed|] == f.closed; }
  }

  // --- What the flushes come to. ---

  ghost predicate VisitsInTurn(vs: seq<(nat, nat)>) { forall j, k :: 0 <= j < k < |vs| ==> vs[j].1 <= vs[k].1 }

  lemma {:induction false} VisitsAreInTurn(ps: seq<Player>, n: nat)
    requires n <= |ps|
    ensures VisitsInTurn(Visits(ps, n)) && forall k :: 0 <= k < |Visits(ps, n)| ==> Visits(ps, n)[k].1 < n
  {
    if n > 0 { VisitsAreInTurn(ps, n - 1); }
  }

  lemma {:induction false} CollectedInTurn(ps: seq<Player>, vs: seq<(nat, nat)>, channel: nat)
    requires Known(ps, vs) && VisitsInTurn(vs)
    ensures var us := Collected(ps, vs, channel).0;
      InTurn(us) && (vs != [] ==> Upto(us, vs[|vs| - 1].1)) && (vs == [] ==> us == [])
    decreases |vs|
  {
    if vs != [] {
      var n := |vs| - 1;
      CollectedInTurn(ps, vs[..n], channel);
      if n > 0 { assert vs[..n][n - 1] == vs[n - 1]; }
    }
  }

  ghost predicate AllInTurn(gs: seq<seq<Update>>) { forall k :: 0 <= k < |gs| ==> InTurn(gs[k]) }

  ghost predicate FlushesInTurn(f: Flushes, us: seq<Update>) {
    && AllInTurn(f.closed) && InTurn(f.open)
    && forall o: nat {:trigger Upto(us, o)} :: Upto(us, o) ==> Upto(f.open, o)
  }

  lemma StepInTurn(f: Flushes, us: seq<Update>, u: Update, mtu: int)
    requires FlushesInTurn(f, us) && Upto(us, u.owner)
    ensures FlushesInTurn(Stepped(f, u, mtu), us + [u])
  {
    hide Bytes;
    var g := Stepped(f, u, mtu);
    forall o: nat | Upto(us + [u], o) ensures Upto(g.open, o) {
      assert (us + [u])[|us|] == u;
      assert forall k :: 0 <= k < |us| ==> (us + [u])[k] == us[k];
      assert Upto(us, o);
    }
  }

  lemma NoneInTurn(mtu: int)
    ensures FlushesInTurn(Grouped([], mtu), [])
  {
  }

  lemma {:induction false} GroupsInTurn(us: seq<Update>, mtu: int)
    requires InTurn(us)
    ensures FlushesInTurn(Grouped(us, mtu), us)
    decreases |us|
  {
    hide Grouped, FlushesInTurn;
    if us == [] {
      NoneInTurn(mtu);
    } else {
      var n := |us| - 1;
      var front, u := us[..n], us[n];
      GroupsInTurn(front, mtu);
      assert Upto(front, u.owner) && us == front + [u];
      StepInTurn(Grouped(front, mtu), front, u, mtu);
      GroupedLast(front, u, mtu);
    }
  }

  // Every packet of a channel is all that the others said between two flushes, rotated; and together
  // the flushes hold every update once.
  lemma PacketIsOthers(ps: seq<Player>, channel: nat, mtu: int, k: nat, i: nat) returns (cut: nat)
    requires BotsKnown(ps) && k < |Sent(ps, channel, mtu)|
    ensures var s := Bytes(Others(Sent(ps, channel, mtu)[k], i));
      cut <= |s| && Expected(Sent(ps, channel, mtu)[k], i) == s[cut..] + s[..cut]
  {
    var vs := Visits(ps, |ps|);
    VisitsKnown(ps, |ps|);
    VisitsAreInTurn(ps, |ps|);
    CollectedInTurn(ps, vs, channel);
    GroupsInTurn(Collected(ps, vs, channel).0, mtu);
    hide Bytes, Others, Expected, Grouped, Collected, InTurn, Visits;
    cut := ExpectedIsOthers(Sent(ps, channel, mtu)[k], i);
  }

  lemma SentHoldsAll(ps: seq<Player>, channel: nat, mtu: int)
    requires BotsKnown(ps)
    ensures Known(ps, Visits(ps, |ps|)) && Flat(Sent(ps, channel, mtu)) == Collected(ps, Visits(ps, |ps|), channel).0
  {
    VisitsKnown(ps, |ps|);
    FlushesHoldAll(Collected(ps, Visits(ps, |ps|), channel).0, mtu);
  }

  // Where no client is visited twice, the updates are simply what each visited client has to say.
  function Spoken(ps: seq<Player>, vs: seq<(nat, nat)>, channel: nat): seq<Update>
    requires Known(ps, vs)
  {
    if vs == [] then [] else
      var (p, owner) := vs[|vs| - 1];
      Spoken(ps, vs[..|vs| - 1], channel) + if Said(ps[p], channel) == [] then [] else [Made(ps[p], channel, owner)]
  }

  // What a channel's visits have taken from clients so far: all of it, from those visited.
  ghost predicate Taken(ps: seq<Player>, qs: seq<Player>, vs: seq<(nat, nat)>, channel: nat) {
    && |qs| == |ps|
    && (forall p {:trigger qs[p]} :: 0 <= p < |ps| && (forall k :: 0 <= k < |vs| ==> vs[k].0 != p) ==> qs[p] == ps[p])
    && (forall k {:trigger vs[k]} :: 0 <= k < |vs| ==> vs[k].0 < |qs| && Said(qs[vs[k].0], channel) == [])
  }

  lemma SilencedSaysNothing(p: Player, channel: nat)
    ensures Said(Silenced(p, channel), channel) == []
  {
  }

  lemma {:induction false} CollectedOnce(ps: seq<Player>, vs: seq<(nat, nat)>, channel: nat)
    requires Known(ps, vs) && forall j, k :: 0 <= j < k < |vs| ==> vs[j].0 != vs[k].0
    ensures Collected(ps, vs, channel).0 == Spoken(ps, vs, channel)
    ensures Taken(ps, Collected(ps, vs, channel).1, vs, channel)
    decreases |vs|
  {
    hide Said, Silenced, Made, Taken;
    if vs == [] {
      NothingTaken(ps, channel);
    } else {
      var n := |vs| - 1;
      var front := vs[..n];
      CollectedOnce(ps, front, channel);
      TakenNext(ps, Collected(ps, front, channel).1, front, vs[n], channel);
      assert vs == front + [vs[n]];
    }
  }

  lemma NothingTaken(ps: seq<Player>, channel: nat)
    ensures Taken(ps, ps, [], channel)
  {
  }

  lemma TakenNext(ps: seq<Player>, qs: seq<Player>, front: seq<(nat, nat)>, v: (nat, nat), channel: nat)
    requires Taken(ps, qs, front, channel) && v.0 < |ps| && forall k :: 0 <= k < |front| ==> front[k].0 != v.0
    ensures |qs| == |ps| && qs[v.0] == ps[v.0]
    ensures Said(qs[v.0], channel) == [] ==> Taken(ps, qs, front + [v], channel)
    ensures Taken(ps, qs[v.0 := Silenced(qs[v.0], channel)], front + [v], channel)
  {
    hide Said, Silenced;
    SilencedSaysNothing(qs[v.0], channel);
    var vs := front + [v];
    assert vs[|front|] == v && forall k :: 0 <= k < |front| ==> vs[k] == front[k];
  }

  // --- buildworldstate. ---

  method Demand(ps: seq<Player>) returns (wsmax: nat)
    ensures wsmax == Pending(ps)
  {
    wsmax := 0;
    for i := 0 to |ps|
      invariant wsmax == Pending(ps[..i])
    {
      assert ps[..i + 1][..i] == ps[..i];
      wsmax := wsmax + |ps[i].position|;
      if |ps[i].messages| > 0 { wsmax := wsmax + 10 + |ps[i].messages|; }
    }
    assert ps[..|ps|] == ps;
  }

  function Limit(ps: seq<Player>, servermtu: int): int {
    if servermtu > 100 then servermtu - 100 else 2 * Pending(ps)
  }

  lemma LimitIs(ps: seq<Player>, servermtu: int)
    ensures Limit(ps, servermtu) == if servermtu - 100 <= 0 then 2 * Pending(ps) else servermtu - 100
  {
  }

  // --- The MTU is watched. ---

  // A flush exceeds the MTU only by one update that does alone, and none comes before the next update asks for it.
  ghost predicate Watched(gs: seq<seq<Update>>, mtu: int) {
    && (forall k :: 0 <= k < |gs| ==> gs[k] != [] && (|Bytes(gs[k])| <= mtu || |gs[k]| == 1))
    && forall k :: 0 <= k < |gs| - 1 ==> |Bytes(gs[k])| + gs[k + 1][0].cost > mtu
  }

  ghost predicate Watching(f: Flushes, mtu: int) {
    Watched(Closed(f).closed, mtu) && (f.open == [] ==> f.closed == [])
  }

  ghost predicate Costly(us: seq<Update>) { forall k :: 0 <= k < |us| ==> |us[k].bytes| <= us[k].cost }

  lemma WatchedMore(gs: seq<seq<Update>>, mtu: int, u: Update)
    requires Watched(gs, mtu) && (gs != [] ==> |Bytes(gs[|gs| - 1])| + u.cost > mtu)
    ensures Watched(gs + [[u]], mtu)
  {
  }

  lemma WatchedLast(gs: seq<seq<Update>>, g: seq<Update>, mtu: int, u: Update)
    requires Watched(gs + [g], mtu) && g != [] && |Bytes(g)| + u.cost <= mtu && |u.bytes| <= u.cost
    ensures Watched(gs + [g + [u]], mtu)
  {
    BytesLast(g, u);
    hide Bytes;
    var hs: seq<seq<Update>>, was := gs + [g + [u]], gs + [g];
    forall k | 0 <= k < |hs| ensures hs[k] != [] && (|Bytes(hs[k])| <= mtu || |hs[k]| == 1) {
      if k < |gs| { assert was[k] == hs[k]; }
    }
    forall k | 0 <= k < |hs| - 1 ensures |Bytes(hs[k])| + hs[k + 1][0].cost > mtu {
      assert was[k] == hs[k] && was[k + 1][0] == hs[k + 1][0];
    }
  }

  lemma StepWatches(f: Flushes, u: Update, mtu: int)
    requires Watching(f, mtu) && |u.bytes| <= u.cost
    ensures Watching(Stepped(f, u, mtu), mtu)
  {
    NoBytes();
    hide Bytes, Watched;
    if |Bytes(f.open)| + u.cost > mtu || f.open == [] {
      WatchedMore(Closed(f).closed, mtu, u);
      assert [] + [u] == [u];
    } else {
      WatchedLast(f.closed, f.open, mtu, u);
    }
  }

  lemma {:induction false} GroupedWatches(us: seq<Update>, mtu: int)
    requires Costly(us)
    ensures Watching(Grouped(us, mtu), mtu)
    decreases |us|
  {
    hide Watching, Stepped;
    if us == [] {
      NoneWatched(mtu);
    } else {
      GroupedWatches(us[..|us| - 1], mtu);
      StepWatches(Grouped(us[..|us| - 1], mtu), us[|us| - 1], mtu);
    }
  }

  lemma NoneWatched(mtu: int)
    ensures Watching(Flushes([], []), mtu)
  {
  }

  // Three updates of 600 bytes take two packets of 1400.
  lemma ThreeUpdates(u: Update, v: Update, w: Update)
    requires |u.bytes| == |v.bytes| == |w.bytes| == u.cost == v.cost == w.cost == 600
    ensures Closed(Grouped([u, v, w], 1400)).closed == [[u, v], [w]]
  {
    hide Bytes, Grouped;
    assert [] + [u] == [u] && [u] + [v] == [u, v] && [u, v] + [w] == [u, v, w];
    GroupedLast([], u, 1400);
    GroupedLast([u], v, 1400);
    GroupedLast([u, v], w, 1400);
    GroupedNoneIs(1400);
    NoBytes();
    BytesLast([], u);
    BytesLast([u], v);
    assert Grouped([u], 1400) == Flushes([], [u]);
    assert Grouped([u, v], 1400) == Flushes([], [u, v]);
    assert [] + [w] == [w];
    assert Grouped([u, v, w], 1400) == Flushes([[u, v]], [w]);
  }

  lemma GroupedNoneIs(mtu: int)
    ensures Grouped([], mtu) == Flushes([], [])
  {
  }

  // --- Everyone is visited, and what they say is what is sent. ---

  lemma {:induction false} VisitsAre(ps: seq<Player>, n: nat, p: nat, o: nat)
    requires n <= |ps|
    ensures (p, o) in Visits(ps, n) <==> o < n && ps[o].human && (p == o || p in ps[o].bots)
  {
    if n > 0 {
      VisitsAre(ps, n - 1, p, o);
      var bots := ps[n - 1].bots;
      if p in bots {
        var j :| 0 <= j < |bots| && bots[j] == p;
        assert BotVisits(bots, n - 1)[j] == (p, n - 1);
      }
    }
  }

  // A human comes first and then the bots, in turn.
  lemma {:induction false} VisitsInRow(ps: seq<Player>, n: nat, o: nat)
    requires o < n <= |ps| && ps[o].human
    ensures var vs, from, bots := Visits(ps, n), |Visits(ps, o)|, ps[o].bots;
      && from + 1 + |bots| <= |vs| && vs[from] == (o, o)
      && forall j :: 0 <= j < |bots| ==> vs[from + 1 + j] == (bots[j], o)
    decreases n
  {
    if o < n - 1 { VisitsInRow(ps, n - 1, o); }
  }

  // What the updates of some visits are, and what they leave: what a client said is in them once it is taken.
  ghost predicate Fair(ps: seq<Player>, vs: seq<(nat, nat)>, us: seq<Update>, qs: seq<Player>, channel: nat) {
    && |qs| == |ps|
    && (forall u :: u in us ==> SomeonesUpdate(ps, vs, u, channel))
    && (forall p {:trigger qs[p]} :: 0 <= p < |ps| ==> FairTo(ps[p], p, qs[p], vs, us, channel))
    && forall v :: v in vs ==> v.0 < |ps| && Said(qs[v.0], channel) == []
  }

  ghost predicate FairTo(p: Player, c: nat, q: Player, vs: seq<(nat, nat)>, us: seq<Update>, channel: nat) {
    q == p || (q == Silenced(p, channel) && exists o :: (c, o) in vs && Made(p, channel, o) in us)
  }

  ghost predicate SomeonesUpdate(ps: seq<Player>, vs: seq<(nat, nat)>, u: Update, channel: nat) {
    exists v :: v in vs && v.0 < |ps| && u == Made(ps[v.0], channel, v.1)
  }

  lemma {:induction false} CollectedFairly(ps: seq<Player>, vs: seq<(nat, nat)>, channel: nat)
    requires Known(ps, vs)
    ensures Fair(ps, vs, Collected(ps, vs, channel).0, Collected(ps, vs, channel).1, channel)
    decreases |vs|
  {
    hide Said, Silenced, Made, Fair;
    if vs == [] {
      NoneFair(ps, channel);
    } else {
      var n := |vs| - 1;
      CollectedFairly(ps, vs[..n], channel);
      var r := Collected(ps, vs[..n], channel);
      var p, o := vs[n].0, vs[n].1;
      if Said(r.1[p], channel) == [] {
        FairQuiet(ps, vs[..n], r.0, r.1, p, o, channel);
      } else {
        FairSpoken(ps, vs[..n], r.0, r.1, p, o, channel);
      }
      assert vs == vs[..n] + [vs[n]] && vs[n] == (vs[n].0, vs[n].1);
    }
  }

  lemma NoneFair(ps: seq<Player>, channel: nat)
    ensures Fair(ps, [], [], ps, channel)
  {
  }

  lemma FairQuiet(ps: seq<Player>, vs: seq<(nat, nat)>, us: seq<Update>, qs: seq<Player>, p: nat, o: nat, channel: nat)
    requires Fair(ps, vs, us, qs, channel) && p < |ps| && Said(qs[p], channel) == []
    ensures Fair(ps, vs + [(p, o)], us, qs, channel)
  {
    hide Said, SomeonesUpdate, FairTo;
    forall u | u in us ensures SomeonesUpdate(ps, vs + [(p, o)], u, channel) {
      SomeonesMore(ps, vs, u, channel, (p, o));
    }
    forall c | 0 <= c < |ps| ensures FairTo(ps[c], c, qs[c], vs + [(p, o)], us, channel) {
      FairToMore(ps[c], c, qs[c], vs, us, channel, (p, o), []);
    }
  }

  lemma FairSpoken(ps: seq<Player>, vs: seq<(nat, nat)>, us: seq<Update>, qs: seq<Player>, p: nat, o: nat, channel: nat)
    requires Fair(ps, vs, us, qs, channel) && p < |ps| && Said(qs[p], channel) != []
    ensures
      Fair(ps, vs + [(p, o)], us + [Made(qs[p], channel, o)], qs[p := Silenced(qs[p], channel)], channel)
  {
    hide Said, Silenced, Made, SomeonesUpdate, FairTo;
    NotTaken(ps[p], p, qs[p], vs, us, channel);
    SilencedSaysNothing(qs[p], channel);
    var us', qs' := us + [Made(qs[p], channel, o)], qs[p := Silenced(qs[p], channel)];
    SpokenNow(ps, p, o, vs, us, channel);
    forall u | u in us' ensures SomeonesUpdate(ps, vs + [(p, o)], u, channel) {
      if u in us { SomeonesMore(ps, vs, u, channel, (p, o)); }
    }
    forall c | 0 <= c < |ps| ensures FairTo(ps[c], c, qs'[c], vs + [(p, o)], us', channel) {
      if c != p { FairToMore(ps[c], c, qs[c], vs, us, channel, (p, o), [Made(qs[p], channel, o)]); }
    }
    forall v | v in vs + [(p, o)] ensures v.0 < |ps| && Said(qs'[v.0], channel) == [] {
      if v.0 != p { assert v in vs; }
    }
  }

  // Who says something has had nothing taken.
  lemma NotTaken(p: Player, c: nat, q: Player, vs: seq<(nat, nat)>, us: seq<Update>, channel: nat)
    requires FairTo(p, c, q, vs, us, channel) && Said(q, channel) != []
    ensures q == p
  {
    SilencedSaysNothing(p, channel);
    hide Said, Silenced;
  }

  lemma SomeonesMore(ps: seq<Player>, vs: seq<(nat, nat)>, u: Update, channel: nat, v: (nat, nat))
    requires SomeonesUpdate(ps, vs, u, channel)
    ensures SomeonesUpdate(ps, vs + [v], u, channel)
  {
    var w :| w in vs && w.0 < |ps| && u == Made(ps[w.0], channel, w.1);
    assert w in vs + [v];
  }

  lemma FairToMore(p: Player, c: nat, q: Player, vs: seq<(nat, nat)>, us: seq<Update>, channel: nat, v: (nat, nat),
                   more: seq<Update>)
    requires FairTo(p, c, q, vs, us, channel)
    ensures FairTo(p, c, q, vs + [v], us + more, channel) && (more == [] ==> us + more == us)
  {
    hide Silenced, Made;
    if q != p {
      var o :| (c, o) in vs && Made(p, channel, o) in us;
      assert (c, o) in vs + [v];
    }
  }

  lemma SpokenNow(ps: seq<Player>, p: nat, o: nat, vs: seq<(nat, nat)>, us: seq<Update>, channel: nat)
    requires p < |ps|
    ensures var u := Made(ps[p], channel, o);
      && SomeonesUpdate(ps, vs + [(p, o)], u, channel)
      && FairTo(ps[p], p, Silenced(ps[p], channel), vs + [(p, o)], us + [u], channel)
  {
    hide Silenced, Made;
    var v := (p, o);
    assert v in vs + [v] && Made(ps[p], channel, o) in us + [Made(ps[p], channel, o)];
    assert ps[v.0] == ps[p] && v.1 == o;
  }

  lemma {:induction false} FlatHas(gs: seq<seq<Update>>, u: Update)
    ensures u in Flat(gs) <==> exists g :: g in gs && u in g
  {
    if gs != [] {
      var n := |gs| - 1;
      FlatHas(gs[..n], u);
      assert gs == gs[..n] + [gs[n]];
    }
  }

  lemma Heard(ps: seq<Player>, vs: seq<(nat, nat)>, us: seq<Update>, qs: seq<Player>, channel: nat, p: nat, o: nat)
    returns (account: nat)
    requires Fair(ps, vs, us, qs, channel) && (p, o) in vs && p < |ps| && Said(ps[p], channel) != []
    ensures Made(ps[p], channel, account) in us
  {
    hide Said, Silenced, Made, SomeonesUpdate;
    assert Said(qs[(p, o).0], channel) == [] && FairTo(ps[p], p, qs[p], vs, us, channel);
    account :| (p, account) in vs && Made(ps[p], channel, account) in us;
  }

  // Whatever a human or one of their bots has to say is in a flush, on somebody's account;
  lemma EveryoneIsHeard(ps: seq<Player>, channel: nat, mtu: int, p: nat, o: nat)
    returns (g: seq<Update>, account: nat)
    requires BotsKnown(ps) && o < |ps| && p < |ps| && ps[o].human && (p == o || p in ps[o].bots)
    requires Said(ps[p], channel) != []
    ensures g in Sent(ps, channel, mtu) && Made(ps[p], channel, account) in g
  {
    hide Visits, Collected, Said, Silenced, Made, Sent, Flat, Fair, BotsKnown, Known;
    var vs := Visits(ps, |ps|);
    VisitsAre(ps, |ps|, p, o);
    SentHoldsAll(ps, channel, mtu);
    CollectedFairly(ps, vs, channel);
    var r := Collected(ps, vs, channel);
    account := Heard(ps, vs, r.0, r.1, channel, p, o);
    FlatHas(Sent(ps, channel, mtu), Made(ps[p], channel, account));
    g :| g in Sent(ps, channel, mtu) && Made(ps[p], channel, account) in g;
  }

  // and there is nothing else in any.
  lemma NothingElseSent(ps: seq<Player>, channel: nat, mtu: int, g: seq<Update>, u: Update)
    requires BotsKnown(ps) && g in Sent(ps, channel, mtu) && u in g
    ensures SomeonesUpdate(ps, Visits(ps, |ps|), u, channel)
  {
    SentHoldsAll(ps, channel, mtu);
    CollectedFairly(ps, Visits(ps, |ps|), channel);
    hide Visits, Collected, Said, Silenced, Made, Sent, Flat, SomeonesUpdate;
    FlatHas(Sent(ps, channel, mtu), u);
  }

  lemma MadeFits(p: Player, channel: nat, owner: nat)
    ensures |Made(p, channel, owner).bytes| <= Made(p, channel, owner).cost
  {
  }

  lemma SentIsWatched(ps: seq<Player>, channel: nat, mtu: int)
    requires BotsKnown(ps)
    ensures Watched(Sent(ps, channel, mtu), mtu)
  {
    VisitsKnown(ps, |ps|);
    var vs := Visits(ps, |ps|);
    CollectedFairly(ps, vs, channel);
    hide Visits, Collected, Made, Watched, Grouped;
    var us := Collected(ps, vs, channel).0;
    forall k | 0 <= k < |us| ensures |us[k].bytes| <= us[k].cost {
      assert SomeonesUpdate(ps, vs, us[k], channel);
      var v :| v in vs && v.0 < |ps| && us[k] == Made(ps[v.0], channel, v.1);
      MadeFits(ps[v.0], channel, v.1);
    }
    GroupedWatches(us, mtu);
  }

  // A packet stays within the MTU, unless it is a single client's update.
  ghost predicate Sized(ps: seq<Player>, e: (nat, seq<u8>), mtu: int) {
    |e.1| <= mtu || exists p :: 0 <= p < |ps| && e.1 == Made(ps[p], e.0, 0).bytes
  }

  lemma ExpectedSize(us: seq<Update>, i: nat)
    requires InTurn(us)
    ensures |Expected(us, i)| <= |Bytes(us)|
    ensures |us| == 1 && Expected(us, i) != [] ==> Expected(us, i) == us[0].bytes
  {
    hide Bytes, Before, Own, After;
    BytesParts(us, i);
    if |us| == 1 { OneUpdate(us[0], i); assert us == [us[0]]; }
  }

  lemma OneUpdate(u: Update, i: nat)
    ensures Bytes([u]) == u.bytes && Bytes([]) == []
    ensures Own([u], i) == [] <==> u.owner != i
    ensures u.owner == i ==> After([u], i) == [] && Before([u], i) == []
  {
    assert [u][..0] == [];
  }

  lemma {:induction false} DeliveriesAre(gs: seq<seq<Update>>, channel: nat, i: nat, e: (nat, seq<u8>)) returns (k: nat)
    requires e in Deliveries(gs, channel, i)
    ensures k < |gs| && e == (channel, Expected(gs[k], i)) && Expected(gs[k], i) != []
  {
    k := |gs| - 1;
    if e != (channel, Expected(gs[k], i)) || Expected(gs[k], i) == [] { k := DeliveriesAre(gs[..k], channel, i, e); }
  }

  lemma SentInTurn(ps: seq<Player>, channel: nat, mtu: int)
    requires BotsKnown(ps)
    ensures AllInTurn(Sent(ps, channel, mtu))
  {
    var vs := Visits(ps, |ps|);
    VisitsKnown(ps, |ps|);
    VisitsAreInTurn(ps, |ps|);
    CollectedInTurn(ps, vs, channel);
    GroupsInTurn(Collected(ps, vs, channel).0, mtu);
    hide Collected, Grouped, InTurn, Visits;
  }

  lemma DeliveredSized(ps: seq<Player>, channel: nat, mtu: int, i: nat, e: (nat, seq<u8>))
    requires BotsKnown(ps) && e in Deliveries(Sent(ps, channel, mtu), channel, i)
    ensures Sized(ps, e, mtu)
  {
    hide Bytes, Sent, Expected, InTurn, Deliveries, Made, Visits;
    var gs := Sent(ps, channel, mtu);
    var k := DeliveriesAre(gs, channel, i, e);
    SentInTurn(ps, channel, mtu);
    SentIsWatched(ps, channel, mtu);
    ExpectedSize(gs[k], i);
    if |Bytes(gs[k])| > mtu {
      NothingElseSent(ps, channel, mtu, gs[k], gs[k][0]);
      var v :| v in Visits(ps, |ps|) && v.0 < |ps| && gs[k][0] == Made(ps[v.0], channel, v.1);
      MadeForAll(ps[v.0], channel, v.1);
    }
  }

  lemma MadeForAll(p: Player, channel: nat, owner: nat)
    ensures Made(p, channel, owner).bytes == Made(p, channel, 0).bytes
  {
  }

  // Taking the positions leaves what is said in messages.
  lemma MessagesLeft(ps: seq<Player>, p: nat)
    requires BotsKnown(ps) && p < |ps|
    ensures BotsKnown(Swept(ps, 0)) && |Swept(ps, 0)| == |ps|
    ensures Made(Swept(ps, 0)[p], 1, 0) == Made(ps[p], 1, 0)
  {
    var vs := Visits(ps, |ps|);
    VisitsKnown(ps, |ps|);
    CollectedFairly(ps, vs, 0);
    CollectedSame(ps, vs, 0);
    hide Visits, Collected;
    assert FairTo(ps[p], p, Swept(ps, 0)[p], vs, Collected(ps, vs, 0).0, 0);
  }

  lemma HearsSized(ps: seq<Player>, mtu: int, i: nat)
    requires BotsKnown(ps) && i < |ps|
    ensures forall e :: e in Hears(ps, mtu, i) ==> e.0 < 2 && Sized(ps, e, mtu)
  {
    MessagesLeft(ps, i);
    hide Bytes, Sent, Expected, InTurn, Deliveries, Made, Visits, Swept, Sized;
    var qs := Swept(ps, 0);
    forall e | e in Hears(ps, mtu, i) ensures e.0 < 2 && Sized(ps, e, mtu) {
      if e in Deliveries(Sent(ps, 0, mtu), 0, i) {
        var k := DeliveriesAre(Sent(ps, 0, mtu), 0, i, e);
        DeliveredSized(ps, 0, mtu, i, e);
      } else {
        var k := DeliveriesAre(Sent(qs, 1, mtu), 1, i, e);
        DeliveredSized(qs, 1, mtu, i, e);
        SweptSized(ps, mtu, e);
      }
    }
  }

  lemma SweptSized(ps: seq<Player>, mtu: int, e: (nat, seq<u8>))
    requires BotsKnown(ps) && e.0 == 1 && Sized(Swept(ps, 0), e, mtu) && |Swept(ps, 0)| == |ps|
    ensures Sized(ps, e, mtu)
  {
    hide Swept, Made;
    if |e.1| > mtu {
      var p :| 0 <= p < |ps| && e.1 == Made(Swept(ps, 0)[p], 1, 0).bytes;
      MessagesLeft(ps, p);
    }
  }

  lemma AllSized(ps: seq<Player>, mtu: int)
    requires BotsKnown(ps)
    ensures forall i: nat, e {:trigger e in Hears(ps, mtu, i)} :: i < |ps| && e in Hears(ps, mtu, i) ==>
      e.0 < 2 && Sized(ps, e, mtu)
  {
    hide Hears, Sized;
    forall i: nat | i < |ps| ensures forall e :: e in Hears(ps, mtu, i) ==> e.0 < 2 && Sized(ps, e, mtu) {
      HearsSized(ps, mtu, i);
    }
  }

  // A position goes out as it is; messages go behind 85, the client's number and their length, for which ten
  // bytes are counted.
  lemma MadeIs(p: Player, owner: nat)
    ensures Made(p, 0, owner) == Update(owner, p.position, |p.position|)
    ensures var u := Made(p, 1, owner); var n := |u.bytes| - |p.messages|;
      && u.owner == owner && u.cost == 10 + |p.messages| && 0 <= n <= 10 && u.bytes[n..] == p.messages
      && IntAt(u.bytes, 0).0 == 85 && IntAt(u.bytes, IntAt(u.bytes, 0).1).0 == p.clientnum
      && (|p.messages| < 0x1000_0000 ==>
        UintAt(u.bytes, IntAt(u.bytes, IntAt(u.bytes, 0).1).1) == (|p.messages|, n))
  {
    hide IntAt, UintAt, IntBytes, UintBytes, Wrapped;
    HeaderReads(p.clientnum, Length(p.messages), p.messages);
    UintExactRange(Length(p.messages));
  }

  lemma HeaderReads(client: int32, n: int32, m: seq<u8>)
    ensures var h := IntBytes(85) + IntBytes(client) + UintBytes(n); var s := h + m;
      && IntAt(s, 0).0 == 85 && IntAt(s, IntAt(s, 0).1).0 == client
      && UintAt(s, IntAt(s, IntAt(s, 0).1).1) == (Wrapped(n), |h|) && s[|h|..] == m
  {
    hide *;
    var a, b, c := IntBytes(85), IntBytes(client), UintBytes(n);
    InParts(a, b, c, m);
    IntRoundTrip([], 85, b + c + m);
    IntRoundTrip([] + a, client, c + m);
    UintRoundTrip([] + a + b, n, m);
  }

  lemma InParts(a: seq<u8>, b: seq<u8>, c: seq<u8>, m: seq<u8>)
    ensures a + b + c + m == [] + a + (b + c + m) == [] + a + b + (c + m) == [] + a + b + c + m
    ensures (a + b + c + m)[|a + b + c|..] == m
  {
  }

  // Everything client i hears in a tick.
  ghost function Hears(ps: seq<Player>, mtu: int, i: nat): seq<(nat, seq<u8>)>
    requires i < |ps|
  {
    if ps[i].human then Deliveries(Sent(ps, 0, mtu), 0, i) + Deliveries(Sent(Swept(ps, 0), 1, mtu), 1, i) else []
  }

  // Nothing is sent, or each human finds in the packets just what the flushes of both channels hold
  // for them, and all that was said is taken from the clients visited.
  method BuildWorldState(players: seq<Player>, servermtu: int) returns (ws: WorldState?)
    requires BotsKnown(players)
    ensures ws == null <==> forall i :: 0 <= i < |players| ==> players[i].position == [] && players[i].messages == []
    ensures ws != null ==> fresh(ws) && ws.Valid() && ws.players == Swept(Swept(players, 0), 1)
    ensures ws != null ==>
      forall i: nat {:trigger ws.Found(i)} :: i < |players| ==>
        ws.Found(i) == Hears(players, Limit(players, servermtu), i)
    ensures ws != null && servermtu > 100 ==>
      forall i: nat, e {:trigger e in ws.Found(i)} :: i < |players| && e in ws.Found(i) ==>
        e.0 < 2 && Sized(players, e, servermtu - 100)
  {
    var wsmax := Demand(players);
    PendingNone(players);
    LimitIs(players, servermtu);
    AllSized(players, Limit(players, servermtu));
    hide *;
    if wsmax == 0 { return null; }
    ws := new WorldState(wsmax, players);
    var mtu := servermtu - 100;
    if mtu <= 0 { mtu := ws.data.Length; }
    ws.Tick(mtu);
  }
}
