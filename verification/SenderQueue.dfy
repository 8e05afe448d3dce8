/** The sending half of a peer in src/enet/protocol.c: commands wait in `outgoing`, move to `sent`
    when written to a datagram, back on a timeout, and leave on their acknowledgement; meanwhile
    the data in transit and the windows in use are counted. */
module SenderQueue {
  import opened Words
  import opened Numbers
  import opened ReliableOrder
  import opened ReliableRun

  const TIME_OVERFLOW := 86400000  // ENET_TIME_OVERFLOW
  const THROTTLE_SCALE := 32       // ENET_PEER_PACKET_THROTTLE_SCALE
  const MAXIMUM_MTU := 4096        // ENET_PROTOCOL_MAXIMUM_MTU
  const MAXIMUM_WINDOW := 65536    // ENET_PROTOCOL_MAXIMUM_WINDOW_SIZE
  const OWN := 255                 // channel 0xFF: the peer's own commands
  const WIDE := 0x1_0000_0000_0000_0000  // size_t

  // A reliable command. Indices count from 1 without wrapping; the source holds and compares only
  // Number(index).
  datatype Outgoing = Outgoing(
    channel: nat, index: nat, hasPacket: bool, length: u16, size: nat,
    attempts: nat, sentTime: u32, timeout: u32, timeoutLimit: u32)

  // ENetChannel's sending half; `used` are the bits of usedReliableWindows.
  datatype Lane = Lane(numbered: nat, windows: seq<nat>, used: set<nat>)

  // What a channel's counters must reflect: how many of its commands were ever sent, and which of
  // those have not been acknowledged.
  datatype Account = Account(started: nat, outstanding: set<nat>)

  // --- What the queues hold. ---

  function Weight(o: Outgoing): nat { if o.hasPacket then o.length else 0 }

  function InTransit(q: seq<Outgoing>): nat {
    if q == [] then 0 else Weight(q[0]) + InTransit(q[1..])
  }

  // The indices of channel c's commands that have been sent at least once.
  ghost function Tried(q: seq<Outgoing>, c: nat): multiset<nat> {
    if q == [] then multiset{} else TriedHere(q[0], c) + Tried(q[1..], c)
  }

  ghost function TriedHere(o: Outgoing, c: nat): multiset<nat> {
    if o.channel == c && o.attempts > 0 then multiset{o.index} else multiset{}
  }

  // And of those never sent, in queue order.
  ghost function Fresh(q: seq<Outgoing>, c: nat): seq<nat> {
    if q == [] then [] else FreshHere(q[0], c) + Fresh(q[1..], c)
  }

  ghost function FreshHere(o: Outgoing, c: nat): seq<nat> {
    if o.channel == c && o.attempts == 0 then [o.index] else []
  }

  lemma {:induction false} InTransitJoin(p: seq<Outgoing>, q: seq<Outgoing>)
    ensures InTransit(p + q) == InTransit(p) + InTransit(q)
    decreases |p|
  {
    if p == [] { assert p + q == q; } else { assert (p + q)[1..] == p[1..] + q; InTransitJoin(p[1..], q); }
  }

  lemma {:induction false} TriedJoin(p: seq<Outgoing>, q: seq<Outgoing>, c: nat)
    ensures Tried(p + q, c) == Tried(p, c) + Tried(q, c)
    decreases |p|
  {
    if p == [] { assert p + q == q; } else { assert (p + q)[1..] == p[1..] + q; TriedJoin(p[1..], q, c); }
  }

  lemma {:induction false} FreshJoin(p: seq<Outgoing>, q: seq<Outgoing>, c: nat)
    ensures Fresh(p + q, c) == Fresh(p, c) + Fresh(q, c)
    decreases |p|
  {
    if p == [] { assert p + q == q; } else { assert (p + q)[1..] == p[1..] + q; FreshJoin(p[1..], q, c); }
  }

  function Without(q: seq<Outgoing>, i: nat): seq<Outgoing>
    requires i < |q|
  {
    q[..i] + q[i + 1..]
  }

  // Taking one command out of a queue takes out exactly its share of each count.
  lemma InTransitWithout(q: seq<Outgoing>, i: nat)
    requires i < |q|
    ensures InTransit(q) == InTransit(Without(q, i)) + Weight(q[i])
  {
    assert q == q[..i] + q[i..] && q[i..][1..] == q[i + 1..];
    InTransitJoin(q[..i], q[i..]);
    InTransitJoin(q[..i], q[i + 1..]);
  }

  lemma TriedWithout(q: seq<Outgoing>, i: nat, c: nat)
    requires i < |q|
    ensures Tried(q, c) == if q[i].channel == c && q[i].attempts > 0
      then Tried(Without(q, i), c) + multiset{q[i].index} else Tried(Without(q, i), c)
  {
    assert q == q[..i] + q[i..] && q[i..][1..] == q[i + 1..];
    TriedJoin(q[..i], q[i..], c);
    TriedJoin(q[..i], q[i + 1..], c);
  }

  lemma FreshWithout(q: seq<Outgoing>, i: nat, c: nat)
    requires i < |q| && (q[i].channel != c || q[i].attempts > 0)
    ensures Fresh(Without(q, i), c) == Fresh(q, c)
  {
    assert q == q[..i] + q[i..] && q[i..][1..] == q[i + 1..];
    FreshJoin(q[..i], q[i..], c);
    FreshJoin(q[..i], q[i + 1..], c);
  }

  lemma TriedMore(q: seq<Outgoing>, o: Outgoing, c: nat)
    ensures Tried(q + [o], c) ==
      if o.channel == c && o.attempts > 0 then Tried(q, c) + multiset{o.index} else Tried(q, c)
  {
    assert (q + [o])[|q|] == o && Without(q + [o], |q|) == q;
    TriedWithout(q + [o], |q|, c);
  }

  lemma FreshMore(q: seq<Outgoing>, o: Outgoing, c: nat)
    ensures Fresh(q + [o], c) == if o.channel == c && o.attempts == 0 then Fresh(q, c) + [o.index] else Fresh(q, c)
  {
    FreshJoin(q, [o], c);
    assert [o][1..] == [];
  }

  lemma {:induction false} TriedIn(q: seq<Outgoing>, c: nat, a: nat)
    ensures a in Tried(q, c) <==> exists i :: 0 <= i < |q| && q[i].channel == c && q[i].attempts > 0 && q[i].index == a
  {
    if q != [] {
      TriedIn(q[1..], c, a);
      assert forall i {:trigger q[1..][i]} :: 0 <= i < |q[1..]| ==> q[1..][i] == q[i + 1];
      if i :| 0 <= i < |q| && q[i].channel == c && q[i].attempts > 0 && q[i].index == a {
        assert i > 0 ==> q[1..][i - 1] == q[i];
      }
    }
  }

  // Commands that have been sent before stand before those that have not.
  ghost predicate TriedFirst(q: seq<Outgoing>) {
    forall i, j :: 0 <= i < j < |q| && q[j].attempts > 0 ==> q[i].attempts > 0
  }

  // --- One channel's account of its windows. ---

  ghost function Upto(lo: nat, hi: nat): seq<nat>
    requires lo <= hi
  {
    seq(hi - lo, i requires 0 <= i => lo + 1 + i)
  }

  ghost predicate Spanned(k: Account) {
    forall a :: a in k.outstanding ==> 0 < a <= k.started && Window(k.started) < Window(a) + WINDOWS
  }

  ghost predicate Balanced(l: Lane, k: Account) {
    && |l.windows| == WINDOWS && Spanned(k) && k.started <= l.numbered
    && (forall s {:trigger l.windows[s]} :: 0 <= s < WINDOWS ==> l.windows[s] == |InSlot(k.outstanding, s)|)
    && (forall s {:trigger s in l.used} :: s in l.used <==> 0 <= s < WINDOWS && l.windows[s] > 0)
  }

  // A window's messages share a slot with no others, so its 16-bit counter cannot overflow.
  lemma WindowFits(k: Account, s: nat)
    requires Spanned(k) && s < WINDOWS
    ensures |InSlot(k.outstanding, s)| <= WINDOW_SIZE
  {
    var slot := InSlot(k.outstanding, s);
    if slot != {} {
      var b :| b in slot;
      var lo := Window(b) * WINDOW_SIZE;
      forall a | a in slot ensures a in Range(lo, lo + WINDOW_SIZE) {
        SameSlot(Window(a), Window(b), Window(k.started));
        assert Window(a) == Window(b);
      }
      SubsetSize(slot, Range(lo, lo + WINDOW_SIZE));
    }
  }

  lemma SameSlot(a: nat, b: nat, top: nat)
    requires Slot(a) == Slot(b) && a <= top < a + WINDOWS && b <= top < b + WINDOWS
    ensures a == b
  {
    assert a == a / WINDOWS * WINDOWS + Slot(a) && b == b / WINDOWS * WINDOWS + Slot(b);
  }

  lemma NumberSlot(a: nat)
    ensures Number(a) / WINDOW_SIZE == Slot(Window(a)) && Number(a) % WINDOW_SIZE == a % WINDOW_SIZE
  {
  }

  function Started(l: Lane, slot: nat): Lane
    requires slot < |l.windows|
  {
    l.(windows := l.windows[slot := l.windows[slot] + 1], used := l.used + {slot})
  }

  function Settled(l: Lane, slot: nat): Lane
    requires slot < |l.windows|
  {
    if l.windows[slot] > 0 then
      l.(windows := l.windows[slot := l.windows[slot] - 1],
         used := if l.windows[slot] == 1 then l.used - {slot} else l.used)
    else l
  }

  lemma SlotMore(outstanding: set<nat>, a: nat, s: nat)
    requires a !in outstanding
    ensures |InSlot(outstanding + {a}, s)| == |InSlot(outstanding, s)| + if s == Slot(Window(a)) then 1 else 0
  {
    assert InSlot(outstanding + {a}, s) == InSlot(outstanding, s) + if s == Slot(Window(a)) then {a} else {};
  }

  lemma StartBalances(l: Lane, k: Account)
    requires Balanced(l, k) && k.started < l.numbered && WindowFree(k.outstanding, k.started + 1)
    ensures var a := k.started + 1;
      && Balanced(Started(l, Slot(Window(a))), Account(a, k.outstanding + {a}))
      && l.windows[Slot(Window(a))] + 1 < HALF && Started(l, Slot(Window(a))).numbered == l.numbered
  {
    var a := k.started + 1;
    WindowFits(k, Slot(Window(a)));
    forall b | b in k.outstanding ensures Window(a) < Window(b) + WINDOWS { SpanBounded(k.outstanding, k.started, b); }
    hide InSlot, Window, WindowFree;
    forall s | 0 <= s < WINDOWS
      ensures Started(l, Slot(Window(a))).windows[s] == |InSlot(k.outstanding + {a}, s)|
    {
      SlotMore(k.outstanding, a, s);
    }
  }

  lemma SettleBalances(l: Lane, k: Account, a: nat)
    requires Balanced(l, k) && a in k.outstanding
    ensures Balanced(Settled(l, Slot(Window(a))), k.(outstanding := k.outstanding - {a}))
    ensures l.windows[Slot(Window(a))] > 0 && Settled(l, Slot(Window(a))).numbered == l.numbered
  {
    var rest := k.outstanding - {a};
    assert k.outstanding == rest + {a};
    hide InSlot, Window;
    SlotMore(rest, a, Slot(Window(a)));
    forall s | 0 <= s < WINDOWS ensures Settled(l, Slot(Window(a))).windows[s] == |InSlot(rest, s)| {
      SlotMore(rest, a, s);
    }
  }

  // --- The whole peer's accounts. ---

  ghost predicate Tallied(out: seq<Outgoing>, sent: seq<Outgoing>, c: nat, l: Lane, k: Account) {
    && Balanced(l, k)
    && Tried(sent, c) + Tried(out, c) == multiset(k.outstanding)
    && Fresh(out, c) == Upto(k.started, l.numbered)
  }

  function Unused(): Lane { Lane(0, seq(WINDOWS, _ => 0), {}) }

  lemma UnusedTallied()
    ensures forall c: nat :: Tallied([], [], c, Unused(), Account(0, {}))
  {
    forall s | 0 <= s < WINDOWS ensures |InSlot({}, s)| == 0 { assert InSlot({}, s) == {}; }
  }

  ghost predicate Accounted(out: seq<Outgoing>, sent: seq<Outgoing>, lanes: seq<Lane>, ks: seq<Account>) {
    && |ks| == |lanes|
    && TriedFirst(out) && (forall i :: 0 <= i < |sent| ==> sent[i].attempts > 0)
    && forall c {:trigger lanes[c]} {:trigger ks[c]} :: 0 <= c < |lanes| ==> Tallied(out, sent, c, lanes[c], ks[c])
  }

  function Charged(lanes: seq<Lane>, o: Outgoing): (lanes': seq<Lane>)
    requires o.channel < |lanes| ==> |lanes[o.channel].windows| == WINDOWS
    ensures |lanes'| == |lanes| && (o.channel >= |lanes| ==> lanes' == lanes)
  {
    if o.channel < |lanes| && o.attempts < 1
    then lanes[o.channel := Started(lanes[o.channel], Number(o.index) / WINDOW_SIZE)] else lanes
  }

  ghost function Opened(ks: seq<Account>, o: Outgoing): seq<Account> {
    if o.channel < |ks| && o.attempts == 0
    then ks[o.channel := Account(o.index, ks[o.channel].outstanding + {o.index})] else ks
  }

  predicate SentAgain(o: Outgoing, o': Outgoing) {
    o'.channel == o.channel && o'.index == o.index && o'.hasPacket == o.hasPacket && o'.length == o.length
      && o'.attempts > 0
  }

  lemma FirstFresh(out: seq<Outgoing>, sent: seq<Outgoing>, l: Lane, k: Account)
    requires out != [] && out[0].attempts == 0 && Tallied(out, sent, out[0].channel, l, k)
    ensures out[0].index == k.started + 1 <= l.numbered
    ensures Fresh(out[1..], out[0].channel) == Upto(k.started + 1, l.numbered)
  {
    var c := out[0].channel;
    assert Fresh(out, c) == [out[0].index] + Fresh(out[1..], c);
    assert Upto(k.started, l.numbered)[0] == out[0].index;
    assert Upto(k.started, l.numbered)[1..] == Upto(k.started + 1, l.numbered);
  }

  // Moving a command from the queue to the sent ones: its first time charges its window.
  lemma DispatchTallies(out: seq<Outgoing>, sent: seq<Outgoing>, i: nat, o: Outgoing, c: nat, l: Lane, k: Account)
    requires Tallied(out, sent, c, l, k) && i < |out| && SentAgain(out[i], o)
    requires out[i].channel == c ==> out[i].attempts > 0 || (i == 0 && WindowFree(k.outstanding, out[i].index))
    ensures out[i].channel == c && out[i].attempts == 0 ==>
      Tallied(Without(out, i), sent + [o], c, Started(l, Slot(Window(out[i].index))),
        Account(out[i].index, k.outstanding + {out[i].index}))
    ensures !(out[i].channel == c && out[i].attempts == 0) ==> Tallied(Without(out, i), sent + [o], c, l, k)
  {
    hide Balanced, WindowFree, Tried, Fresh, Slot, Window, Upto, InSlot, Without;
    TriedWithout(out, i, c);
    TriedMore(sent, o, c);
    if out[i].channel == c && out[i].attempts == 0 {
      FirstFresh(out, sent, l, k);
      StartBalances(l, k);
      WithoutFirst(out);
      NotStarted(l, k);
      OneMore(Tried(sent, c), Tried(Without(out, i), c), k.outstanding, out[i].index);
    } else {
      FreshWithout(out, i, c);
      Moved(Tried(sent, c), Tried(Without(out, i), c), out[i].index);
    }
  }

  lemma WithoutFirst(q: seq<Outgoing>)
    requires q != []
    ensures Without(q, 0) == q[1..]
  {
  }

  lemma Moved(s: multiset<nat>, t: multiset<nat>, a: nat)
    ensures (s + multiset{a}) + t == s + (t + multiset{a})
  {
  }

  lemma OneMore(s: multiset<nat>, t: multiset<nat>, outstanding: set<nat>, a: nat)
    requires s + t == multiset(outstanding) && a !in outstanding
    ensures (s + multiset{a}) + t == multiset(outstanding + {a})
  {
    assert (s + multiset{a}) + t == (s + t) + multiset{a};
  }

  lemma OneLess(s: multiset<nat>, t: multiset<nat>, outstanding: set<nat>, a: nat)
    requires (s + multiset{a}) + t == multiset(outstanding)
    ensures a in outstanding && s + t == t + s == multiset(outstanding - {a})
  {
    assert a in multiset(outstanding);
    assert multiset(outstanding) - multiset{a} == multiset(outstanding - {a});
    assert (s + multiset{a}) + t == (s + t) + multiset{a} == (t + s) + multiset{a};
  }

  lemma NotStarted(l: Lane, k: Account)
    requires Balanced(l, k)
    ensures k.started + 1 !in k.outstanding
  {
  }

  lemma DispatchAccounts(out: seq<Outgoing>, sent: seq<Outgoing>, i: nat, o: Outgoing, lanes: seq<Lane>,
                         ks: seq<Account>)
    requires Accounted(out, sent, lanes, ks) && i < |out| && SentAgain(out[i], o)
    requires var c := out[i].channel;
      c < |lanes| ==> i == 0 && (out[i].attempts == 0 ==> WindowFree(ks[c].outstanding, out[i].index))
    ensures out[i].channel < |lanes| ==> |lanes[out[i].channel].windows| == WINDOWS
    ensures Accounted(Without(out, i), sent + [o], Charged(lanes, out[i]), Opened(ks, out[i]))
  {
    hide WindowFree, Tried, Fresh, Slot, Window, Upto, Started, InSlot, Spanned;
    assert out[i].channel < |lanes| ==> Balanced(lanes[out[i].channel], ks[out[i].channel]);
    hide Tallied;
    NumberSlot(out[i].index);
    var lanes', ks' := Charged(lanes, out[i]), Opened(ks, out[i]);
    forall c | 0 <= c < |lanes| ensures Tallied(Without(out, i), sent + [o], c, lanes'[c], ks'[c]) {
      DispatchTallies(out, sent, i, o, c, lanes[c], ks[c]);
    }
  }

  // Moving one back, behind those moved back before it, changes no count.
  lemma ReturnAccounts(out: seq<Outgoing>, sent: seq<Outgoing>, i: nat, m: nat, o: Outgoing, lanes: seq<Lane>,
                       ks: seq<Account>)
    requires Accounted(out, sent, lanes, ks) && i < |sent| && SentAgain(sent[i], o)
    requires m <= |out| && forall j :: 0 <= j < m ==> out[j].attempts > 0
    ensures Accounted(out[..m] + [o] + out[m..], Without(sent, i), lanes, ks)
  {
    hide Balanced, Tried, Fresh, Upto;
    var out' := out[..m] + [o] + out[m..];
    forall c | 0 <= c < |lanes| ensures Tallied(out', Without(sent, i), c, lanes[c], ks[c]) {
      TriedWithout(sent, i, c);
      assert Without(out', m) == out;
      TriedWithout(out', m, c);
      FreshWithout(out', m, c);
      Moved(Tried(Without(sent, i), c), Tried(out, c), o.index);
    }
  }

  lemma SentTried(out: seq<Outgoing>, sent: seq<Outgoing>, lanes: seq<Lane>, ks: seq<Account>)
    requires Accounted(out, sent, lanes, ks)
    ensures forall i :: 0 <= i < |sent| ==> sent[i].attempts > 0
  {
  }

  // Command o has been taken out of the queue it was in.
  ghost predicate Took(out: seq<Outgoing>, sent: seq<Outgoing>, wasSent: bool, i: nat, o: Outgoing,
                       out': seq<Outgoing>, sent': seq<Outgoing>) {
    if wasSent then i < |sent| && o == sent[i] && sent' == Without(sent, i) && out' == out
    else i < |out| && o == out[i] && out' == Without(out, i) && sent' == sent
  }

  // An acknowledged command leaves its queue, and its window with it.
  lemma SettleTallies(out: seq<Outgoing>, sent: seq<Outgoing>, wasSent: bool, i: nat, o: Outgoing,
                      out': seq<Outgoing>, sent': seq<Outgoing>, c: nat, l: Lane, k: Account)
    requires Tallied(out, sent, c, l, k) && Took(out, sent, wasSent, i, o, out', sent') && o.attempts > 0
    ensures if o.channel == c
      then o.index in k.outstanding && |l.windows| == WINDOWS
           && Tallied(out', sent', c, Settled(l, Slot(Window(o.index))), k.(outstanding := k.outstanding - {o.index}))
      else Tallied(out', sent', c, l, k)
  {
    assert |l.windows| == WINDOWS;
    hide Balanced, Tried, Fresh, Upto, Settled, Slot, Window, Without;
    if wasSent {
      TriedWithout(sent, i, c);
      if o.channel == c { OneLess(Tried(sent', c), Tried(out, c), k.outstanding, o.index); }
    } else {
      TriedWithout(out, i, c);
      FreshWithout(out, i, c);
      if o.channel == c {
        Moved(Tried(sent, c), Tried(out', c), o.index);
        OneLess(Tried(sent, c), Tried(out', c), k.outstanding, o.index);
      }
    }
    if o.channel == c { SettleBalances(l, k, o.index); }
  }

  // One more command at the end of the queue, with its channel's next number.
  lemma QueueTallies(out: seq<Outgoing>, sent: seq<Outgoing>, o: Outgoing, c: nat, l: Lane, k: Account)
    requires Tallied(out, sent, c, l, k) && o.attempts == 0
    requires o.channel == c ==> o.index == l.numbered + 1
    ensures Tallied(out + [o], sent, c, if o.channel == c then l.(numbered := l.numbered + 1) else l, k)
  {
    hide Tried, Fresh, InSlot, Spanned;
    TriedMore(out, o, c);
    FreshMore(out, o, c);
    assert Upto(k.started, l.numbered) + [l.numbered + 1] == Upto(k.started, l.numbered + 1);
  }

  ghost function Credited(lanes: seq<Lane>, o: Outgoing): seq<Lane>
    requires o.channel < |lanes| ==> |lanes[o.channel].windows| == WINDOWS
  {
    if o.channel < |lanes| then lanes[o.channel := Settled(lanes[o.channel], Slot(Window(o.index)))] else lanes
  }

  ghost function Closed(ks: seq<Account>, o: Outgoing): seq<Account> {
    if o.channel < |ks|
    then ks[o.channel := ks[o.channel].(outstanding := Unsettled(ks[o.channel].outstanding, Number(o.index)))] else ks
  }

  ghost function Unsettled(outstanding: set<nat>, number: u16): set<nat> {
    set b | b in outstanding && Number(b) != number
  }

  // Numbers of outstanding commands differ, so an acknowledged number settles one command only.
  lemma SettlesOwn(l: Lane, k: Account, a: nat)
    requires Spanned(k) && a in k.outstanding
    ensures Unsettled(k.outstanding, Number(a)) == k.outstanding - {a}
  {
    forall b | b in k.outstanding && Number(b) == Number(a) ensures a == b {
      SameNumber(a, b);
    }
  }

  lemma SettleAccounts(out: seq<Outgoing>, sent: seq<Outgoing>, wasSent: bool, i: nat, o: Outgoing,
                       out': seq<Outgoing>, sent': seq<Outgoing>, lanes: seq<Lane>, ks: seq<Account>)
    requires Accounted(out, sent, lanes, ks) && Took(out, sent, wasSent, i, o, out', sent') && o.attempts > 0
    ensures |ks| == |lanes|
    ensures o.channel < |lanes| ==> |lanes[o.channel].windows| == WINDOWS && o.index in ks[o.channel].outstanding
    ensures Accounted(out', sent', Credited(lanes, o), Closed(ks, o))
  {
    hide Settled, Slot, Window, Tried, Fresh, Upto, InSlot, Unsettled, Number;
    assert TriedFirst(out') && forall j :: 0 <= j < |sent'| ==> sent'[j].attempts > 0;
    hide Took;
    if o.channel < |lanes| {
      SettleTallies(out, sent, wasSent, i, o, out', sent', o.channel, lanes[o.channel], ks[o.channel]);
      SettlesOwn(lanes[o.channel], ks[o.channel], o.index);
    }
    hide Tallied;
    forall c | 0 <= c < |lanes| ensures Tallied(out', sent', c, Credited(lanes, o)[c], Closed(ks, o)[c]) {
      SettleTallies(out, sent, wasSent, i, o, out', sent', c, lanes[c], ks[c]);
    }
  }

  // --- The steps of a run that a call of the sender makes. ---

  // From one account to another by first transmissions alone, each with its window free.
  ghost predicate Transmits(a: Account, b: Account)
    decreases b.started
  {
    if a.started >= b.started then a == b else
      && b.started in b.outstanding
      && WindowFree(b.outstanding - {b.started}, b.started)
      && Transmits(a, Account(b.started - 1, b.outstanding - {b.started}))
  }

  // They are Transmit steps of the run of ReliableRun.
  lemma {:induction false} TransmitsIsRun(s: System, b: Account) returns (steps: seq<Step>)
    requires Inv(s) && Transmits(Account(s.first, s.outstanding), b) && b.started <= Total(s.packets)
    ensures Legal(s, steps)
    ensures var t := Run(s, steps);
      && t.first == b.started && t.outstanding == b.outstanding
      && t.packets == s.packets && t.receiver == s.receiver && t.acks == s.acks
    decreases b.started
  {
    if s.first >= b.started { return []; }
    var before := Account(b.started - 1, b.outstanding - {b.started});
    steps := TransmitsIsRun(s, before);
    var t := Run(s, steps);
    assert b.outstanding == before.outstanding + {b.started};
    RunKeeps(s, steps);
    RunMore(s, steps, Transmit);
    steps := steps + [Transmit];
  }

  // --- Splitting a queue in two, each part in the queue's order. ---

  ghost predicate Splits(q: seq<Outgoing>, taken: seq<Outgoing>, left: seq<Outgoing>)
    decreases |q|
  {
    if q == [] then taken == [] && left == []
    else
      || (taken != [] && taken[|taken| - 1] == q[|q| - 1] && Splits(q[..|q| - 1], taken[..|taken| - 1], left))
      || (left != [] && left[|left| - 1] == q[|q| - 1] && Splits(q[..|q| - 1], taken, left[..|left| - 1]))
  }

  lemma SplitsTake(q: seq<Outgoing>, taken: seq<Outgoing>, left: seq<Outgoing>, o: Outgoing)
    requires Splits(q, taken, left)
    ensures Splits(q + [o], taken + [o], left) && Splits(q + [o], taken, left + [o])
  {
    assert (q + [o])[..|q|] == q && (taken + [o])[..|taken|] == taken && (left + [o])[..|left|] == left;
  }

  lemma {:induction false} SplitsRest(q: seq<Outgoing>, taken: seq<Outgoing>, left: seq<Outgoing>, rest: seq<Outgoing>)
    requires Splits(q, taken, left)
    ensures Splits(q + rest, taken, left + rest)
    decreases |rest|
  {
    if rest == [] {
      assert q + rest == q && left + rest == left;
    } else {
      SplitsTake(q, taken, left, rest[0]);
      SplitsRest(q + [rest[0]], taken, left + [rest[0]], rest[1..]);
      assert q + rest == q + [rest[0]] + rest[1..] && left + rest == left + [rest[0]] + rest[1..];
    }
  }

  // The first commands of a queue have been looked at: some are taken, i are left.
  ghost predicate Passed(q: seq<Outgoing>, left: seq<Outgoing>, taken: seq<Outgoing>, i: nat) {
    && i <= |left| && |left| + |taken| == |q| && left[i..] == q[i + |taken|..]
    && Splits(q[..i + |taken|], taken, left[..i])
  }

  lemma PassedSplits(q: seq<Outgoing>, left: seq<Outgoing>, taken: seq<Outgoing>, i: nat)
    requires Passed(q, left, taken, i)
    ensures Splits(q, taken, left)
  {
    hide Splits;
    var k := i + |taken|;
    SplitsRest(q[..k], taken, left[..i], left[i..]);
    assert q[..k] + left[i..] == q && left[..i] + left[i..] == left;
  }

  lemma PassedStep(q: seq<Outgoing>, left: seq<Outgoing>, taken: seq<Outgoing>, i: nat)
    requires Passed(q, left, taken, i) && i < |left|
    ensures Passed(q, left, taken, i + 1) && Passed(q, Without(left, i), taken + [left[i]], i)
  {
    hide Splits;
    var o, k := left[i], i + |taken|;
    assert q[..k] + [o] == q[..k + 1] && q[k + 1..] == left[i + 1..] by {
      assert q[k..][0] == left[i..][0] && q[k..][1..] == left[i..][1..];
    }
    SplitsTake(q[..k], taken, left[..i], o);
    assert Without(left, i)[..i] == left[..i] && Without(left, i)[i..] == left[i + 1..];
    assert left[..i] + [o] == left[..i + 1];
  }

  lemma PassedStart(q: seq<Outgoing>)
    ensures Passed(q, q, [], 0)
  {
    assert q[..0] == [];
  }

  lemma SortedStart(q: seq<Outgoing>, out: seq<Outgoing>, now: u32)
    ensures Sorted(q, q, [], 0, now) && Doubled([]) + out == out
  {
    PassedStart(q);
  }

  ghost predicate Sorted(q: seq<Outgoing>, left: seq<Outgoing>, taken: seq<Outgoing>, i: nat, now: u32) {
    && Passed(q, left, taken, i)
    && (forall j :: 0 <= j < |taken| ==> Expired(now, taken[j]) && taken[j].attempts > 0)
    && (forall j :: 0 <= j < i ==> !Expired(now, left[j]))
  }

  lemma SortedSplits(q: seq<Outgoing>, left: seq<Outgoing>, taken: seq<Outgoing>, i: nat, now: u32)
    requires Sorted(q, left, taken, i, now)
    ensures forall j :: 0 <= j < |taken| ==> Expired(now, taken[j]) && taken[j].attempts > 0
    ensures forall j :: 0 <= j < i ==> !Expired(now, left[j])
    ensures Splits(q, taken, left) && i <= |left|
  {
    hide Expired;
    PassedSplits(q, left, taken, i);
  }

  lemma SortedStep(q: seq<Outgoing>, left: seq<Outgoing>, taken: seq<Outgoing>, i: nat, now: u32)
    requires Sorted(q, left, taken, i, now) && i < |left| && left[i].attempts > 0
    ensures if Expired(now, left[i]) then Sorted(q, Without(left, i), taken + [left[i]], i, now)
      else Sorted(q, left, taken, i + 1, now)
  {
    PassedStep(q, left, taken, i);
    hide Expired, Passed;
  }

  lemma DoubledInsert(taken: seq<Outgoing>, rest: seq<Outgoing>, o: Outgoing)
    requires forall j :: 0 <= j < |taken| ==> taken[j].attempts > 0
    ensures var q := Doubled(taken) + rest; var m := |taken|;
      && m <= |q| && (forall j :: 0 <= j < m ==> q[j].attempts > 0)
      && q[..m] + Doubled([o]) + q[m..] == Doubled(taken + [o]) + rest
  {
    var q, m := Doubled(taken) + rest, |taken|;
    assert q[..m] == Doubled(taken) && q[m..] == rest;
    assert Doubled(taken) + Doubled([o]) == Doubled(taken + [o]);
  }

  // --- struct ENetPeer. ---

  function Difference(a: u32, b: u32): u32 {
    var d := (a - b) % WORD;
    if d >= TIME_OVERFLOW then (b - a) % WORD else d
  }

  predicate Earlier(a: u32, b: u32) { (a - b) % WORD >= TIME_OVERFLOW }

  // Less than a day apart, times are compared and subtracted as if they did not wrap.
  lemma TimesAre(t: nat, u: nat)
    requires u <= t < u + 86400000
    ensures Difference(t % WORD, u % WORD) == t - u && Difference(u % WORD, t % WORD) == t - u
    ensures Earlier(u % WORD, t % WORD) <==> u < t
    ensures !Earlier(t % WORD, u % WORD)
  {
    Apart(t, u);
  }

  lemma Apart(t: nat, u: nat)
    requires u <= t < u + WORD
    ensures (t % WORD - u % WORD) % WORD == t - u
    ensures (u % WORD - t % WORD) % WORD == if t == u then 0 else WORD - (t - u)
  {
  }

  // So a command has expired when its timeout has passed since it was sent.
  lemma ExpiredIs(t: nat, u: nat, o: Outgoing)
    requires u <= t < u + 86400000 && o.sentTime == u % WORD
    ensures Expired(t % WORD, o) <==> t >= u + o.timeout
  {
    TimesAre(t, u);
  }

  function Max(a: nat, b: nat): nat { if a > b then a else b }

  predicate Expired(now: u32, o: Outgoing) { Difference(now, o.sentTime) >= o.timeout }

  // The datagram being filled: free entries of the host's command and buffer arrays, and bytes used.
  datatype Datagram = Datagram(commands: int, buffers: int, used: nat)

  function Filled(d: Datagram, q: seq<Outgoing>): Datagram {
    if q == [] then d else FilledWith(Filled(d, q[..|q| - 1]), q[|q| - 1])
  }

  function FilledWith(d: Datagram, o: Outgoing): Datagram {
    Datagram(d.commands - 1, d.buffers - if o.hasPacket then 2 else 1, d.used + o.size + Weight(o))
  }

  // The test of whether a command still fits, in the source's unsigned arithmetic.
  predicate Fits(d: Datagram, mtu: nat, o: Outgoing) {
    && d.commands > 0 && d.buffers > 1
    && (mtu - d.used) % WIDE >= o.size
    && (o.hasPacket ==> (mtu - d.used) % HALF >= (o.size + o.length) % HALF)
  }

  // Without wrap-around: the command and its data fit what the datagram has left.
  lemma FitsIs(d: Datagram, mtu: nat, o: Outgoing)
    requires d.used <= mtu <= MAXIMUM_MTU && o.size + o.length < HALF
    ensures Fits(d, mtu, o) <==> d.commands >= 1 && d.buffers >= 2 && d.used + o.size + Weight(o) <= mtu
    ensures FilledWith(d, o).used == d.used + o.size + Weight(o)
  {
  }

  // The datagram stays within the MTU, given that each command alone is less than 2^16 bytes long.
  ghost predicate Roomy(q: seq<Outgoing>, room: Datagram, rest: Datagram, mtu: nat) {
    room.used <= mtu && (forall o :: o in q ==> o.size + o.length < 0x10000) ==> rest.used <= mtu
  }

  ghost predicate Among(out: seq<Outgoing>, q: seq<Outgoing>) { forall o :: o in out ==> o in q }

  lemma RoomyStart(q: seq<Outgoing>, room: Datagram, mtu: nat)
    ensures Among(q, q) && Roomy(q, room, room, mtu)
  {
  }

  lemma RoomyStep(out: seq<Outgoing>, i: nat, q: seq<Outgoing>, room: Datagram, rest: Datagram, mtu: nat)
    requires Among(out, q) && Roomy(q, room, rest, mtu) && i < |out| && mtu <= MAXIMUM_MTU && Fits(rest, mtu, out[i])
    ensures Among(Without(out, i), q) && Roomy(q, room, FilledWith(rest, out[i]), mtu)
  {
    hide Fits, FilledWith;
    var o := out[i];
    assert o in q;
    if rest.used <= mtu && o.size + o.length < HALF { FitsIs(rest, mtu, o); }
  }

  // The time of sending, the retransmission timeout estimated from the round trip, and the peer's
  // limit on how often it may double.
  datatype Clock = Clock(now: u32, roundTrip: u32, limit: u32)

  function Stamp(o: Outgoing, clock: Clock): Outgoing {
    var t := if o.timeout == 0
      then o.(timeout := clock.roundTrip, timeoutLimit := clock.limit * clock.roundTrip % WORD) else o;
    t.(attempts := o.attempts + 1, sentTime := clock.now)
  }

  function Stamped(q: seq<Outgoing>, clock: Clock): seq<Outgoing> {
    seq(|q|, i requires 0 <= i < |q| => Stamp(q[i], clock))
  }

  function Capacity(throttle: nat, windowSize: nat, mtu: nat): (c: nat)
    requires throttle <= THROTTLE_SCALE && windowSize <= MAXIMUM_WINDOW && mtu <= MAXIMUM_MTU
    ensures c <= MAXIMUM_WINDOW
  {
    assert throttle * windowSize <= THROTTLE_SCALE * windowSize;
    Max(throttle * windowSize / THROTTLE_SCALE, mtu)
  }

  // At full throttle it is the window of the peer, at none a datagram, and in between in proportion.
  lemma CapacityIs(throttle: nat, windowSize: nat, mtu: nat)
    requires throttle <= 32 && windowSize <= MAXIMUM_WINDOW && mtu <= MAXIMUM_MTU
    ensures var c := Capacity(throttle, windowSize, mtu);
      && c >= mtu && throttle * windowSize < 32 * (c + 1) && (c > mtu ==> 32 * c <= throttle * windowSize)
      && (throttle == 32 ==> c == Max(windowSize, mtu)) && (throttle == 0 ==> c == mtu)
  {
  }

  // A timeout once set is kept, with its limit; before that it is taken from the clock.
  lemma StampKeeps(o: Outgoing, clock: Clock)
    ensures var p := Stamp(o, clock);
      && p == o.(timeout := p.timeout, timeoutLimit := p.timeoutLimit, attempts := o.attempts + 1,
                 sentTime := clock.now)
      && (o.timeout > 0 ==> p.timeout == o.timeout && p.timeoutLimit == o.timeoutLimit)
      && (o.timeout == 0 ==> p.timeout == clock.roundTrip && p.timeoutLimit == clock.limit * clock.roundTrip % WORD)
  {
  }

  // Sent at the first of the times, and after a timeout each at the others.
  ghost function Resent(o: Outgoing, clocks: seq<Clock>): Outgoing
    requires clocks != []
  {
    var n := |clocks| - 1;
    if n == 0 then Stamp(o, clocks[0]) else Stamp(Doubled([Resent(o, clocks[..n])])[0], clocks[n])
  }

  // So the timeout doubles each time, from the round trip on, and the limit stays that of the first time.
  lemma {:induction false} BacksOff(o: Outgoing, clocks: seq<Clock>)
    requires clocks != [] && o.timeout == 0 && 0 < clocks[0].roundTrip
    requires clocks[0].roundTrip * Pow2(|clocks| - 1) < WORD
    ensures var p := Resent(o, clocks);
      && p.timeout == clocks[0].roundTrip * Pow2(|clocks| - 1)
      && p.timeoutLimit == clocks[0].limit * clocks[0].roundTrip % WORD
      && p.attempts == o.attempts + |clocks| && p.sentTime == clocks[|clocks| - 1].now
    decreases |clocks|
  {
    hide Pow2, Stamp, Resent, Doubled;
    var n, t := |clocks| - 1, clocks[0].roundTrip;
    if n == 0 {
      PowerDoubles(t, 0);
      ResentFirst(o, clocks);
      StampKeeps(o, clocks[0]);
    } else {
      PowerDoubles(t, n - 1);
      BacksOff(o, clocks[..n]);
      ResentLast(o, clocks);
      var p := Resent(o, clocks[..n]);
      TwiceTimeout(p, t * Pow2(n - 1));
      StampKeeps(Doubled([p])[0], clocks[n]);
    }
  }

  lemma ResentFirst(o: Outgoing, clocks: seq<Clock>)
    requires |clocks| == 1
    ensures Resent(o, clocks) == Stamp(o, clocks[0])
  {
  }

  lemma TwiceTimeout(p: Outgoing, u: nat)
    requires p.timeout == u && 2 * u < WORD
    ensures |Doubled([p])| == 1 && Doubled([p])[0] == p.(timeout := 2 * u)
  {
  }

  lemma ResentLast(o: Outgoing, clocks: seq<Clock>)
    requires |clocks| > 1
    ensures var n := |clocks| - 1; Resent(o, clocks) == Stamp(Doubled([Resent(o, clocks[..n])])[0], clocks[n])
  {
  }

  lemma PowerDoubles(t: nat, n: nat)
    requires t > 0
    ensures t * Pow2(n + 1) == 2 * (t * Pow2(n)) && t * Pow2(n) > 0 && t * Pow2(0) == t
  {
    assert Pow2(n + 1) == 2 * Pow2(n);
  }

  // The guard on the first command of a window.
  predicate HeldUp(l: Lane, o: Outgoing, wrapped: set<nat>)
  {
    var w := Number(o.index) / WINDOW_SIZE;
    && |l.windows| == WINDOWS && o.attempts < 1 && Number(o.index) % WINDOW_SIZE == 0
    && (l.windows[(w + WINDOWS - 1) % WINDOWS] >= WINDOW_SIZE
        || exists s :: s in l.used && (w <= s < w + FREE_WINDOWS || s in wrapped))
  }

  // Held up by its window, or by the data in transit.
  predicate Held(o: Outgoing, lanes: seq<Lane>, wrapped: set<nat>, dataInTransit: nat, capacity: nat) {
    || (o.channel < |lanes| && HeldUp(lanes[o.channel], o, wrapped))
    || (o.hasPacket && dataInTransit + o.length > capacity)
  }

  // Only the commands of channels, and data, are ever held up.
  predicate Waits(o: Outgoing, channels: nat) { o.channel < channels || o.hasPacket }

  ghost predicate AllWait(q: seq<Outgoing>, n: nat, channels: nat) {
    n <= |q| && forall i :: 0 <= i < n ==> Waits(q[i], channels)
  }

  // Some command has no room in the datagram, and all before it are held up.
  ghost predicate Blocks(q: seq<Outgoing>, rest: Datagram, mtu: nat, channels: nat) {
    exists i :: 0 <= i < |q| && !Fits(rest, mtu, q[i]) && AllWait(q, i, channels)
  }

  lemma NoneWait(q: seq<Outgoing>, channels: nat)
    ensures AllWait(q, 0, channels)
  {
  }

  lemma OneWaits(q: seq<Outgoing>, n: nat, channels: nat)
    requires AllWait(q, n, channels) && n < |q| && Waits(q[n], channels)
    ensures AllWait(q, n + 1, channels)
  {
  }

  lemma WaitWithout(q: seq<Outgoing>, n: nat, channels: nat)
    requires AllWait(q, n, channels) && n < |q|
    ensures AllWait(Without(q, n), n, channels)
  {
  }

  lemma BlocksAt(q: seq<Outgoing>, n: nat, rest: Datagram, mtu: nat, channels: nat)
    requires AllWait(q, n, channels) && n < |q| && !Fits(rest, mtu, q[n])
    ensures Blocks(q, rest, mtu, channels)
  {
  }

  // The sending loop so far: what it took from the queue is stamped, sent and in the datagram.
  ghost predicate Underway(q: seq<Outgoing>, s: seq<Outgoing>, room: Datagram, clock: Clock,
                           out: seq<Outgoing>, sent: seq<Outgoing>, rest: Datagram, taken: seq<Outgoing>,
                           current: nat) {
    && Passed(q, out, taken, current)
    && sent == s + Stamped(taken, clock)
    && rest == Filled(room, taken)
  }

  lemma UnderwayStart(q: seq<Outgoing>, s: seq<Outgoing>, room: Datagram, clock: Clock)
    ensures Underway(q, s, room, clock, q, s, room, [], 0)
  {
    PassedStart(q);
    hide Stamp, FilledWith, Passed;
  }

  lemma UnderwayEnd(q: seq<Outgoing>, s: seq<Outgoing>, room: Datagram, clock: Clock,
                    out: seq<Outgoing>, sent: seq<Outgoing>, rest: Datagram, taken: seq<Outgoing>, current: nat)
    requires Underway(q, s, room, clock, out, sent, rest, taken, current)
    ensures Splits(q, taken, out) && sent == s + Stamped(taken, clock) && rest == Filled(room, taken)
    ensures current <= |out|
  {
    hide Stamped, Filled, Splits;
    PassedSplits(q, out, taken, current);
  }

  lemma TransmitStart(ks: seq<Account>)
    ensures AllTransmit(ks, ks)
  {
  }

  lemma UnderwayStep(q: seq<Outgoing>, s: seq<Outgoing>, room: Datagram, clock: Clock,
                     out: seq<Outgoing>, sent: seq<Outgoing>, rest: Datagram, taken: seq<Outgoing>, current: nat)
    requires Underway(q, s, room, clock, out, sent, rest, taken, current) && current < |out|
    ensures Underway(q, s, room, clock, out, sent, rest, taken, current + 1)
    ensures Underway(q, s, room, clock, Without(out, current), sent + [Stamp(out[current], clock)],
                     FilledWith(rest, out[current]), taken + [out[current]], current)
    ensures |Without(out, current)| == |out| - 1 && (current > 0 ==> Without(out, current)[0] == out[0])
  {
    PassedStep(q, out, taken, current);
    hide Stamp, FilledWith, Passed;
    var o := out[current];
    assert (taken + [o])[..|taken|] == taken;
    assert s + Stamped(taken, clock) + [Stamp(o, clock)] == s + Stamped(taken + [o], clock);
  }

  lemma NotHeldUp(l: Lane, k: Account, o: Outgoing, wrapped: set<nat>)
    requires Balanced(l, k) && !HeldUp(l, o, wrapped) && o.attempts == 0
    ensures WindowFree(k.outstanding, o.index)
  {
    NumberSlot(o.index);
    var slot := Slot(Window(o.index));
    if o.index % WINDOW_SIZE == 0 {
      forall w | slot <= w < slot + FREE_WINDOWS && w < WINDOWS ensures InSlot(k.outstanding, w) == {} {
        assert w !in l.used;
      }
    }
  }

  // And conversely: the guard holds up just the commands that are sent for the first time and whose window is
  // not free, or for whom a used window is in the mask beyond.
  lemma HeldUpWhere(l: Lane, k: Account, o: Outgoing, wrapped: set<nat>)
    requires Balanced(l, k)
    ensures HeldUp(l, o, wrapped) <==> o.attempts == 0 && !Free(l, k, o, wrapped)
  {
    NumberSlot(o.index);
    hide InSlot;
    var slot := Slot(Window(o.index));
    if o.index % WINDOW_SIZE == 0 {
      forall w | 0 <= w < WINDOWS ensures InSlot(k.outstanding, w) == {} <==> w !in l.used { NoneIn(k.outstanding, w); }
      if o.attempts == 0 && !HeldUp(l, o, wrapped) {
        NotHeldUp(l, k, o, wrapped);
        assert forall s :: s in l.used ==> s !in wrapped;
      }
      if Free(l, k, o, wrapped) {
        Disjoint(l.used, wrapped);
      }
    }
  }

  lemma Disjoint(a: set<nat>, b: set<nat>)
    requires a * b == {}
    ensures forall s :: s in a ==> s !in b
  {
    assert forall s :: s in a && s in b ==> s in a * b;
  }

  lemma NoneIn(outstanding: set<nat>, slot: nat)
    ensures |InSlot(outstanding, slot)| == 0 <==> InSlot(outstanding, slot) == {}
  {
  }

  ghost predicate Free(l: Lane, k: Account, o: Outgoing, wrapped: set<nat>) {
    WindowFree(k.outstanding, o.index) && (o.index % WINDOW_SIZE == 0 ==> l.used * wrapped == {})
  }

  // A command may go: it has been sent before or its window is free, and its data fits in transit.
  ghost predicate MayGo(o: Outgoing, lanes: seq<Lane>, ks: seq<Account>, wrapped: set<nat>, dataInTransit: nat,
                        capacity: nat) {
    && (o.channel < |lanes| && o.channel < |ks| && o.attempts == 0 ==>
      Free(lanes[o.channel], ks[o.channel], o, wrapped))
    && (o.hasPacket ==> dataInTransit + o.length <= capacity)
  }

  lemma MayGoIsFree(out: seq<Outgoing>, sent: seq<Outgoing>, o: Outgoing, lanes: seq<Lane>, ks: seq<Account>,
                    wrapped: set<nat>, dataInTransit: nat, capacity: nat)
    requires Accounted(out, sent, lanes, ks)
    ensures MayGo(o, lanes, ks, wrapped, dataInTransit, capacity) <==> !Held(o, lanes, wrapped, dataInTransit, capacity)
  {
    if o.channel < |lanes| {
      assert Tallied(out, sent, o.channel, lanes[o.channel], ks[o.channel]);
      HeldUpWhere(lanes[o.channel], ks[o.channel], o, wrapped);
    }
    hide HeldUp, Free, Tallied;
  }

  lemma MayMove(out: seq<Outgoing>, sent: seq<Outgoing>, i: nat, lanes: seq<Lane>, ks: seq<Account>, wrapped: set<nat>)
    requires Accounted(out, sent, lanes, ks) && i < |out|
    requires out[i].channel < |lanes| ==> !HeldUp(lanes[out[i].channel], out[i], wrapped)
    ensures |ks| == |lanes|
    ensures var o := out[i]; o.channel < |lanes| && o.attempts == 0 ==> WindowFree(ks[o.channel].outstanding, o.index)
  {
    var o := out[i];
    if o.channel < |lanes| && o.attempts == 0 { NotHeldUp(lanes[o.channel], ks[o.channel], o, wrapped); }
  }

  lemma InTransitMore(q: seq<Outgoing>, o: Outgoing)
    ensures InTransit(q + [o]) == InTransit(q) + Weight(o)
  {
    InTransitJoin(q, [o]);
    assert InTransit([o]) == Weight(o) + InTransit([]);
  }

  ghost predicate AllTransmit(before: seq<Account>, ks: seq<Account>) {
    |ks| == |before| && forall c :: 0 <= c < |ks| ==> Transmits(before[c], ks[c])
  }

  lemma TransmitOne(before: seq<Account>, out: seq<Outgoing>, sent: seq<Outgoing>, lanes: seq<Lane>, ks: seq<Account>)
    requires AllTransmit(before, ks) && Accounted(out, sent, lanes, ks) && out != []
    requires var o := out[0]; o.channel < |lanes| && o.attempts == 0 ==> WindowFree(ks[o.channel].outstanding, o.index)
    ensures AllTransmit(before, Opened(ks, out[0]))
  {
    hide WindowFree, Balanced, Fresh, Tried, Upto;
    var o := out[0];
    if o.channel < |lanes| && o.attempts == 0 {
      var k := ks[o.channel];
      FirstFresh(out, sent, lanes[o.channel], k);
      NotStarted(lanes[o.channel], k);
      assert k.outstanding + {o.index} - {o.index} == k.outstanding;
    }
  }

  function Doubled(q: seq<Outgoing>): seq<Outgoing> {
    seq(|q|, i requires 0 <= i < |q| => q[i].(timeout := q[i].timeout * 2 % WORD))
  }

  predicate Matches(o: Outgoing, number: u16, channel: nat) { Number(o.index) == number && o.channel == channel }

  // A channel's commands carry packets.
  ghost predicate Packed(q: seq<Outgoing>, channels: nat) {
    forall i :: 0 <= i < |q| ==> q[i].channel < channels ==> q[i].hasPacket
  }

  lemma PackedWithout(q: seq<Outgoing>, i: nat, channels: nat)
    requires Packed(q, channels) && i < |q|
    ensures Packed(Without(q, i), channels)
  {
  }

  lemma PackedWith(q: seq<Outgoing>, i: nat, o: Outgoing, channels: nat)
    requires Packed(q, channels) && i <= |q| && (o.channel < channels ==> o.hasPacket)
    ensures Packed(q[..i] + [o] + q[i..], channels)
  {
  }

  // What sending outgoing command i keeps.
  lemma MoveKeeps(out: seq<Outgoing>, sent: seq<Outgoing>, i: nat, o: Outgoing, lanes: seq<Lane>, ks: seq<Account>,
                  wrapped: set<nat>, before: seq<Account>)
    requires Accounted(out, sent, lanes, ks) && i < |out| && SentAgain(out[i], o)
    requires out[i].channel < |lanes| ==> i == 0 && !HeldUp(lanes[out[i].channel], out[i], wrapped)
    requires AllTransmit(before, ks) && Packed(out, |lanes|) && Packed(sent, |lanes|)
    ensures |ks| == |lanes| && (out[i].channel < |lanes| ==> |lanes[out[i].channel].windows| == WINDOWS)
    ensures Accounted(Without(out, i), sent + [o], Charged(lanes, out[i]), Opened(ks, out[i]))
    ensures AllTransmit(before, Opened(ks, out[i]))
    ensures Packed(Without(out, i), |lanes|) && Packed(sent + [o], |lanes|)
    ensures InTransit(sent + [o]) == InTransit(sent) + Weight(o)
  {
    PackedWith(sent, |sent|, o, |lanes|);
    assert sent[..|sent|] + [o] + sent[|sent|..] == sent + [o];
    hide HeldUp, InTransit, Window, Slot, WindowFree, Packed;
    MayMove(out, sent, i, lanes, ks, wrapped);
    if out[i].channel < |ks| { TransmitOne(before, out, sent, lanes, ks); }
    DispatchAccounts(out, sent, i, o, lanes, ks);
    PackedWithout(out, i, |lanes|);
    InTransitMore(sent, o);
  }

  // No command that has been sent has the number.
  ghost predicate Absent(sent: seq<Outgoing>, out: seq<Outgoing>, number: u16, channel: nat) {
    && (forall i :: 0 <= i < |sent| ==> !Matches(sent[i], number, channel))
    && forall i :: 0 <= i < |out| && out[i].attempts > 0 ==> !Matches(out[i], number, channel)
  }

  // One command with the number is gone from the queue, and nothing else has changed.
  ghost predicate TookOne(q: seq<Outgoing>, q': seq<Outgoing>, number: u16, channel: nat) {
    exists i :: 0 <= i < |q| && Matches(q[i], number, channel) && q' == Without(q, i)
  }

  predicate GivesUp(now: u32, earliest: u32, o: Outgoing, timeoutMinimum: u32, timeoutMaximum: u32) {
    || Difference(now, earliest) >= timeoutMaximum
    || (o.timeout >= o.timeoutLimit && Difference(now, earliest) >= timeoutMinimum)
  }

  // In times counted without wrap-around: the longest delay is reached, or the shortest one by a command whose
  // timeout has doubled up to its limit.
  lemma GivesUpIs(t: nat, u: nat, o: Outgoing, timeoutMinimum: u32, timeoutMaximum: u32)
    requires u <= t < u + 86400000
    ensures GivesUp(t % WORD, u % WORD, o, timeoutMinimum, timeoutMaximum)
      <==> t >= u + timeoutMaximum || (o.timeout >= o.timeoutLimit && t >= u + timeoutMinimum)
  {
    TimesAre(t, u);
  }

  // The earliest time of sending of the commands that expired, 0 for none.
  ghost function Earliest(e: u32, q: seq<Outgoing>): u32 {
    if q == [] then e else Noted(Earliest(e, q[..|q| - 1]), q[|q| - 1].sentTime)
  }

  function Noted(e: u32, time: u32): u32 { if e == 0 || Earlier(time, e) then time else e }

  lemma EarliestMore(e: u32, q: seq<Outgoing>, o: Outgoing)
    ensures Earliest(e, q + [o]) == Noted(Earliest(e, q), o.sentTime)
  {
    assert (q + [o])[..|q|] == q;
  }

  // In times counted without wrap-around it is the least, if they are less than a day apart and no clock shows 0.
  lemma {:induction false} EarliestIs(q: seq<Outgoing>, ts: seq<nat>)
    returns (j: nat)
    requires |ts| == |q| > 0 && forall i :: 0 <= i < |q| ==> q[i].sentTime == ts[i] % WORD && q[i].sentTime != 0
    requires forall i, k :: 0 <= i < |ts| && 0 <= k < |ts| ==> ts[i] < ts[k] + 86400000
    ensures j < |ts| && Earliest(0, q) == ts[j] % WORD && forall i :: 0 <= i < |ts| ==> ts[j] <= ts[i]
  {
    var n := |q| - 1;
    assert q == q[..n] + [q[n]];
    EarliestMore(0, q[..n], q[n]);
    j := n;
    if n > 0 {
      j := EarliestIs(q[..n], ts[..n]);
      if ts[n] >= ts[j] { TimesAre(ts[n], ts[j]); } else { TimesAre(ts[j], ts[n]); j := n; }
    }
  }

  // The peer is given up at command o, when the earliest time is e.
  predicate Quits(now: u32, e: u32, o: Outgoing, timeoutMinimum: u32, timeoutMaximum: u32) {
    e != 0 && GivesUp(now, e, o, timeoutMinimum, timeoutMaximum)
  }

  // At none of the commands q is the peer given up.
  ghost predicate Patient(now: u32, e: u32, q: seq<Outgoing>, timeoutMinimum: u32, timeoutMaximum: u32) {
    forall i :: 0 <= i < |q| ==> !Quits(now, Earliest(e, q[..i] + [q[i]]), q[i], timeoutMinimum, timeoutMaximum)
  }

  lemma NoneYet(now: u32, e: u32, timeoutMinimum: u32, timeoutMaximum: u32)
    ensures Patient(now, e, [], timeoutMinimum, timeoutMaximum)
  {
  }

  lemma PatientMore(now: u32, e: u32, q: seq<Outgoing>, o: Outgoing, timeoutMinimum: u32, timeoutMaximum: u32)
    requires Patient(now, e, q, timeoutMinimum, timeoutMaximum)
    requires !Quits(now, Earliest(e, q + [o]), o, timeoutMinimum, timeoutMaximum)
    ensures Patient(now, e, q + [o], timeoutMinimum, timeoutMaximum)
  {
    hide Quits, Earliest;
    forall i | 0 <= i < |q + [o]|
      ensures !Quits(now, Earliest(e, (q + [o])[..i] + [(q + [o])[i]]), (q + [o])[i], timeoutMinimum, timeoutMaximum)
    {
      if i < |q| { assert (q + [o])[..i] == q[..i]; } else { assert (q + [o])[..i] == q; }
    }
  }

  class Peer {
    var outgoing: seq<Outgoing>    // outgoingReliableCommands
    var sent: seq<Outgoing>        // sentReliableCommands
    var lanes: seq<Lane>           // channels
    var ownNumbered: nat           // outgoingReliableSequenceNumber
    var dataInTransit: nat
    var nextTimeout: u32
    var earliestTimeout: u32
    ghost var accounts: seq<Account>

    ghost predicate Valid()
      reads this
    {
      && |lanes| <= OWN
      && Accounted(outgoing, sent, lanes, accounts)
      && dataInTransit == InTransit(sent) <= MAXIMUM_WINDOW
      && (sent != [] ==> nextTimeout == (sent[0].sentTime + sent[0].timeout) % WORD)
      && Packed(outgoing, |lanes|) && Packed(sent, |lanes|)
    }

    constructor (channelCount: nat)
      requires channelCount <= OWN
      ensures Valid() && outgoing == [] && sent == [] && |accounts| == channelCount
      ensures forall c :: 0 <= c < channelCount ==> accounts[c] == Account(0, {})
    {
      outgoing, sent, ownNumbered, dataInTransit := [], [], 0, 0;
      lanes := seq(channelCount, _ => Unused());
      accounts := seq(channelCount, _ => Account(0, {}));
      UnusedTallied();
      nextTimeout, earliestTimeout := 0, 0;
    }

    lemma Known()
      requires Valid()
      ensures forall i :: 0 <= i < |sent| ==> sent[i].attempts > 0
      ensures forall i :: 0 <= i < |outgoing| && outgoing[i].channel < |lanes| ==> outgoing[i].hasPacket
      ensures |accounts| == |lanes|
    {
    }

    // enet_peer_setup_outgoing_command for a command to be acknowledged.
    method SetupOutgoing(channel: nat, hasPacket: bool, length: u16, size: nat)
      requires Valid() && ((channel < |lanes| && hasPacket) || channel == OWN)
      modifies this`outgoing, this`lanes, this`ownNumbered
      ensures Valid()
      ensures |lanes| == old(|lanes|) && |outgoing| == |old(outgoing)| + 1 && old(outgoing) <= outgoing
      ensures var o := outgoing[|old(outgoing)|];
        && (o.channel, o.hasPacket, o.length, o.size, o.attempts) == (channel, hasPacket, length, size, 0)
        && o.index == (if channel < |lanes| then old(lanes[channel].numbered) else old(ownNumbered)) + 1
      ensures forall c :: 0 <= c < |lanes| ==>
        lanes[c] == old(lanes[c]).(numbered := old(lanes[c].numbered) + if c == channel then 1 else 0)
    {
      hide Balanced, Tried, Fresh, Upto;
      var index;
      if channel == OWN {
        ownNumbered := ownNumbered + 1;
        index := ownNumbered;
      } else {
        lanes := lanes[channel := lanes[channel].(numbered := lanes[channel].numbered + 1)];
        index := lanes[channel].numbered;
      }
      var o := Outgoing(channel, index, hasPacket, length, size, 0, 0, 0, 0);
      forall c | 0 <= c < |lanes| ensures Tallied(outgoing + [o], sent, c, lanes[c], accounts[c]) {
        QueueTallies(outgoing, sent, o, c, old(lanes[c]), accounts[c]);
      }
      hide Tallied;
      outgoing := outgoing + [o];
    }

    // enet_protocol_remove_sent_reliable_command
    method RemoveSent(number: u16, channel: nat) returns (found: bool)
      requires Valid() && (channel < |lanes| || channel == OWN)
      modifies this
      ensures Valid()
      ensures |lanes| == old(|lanes|) && |accounts| == old(|accounts|)
      ensures forall c :: 0 <= c < |accounts| ==> accounts[c] == old(accounts[c]).(outstanding :=
        if c == channel then Unsettled(old(accounts[c].outstanding), number) else old(accounts[c].outstanding))
      ensures channel < |accounts| ==>
        (found <==> exists b :: b in old(accounts[channel].outstanding) && Number(b) == number)
      ensures !found ==> unchanged(this) && Absent(sent, outgoing, number, channel)
      ensures found ==>
        || (outgoing == old(outgoing) && TookOne(old(sent), sent, number, channel))
        || (sent == old(sent) && TookOne(old(outgoing), outgoing, number, channel))
    {
      hide Accounted, Settled, Slot, Window, Number, InTransit, Unsettled, Packed, Without, Absent;
      var wasSent, i;
      found, wasSent, i := Find(number, channel);
      if !found {
        AllSettled(number, channel);
        return;
      }
      var o := if wasSent then sent[i] else outgoing[i];
      ghost var out' := if wasSent then outgoing else Without(outgoing, i);
      ghost var sent' := if wasSent then Without(sent, i) else sent;
      SettleAccounts(outgoing, sent, wasSent, i, o, out', sent', lanes, accounts);
      NumberSlot(o.index);
      if channel < |lanes| {
        var reliableWindow := number / WINDOW_SIZE;
        lanes := lanes[channel := Settled(lanes[channel], reliableWindow)];
      }
      accounts := Closed(accounts, o);
      if wasSent {
        InTransitWithout(sent, i);
        PackedWithout(sent, i, |lanes|);
        if o.hasPacket { dataInTransit := dataInTransit - o.length; }
        sent := Without(sent, i);
      } else {
        PackedWithout(outgoing, i, |lanes|);
        outgoing := Without(outgoing, i);
      }
      if sent != [] { nextTimeout := (sent[0].sentTime + sent[0].timeout) % WORD; }
    }

    // Its search, first of the sent commands and then of those that had to be queued again.
    method Find(number: u16, channel: nat) returns (found: bool, wasSent: bool, i: nat)
      requires Valid()
      ensures found ==> if wasSent then i < |sent| && sent[i].attempts > 0 && Matches(sent[i], number, channel)
        else i < |outgoing| && outgoing[i].attempts > 0 && Matches(outgoing[i], number, channel)
      ensures !found ==> Absent(sent, outgoing, number, channel)
    {
      SentTried(outgoing, sent, lanes, accounts);
      hide Tallied, Number, InTransit;
      i, found := 0, true;
      while i < |sent| && !Matches(sent[i], number, channel)
        invariant i <= |sent| && forall j :: 0 <= j < i ==> !Matches(sent[j], number, channel)
      {
        i := i + 1;
      }
      wasSent := i < |sent|;
      if wasSent { return; }
      i := 0;
      while i < |outgoing|
        invariant i <= |outgoing|
        invariant forall j :: 0 <= j < i ==> outgoing[j].attempts > 0 && !Matches(outgoing[j], number, channel)
      {
        if outgoing[i].attempts < 1 { found := false; return; }
        if Matches(outgoing[i], number, channel) { return; }
        i := i + 1;
      }
      found := false;
    }

    lemma AllSettled(number: u16, channel: nat)
      requires Valid()
      requires Absent(sent, outgoing, number, channel)
      ensures channel < |accounts| ==> Unsettled(accounts[channel].outstanding, number) == accounts[channel].outstanding
      ensures channel < |accounts| ==> forall b :: b in accounts[channel].outstanding ==> Number(b) != number
    {
      if channel < |accounts| {
        forall b | b in accounts[channel].outstanding ensures Number(b) != number {
          assert Tallied(outgoing, sent, channel, lanes[channel], accounts[channel]);
          assert b in multiset(accounts[channel].outstanding);
          TriedIn(sent, channel, b);
          TriedIn(outgoing, channel, b);
        }
      }
    }

    // enet_protocol_check_timeouts, up to the disconnection that it may ask for.
    method CheckTimeouts(now: u32, timeoutMinimum: u32, timeoutMaximum: u32)
      returns (disconnect: bool, ghost taken: seq<Outgoing>)
      requires Valid()
      modifies this`outgoing, this`sent, this`dataInTransit, this`nextTimeout, this`earliestTimeout
      ensures Valid()
      ensures Splits(old(sent), taken, sent) && outgoing == Doubled(taken) + old(outgoing)
      ensures forall i :: 0 <= i < |taken| ==> Expired(now, taken[i])
      ensures Patient(now, old(earliestTimeout), taken, timeoutMinimum, timeoutMaximum)
      ensures !disconnect ==> earliestTimeout == Earliest(old(earliestTimeout), taken)
      ensures !disconnect ==> forall i :: 0 <= i < |sent| ==> !Expired(now, sent[i])
      ensures disconnect ==>
        exists i :: 0 <= i < |sent|
          && (Expired(now, sent[i])
              && earliestTimeout == Earliest(old(earliestTimeout), taken + [sent[i]])
              && Quits(now, earliestTimeout, sent[i], timeoutMinimum, timeoutMaximum))
    {
      hide Valid, Difference, Sorted, Doubled, Expired, Splits, GivesUp, Earlier, Patient;
      ghost var e := earliestTimeout;
      NoneYet(now, e, timeoutMinimum, timeoutMaximum);
      var i: nat, insertPosition: nat := 0, 0;
      disconnect, taken := false, [];
      SortedStart(sent, outgoing, now);
      while i < |sent|
        invariant i <= |sent| && Valid() && insertPosition == |taken|
        invariant Sorted(old(sent), sent, taken, i, now)
        invariant outgoing == Doubled(taken) + old(outgoing)
        invariant earliestTimeout == Earliest(e, taken)
        invariant Patient(now, e, taken, timeoutMinimum, timeoutMaximum)
        decreases |sent| - i
      {
        Known();
        SortedSplits(old(sent), sent, taken, i, now);
        SortedStep(old(sent), sent, taken, i, now);
        var o := sent[i];
        if !Expired(now, o) {
          i := i + 1;
          continue;
        }
        EarliestMore(e, taken, o);
        if earliestTimeout == 0 || Earlier(o.sentTime, earliestTimeout) { NoteEarliest(o.sentTime); }
        if earliestTimeout != 0 && GivesUp(now, earliestTimeout, o, timeoutMinimum, timeoutMaximum) {
          return true, taken;
        }
        PatientMore(now, e, taken, o, timeoutMinimum, timeoutMaximum);
        DoubledInsert(taken, old(outgoing), o);
        PutBack(i, insertPosition);
        insertPosition := insertPosition + 1;
        taken := taken + [o];
      }
      SortedSplits(old(sent), sent, taken, i, now);
    }

    method NoteEarliest(time: u32)
      requires Valid()
      modifies this`earliestTimeout
      ensures Valid() && earliestTimeout == time
    {
      hide Accounted, Packed, InTransit;
      earliestTimeout := time;
    }

    lemma PackedAt(q: seq<Outgoing>, i: nat, lanes: nat)
      requires Packed(q, lanes) && i < |q|
      ensures q[i].channel < lanes ==> q[i].hasPacket
    {
    }

    lemma DoubledOne(o: Outgoing)
      ensures Doubled([o]) == [o.(timeout := o.timeout * 2 % WORD)]
    {
    }

    method PutBack(i: nat, m: nat)
      requires Valid() && i < |sent| && m <= |outgoing| && forall j :: 0 <= j < m ==> outgoing[j].attempts > 0
      modifies this`outgoing, this`sent, this`dataInTransit, this`nextTimeout
      ensures Valid() && sent == Without(old(sent), i)
      ensures outgoing == old(outgoing)[..m] + Doubled([old(sent[i])]) + old(outgoing)[m..]
    {
      hide Accounted, InTransit, Packed, Doubled;
      InTransitWithout(sent, i);
      PackedAt(sent, i, |lanes|);
      PackedWithout(sent, i, |lanes|);
      DoubledOne(sent[i]);
      var o := sent[i];
      if o.hasPacket { dataInTransit := dataInTransit - o.length; }
      var o' := o.(timeout := o.timeout * 2 % WORD);
      assert o.attempts > 0 by { SentTried(outgoing, sent, lanes, accounts); }
      ReturnAccounts(outgoing, sent, i, m, o', lanes, accounts);
      PackedWith(outgoing, m, o', |lanes|);
      outgoing := outgoing[..m] + [o'] + outgoing[m..];
      sent := Without(sent, i);
      if i == 0 && sent != [] { nextTimeout := (sent[0].sentTime + sent[0].timeout) % WORD; }
    }

    // The guards of the sending loop: whether a command stays in the queue for now. Once one does, so
    // does every later one that its channel, or the data in transit, concerns.
    method Skips(o: Outgoing, windowWrap: bool, windowExceeded: bool, wrapped: set<nat>, capacity: nat)
        returns (skip: bool, windowWrap': bool, windowExceeded': bool)
      requires o.channel < |lanes| ==> o.hasPacket
      ensures skip ==> Held(o, lanes, wrapped, dataInTransit, capacity) || windowWrap || windowExceeded
      ensures skip ==> (windowWrap' || windowExceeded') && Waits(o, |lanes|)
      ensures !skip ==> windowWrap' == windowWrap && windowExceeded' == windowExceeded
      ensures !skip ==> o.channel < |lanes| ==> !windowWrap && !windowExceeded && !HeldUp(lanes[o.channel], o, wrapped)
      ensures !skip && o.hasPacket ==> dataInTransit + o.length <= capacity
    {
      hide HeldUp;
      skip, windowWrap', windowExceeded' := false, windowWrap, windowExceeded;
      if o.channel < |lanes| {
        if !windowWrap' && HeldUp(lanes[o.channel], o, wrapped) { windowWrap' := true; }
        if windowWrap' { skip := true; return; }
      }
      if o.hasPacket {
        if !windowExceeded' && dataInTransit + o.length > capacity { windowExceeded' := true; }
        if windowExceeded' { skip := true; return; }
      }
    }

    // enet_protocol_send_reliable_outgoing_commands. `wrapped` is what the source's out-of-range shift
    // adds to the mask of windows that must be free.
    method SendReliable(clock: Clock, throttle: nat, windowSize: nat, mtu: nat, wrapped: set<nat>, room: Datagram)
        returns (canPing: bool, continueSending: bool, rest: Datagram, ghost taken: seq<Outgoing>)
      requires Valid() && throttle <= THROTTLE_SCALE && windowSize <= MAXIMUM_WINDOW && mtu <= MAXIMUM_MTU
      modifies this
      ensures Valid()
      ensures Splits(old(outgoing), taken, outgoing) && sent == old(sent) + Stamped(taken, clock)
      ensures AllTransmit(old(accounts), accounts)
      ensures rest == Filled(room, taken) && (canPing <==> taken == [] && !continueSending)
      ensures if continueSending then Blocks(outgoing, rest, mtu, |lanes|) else AllWait(outgoing, |outgoing|, |lanes|)
      ensures var capacity := Capacity(throttle, windowSize, mtu);
        && dataInTransit <= Max(old(dataInTransit), capacity)
        && (outgoing != [] && MayGo(outgoing[0], lanes, accounts, wrapped, dataInTransit, capacity)
          ==> continueSending && !Fits(rest, mtu, outgoing[0]))
      ensures Roomy(old(outgoing), room, rest, mtu)
    {
      hide MayGo, AllWait, Blocks, Roomy, Among, Waits;
      hide Valid, AllTransmit, HeldUp, Fits, Stamp, Stamped, Capacity, Without, Filled, FilledWith, Underway, Splits;
      NoneWait(outgoing, |lanes|);
      RoomyStart(outgoing, room, mtu);
      var current: nat := 0;
      var windowWrap, windowExceeded := false, false;
      var capacity := Capacity(throttle, windowSize, mtu);
      canPing, continueSending, rest, taken := true, false, room, [];
      ghost var q, s, before, carried := outgoing, sent, accounts, dataInTransit;
      UnderwayStart(q, s, room, clock);
      TransmitStart(accounts);
      while current < |outgoing|
        invariant Valid() && current <= |outgoing| && (windowWrap || windowExceeded <==> current > 0)
        invariant Underway(q, s, room, clock, outgoing, sent, rest, taken, current)
        invariant AllTransmit(before, accounts)
        invariant dataInTransit <= Max(carried, capacity)
        invariant current > 0 ==> Held(outgoing[0], lanes, wrapped, dataInTransit, capacity)
        invariant (canPing <==> taken == []) && !continueSending
        invariant |lanes| == |old(lanes)| && AllWait(outgoing, current, |lanes|)
        invariant Among(outgoing, q) && Roomy(q, room, rest, mtu)
        decreases |outgoing| - current
      {
        Known();
        var o := outgoing[current];
        UnderwayStep(q, s, room, clock, outgoing, sent, rest, taken, current);
        var skip;
        skip, windowWrap, windowExceeded := Skips(o, windowWrap, windowExceeded, wrapped, capacity);
        if skip {
          OneWaits(outgoing, current, |lanes|);
          current := current + 1;
          continue;
        }
        canPing := false;
        if !Fits(rest, mtu, o) {
          BlocksAt(outgoing, current, rest, mtu, |lanes|);
          continueSending := true;
          break;
        }
        WaitWithout(outgoing, current, |lanes|);
        RoomyStep(outgoing, current, q, room, rest, mtu);
        MoveToSent(current, clock, wrapped, before);
        rest := FilledWith(rest, o);
        taken := taken + [o];
      }
      UnderwayEnd(q, s, room, clock, outgoing, sent, rest, taken, current);
      if outgoing != [] { FirstMayGo(wrapped, capacity); }
    }

    lemma FirstMayGo(wrapped: set<nat>, capacity: nat)
      requires Valid() && outgoing != []
      ensures MayGo(outgoing[0], lanes, accounts, wrapped, dataInTransit, capacity) <==>
        !Held(outgoing[0], lanes, wrapped, dataInTransit, capacity)
    {
      MayGoIsFree(outgoing, sent, outgoing[0], lanes, accounts, wrapped, dataInTransit, capacity);
    }

    method MoveToSent(current: nat, clock: Clock, ghost wrapped: set<nat>, ghost before: seq<Account>)
      requires Valid() && current < |outgoing| && AllTransmit(before, accounts)
      requires outgoing[current].channel < |lanes| ==>
        current == 0 && !HeldUp(lanes[outgoing[current].channel], outgoing[current], wrapped)
      requires outgoing[current].hasPacket ==> dataInTransit + outgoing[current].length <= MAXIMUM_WINDOW
      modifies this
      ensures Valid() && AllTransmit(before, accounts)
      ensures outgoing == Without(old(outgoing), current)
      ensures sent == old(sent) + [Stamp(old(outgoing)[current], clock)]
      ensures dataInTransit == old(dataInTransit) + Weight(old(outgoing)[current])
      ensures old(outgoing)[current].channel >= |old(lanes)| ==> lanes == old(lanes)
      ensures |lanes| == |old(lanes)|
    {
      var o := outgoing[current];
      var o' := Stamp(o, clock);
      MoveKeeps(outgoing, sent, current, o', lanes, accounts, wrapped, before);
      hide Accounted, Packed, AllTransmit, HeldUp, InTransit, Without, Charged, Opened, Stamp, Transmits;
      var sent', deadline := sent + [o'], if sent == [] then (clock.now + o'.timeout) % WORD else nextTimeout;
      var carried := if o.hasPacket then dataInTransit + o.length else dataInTransit;
      assert sent'[0] == if sent == [] then o' else sent[0];
      lanes, accounts, nextTimeout, dataInTransit := Charged(lanes, o), Opened(accounts, o), deadline, carried;
      outgoing, sent := Without(outgoing, current), sent';
    }
  }
}
