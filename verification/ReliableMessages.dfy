/** What a run of ReliableRun means for the messages of an application: their bytes, and how long one may be
    to be delivered at all. */
module ReliableMessages {
  import opened Words
  import opened ReliableOrder
  import opened ReliableRun
  import Fragments

  // --- Bytes. ---

  function Part(message: Message, length: nat, i: nat): Message
    requires length > 0 && i < Fragments.Count(|message|, length)
  {
    Fragments.CountBounds(|message|, length, i);
    message[i * length..Fragments.Least(i * length + length, |message|)]
  }

  // The parts that enet_peer_send makes of a message.
  function Cut(message: Message, length: nat): (p: Parcel)
    requires length > 0
    ensures p != []
  {
    if |message| <= length then [message]
    else
      Fragments.CountBounds(|message|, length, 0);
      var n := Fragments.Count(|message|, length);
      seq(n, i requires 0 <= i < n => Part(message, length, i))
  }

  function Bytes(p: Parcel): Message { if p == [] then [] else Bytes(p[..|p| - 1]) + p[|p| - 1] }

  // Nothing of a message is lost or repeated by cutting it.
  lemma CutBytes(message: Message, length: nat)
    requires length > 0
    ensures Bytes(Cut(message, length)) == message
  {
    var p := Cut(message, length);
    if |message| <= length {
      assert p[..0] == [];
    } else {
      PartsBytes(message, length, |p|);
      Fragments.CountBounds(|message|, length, |p|);
      assert p[..|p|] == p && message[..|message|] == message;
    }
  }

  lemma {:induction false} PartsBytes(message: Message, length: nat, i: nat)
    requires 0 < length < |message| && i <= |Cut(message, length)|
    ensures Bytes(Cut(message, length)[..i]) == message[..Fragments.Least(i * length, |message|)]
    decreases i
  {
    var p := Cut(message, length);
    if i > 0 {
      PartsBytes(message, length, i - 1);
      Fragments.CountBounds(|message|, length, i - 1);
      assert (i - 1) * length + length == i * length;
      assert p[..i][..i - 1] == p[..i - 1] && p[..i][i - 1] == Part(message, length, i - 1);
    }
  }

  // The fragments sent are these parts, and a packet rebuilt from them is all of them together.
  lemma FragmentsAre(fs: seq<Fragments.Fragment>, message: Message, length: nat, s: Fragments.Assembly)
    requires 0 < length < |message| && Fragments.Cuts(fs, message, length)
    requires Fragments.Agrees(s, message, length) && Fragments.Complete(s)
    ensures |fs| == |Cut(message, length)| && forall i :: 0 <= i < |fs| ==> fs[i].data == Cut(message, length)[i]
    ensures s.data == Bytes(Cut(message, length))
  {
    forall i | 0 <= i < |fs| ensures fs[i].data == Cut(message, length)[i] {
      assert Fragments.IsPiece(fs[i], i, message, length);
    }
    Fragments.CompleteIsMessage(s, message, length);
    CutBytes(message, length);
  }

  // In every run the messages delivered are the first ones sent, byte for byte.
  lemma MessagesDelivered(steps: seq<Step>, messages: seq<Message>, length: nat)
    requires length > 0 && (StartInv(); Legal(START, steps))
    requires var ps := Run(START, steps).packets;
      |ps| == |messages| && forall i :: 0 <= i < |ps| ==> ps[i] == Cut(messages[i], length)
    ensures var delivered := Run(START, steps).receiver.delivered;
      |delivered| <= |messages| && forall i :: 0 <= i < |delivered| ==> Bytes(delivered[i]) == messages[i]
  {
    DeliveredIsPrefix(steps);
    var delivered := Run(START, steps).receiver.delivered;
    forall i | 0 <= i < |delivered| ensures Bytes(delivered[i]) == messages[i] { CutBytes(messages[i], length); }
  }

  // --- Length. ---

  // A message of `count` parts after the first `first` numbers ends within the sender's lead.
  predicate Short(first: nat, count: nat) { Window(first + count) <= Window(first) + AHEAD + 1 }

  // The first message of a channel may have fewer parts than eight windows have numbers.
  lemma ShortFirst(count: nat)
    ensures Short(0, count) <==> count < FREE_WINDOWS * WINDOW_SIZE
  {
  }

  ghost predicate Quiet(s: System) { Inv(s) && s.first == Total(s.packets) && s.outstanding == {} }

  ghost predicate Delivers(s: System, steps: seq<Step>)
    requires Inv(s)
  {
    Legal(s, steps) && s.packets <= Run(s, steps).receiver.delivered
  }

  // A message sent when everything before it is through can be delivered if and only if it is short enough.
  lemma DeliverableWhere(s: System, p: Parcel)
    requires Quiet(s) && p != []
    ensures Inv(Do(s, Send(p)))
    ensures (exists steps :: Delivers(Do(s, Send(p)), steps)) <==> Short(s.first, |p|)
  {
    SendKeeps(s, p);
    var t := Do(s, Send(p));
    if Short(s.first, |p|) {
      var steps := Pushed(s, p);
    }
    forall steps | Delivers(t, steps) ensures Short(s.first, |p|) { DeliveredIsShort(s, p, steps); }
  }

  lemma DeliveredIsShort(s: System, p: Parcel, steps: seq<Step>)
    requires Quiet(s) && p != [] && Inv(Do(s, Send(p))) && Delivers(Do(s, Send(p)), steps)
    ensures Short(s.first, |p|)
  {
    hide Legal, Run, Window, Total, Near, Has, HeadComplete;
    var t := Do(s, Send(p));
    RunKeeps(t, steps);
    var u := Run(t, steps);
    var n := |s.packets|;
    assert Spanned(u.packets, |u.receiver.delivered|) && u.receiver.delivered <= u.packets;
    assert u.packets[..n + 1] == u.packets[..n] + [p] == t.packets && u.packets[..n] == s.packets;
    TotalMore(s.packets, p);
  }

  lemma TotalMore(ps: seq<Parcel>, p: Parcel)
    ensures Total(ps + [p]) == Total(ps) + |p|
  {
    assert (ps + [p])[..|ps|] == ps;
  }

  // Its parts are sent and received one after the other; n numbers are through.
  ghost predicate Pushing(t: System, ps: seq<Parcel>, p: Parcel, n: nat) {
    && Inv(t) && t.packets == ps + [p] && t.first == n && Total(ps) <= n <= Total(ps) + |p|
    && ps <= t.receiver.delivered
    && (forall a :: 0 < a <= n ==> a <= Total(t.packets) && Has(t.packets, t.receiver, a))
    && forall a :: a in t.outstanding ==> Window(a) == Window(Total(ps)) + AHEAD + 1
  }

  lemma PushStart(s: System, p: Parcel)
    requires Quiet(s) && p != []
    ensures Pushing(Do(s, Send(p)), s.packets, p, s.first)
  {
    SendKeeps(s, p);
    AllDelivered(s);
    TotalMore(s.packets, p);
    var t := Do(s, Send(p));
    hide Window, Total;
    forall a | 0 < a <= s.first ensures Has(t.packets, t.receiver, a) { assert a <= t.receiver.base; }
  }

  lemma PushBase(t: System, ps: seq<Parcel>, p: Parcel, n: nat)
    requires Pushing(t, ps, p, n) && n < Total(ps) + |p|
    ensures t.receiver.delivered == ps && t.receiver.base == Total(ps) && Total(t.packets) == Total(ps) + |p|
    ensures At(t.packets, n + 1).start == Total(ps) + 1
  {
    TotalMore(ps, p);
    hide Window;
    var d := t.receiver.delivered;
    assert d == ps || d == ps + [p];
    assert (ps + [p])[..|ps|] == ps;
    AtPacket(t.packets, |ps|);
  }

  // The guard lets the next number go: where a window begins nothing is outstanding.
  lemma PushFree(t: System, ps: seq<Parcel>, p: Parcel, n: nat)
    requires Pushing(t, ps, p, n) && n < Total(ps) + |p| && Short(Total(ps), |p|)
    ensures WindowFree(t.outstanding, n + 1)
  {
    if (n + 1) % WINDOW_SIZE == 0 {
      WindowMonotone(n + 1, Total(ps) + |p|);
      assert Window(n) < Window(n + 1);
      hide Total;
      forall a | a in t.outstanding ensures Window(a) <= Window(n) { WindowMonotone(a, n); }
      assert t.outstanding == {};
    }
  }

  // The part is sent,
  lemma PushSent(t: System, ps: seq<Parcel>, p: Parcel, n: nat)
    requires Pushing(t, ps, p, n) && n < Total(ps) + |p| && Short(Total(ps), |p|)
    ensures Enabled(t, Transmit) && Inv(Do(t, Transmit)) && Enabled(Do(t, Transmit), Arrive(n + 1))
  {
    PushBase(t, ps, p, n);
    PushFree(t, ps, p, n);
    hide Window, Has, At, Total, Short;
    TransmitKeeps(t);
  }

  // arrives, and is there then.
  lemma PushArrival(t: System, ps: seq<Parcel>, p: Parcel, n: nat) returns (u: System)
    requires Pushing(t, ps, p, n) && n < Total(ps) + |p| && Short(Total(ps), |p|)
    ensures Enabled(t, Transmit) && Inv(Do(t, Transmit)) && Enabled(Do(t, Transmit), Arrive(n + 1))
    ensures u == Do(Do(t, Transmit), Arrive(n + 1)) && Arrived(t, u, ps, p, n + 1)
  {
    hide Total, At, Has, Receive, Acknowledges, Window, Faithful, Spanned, Short, HeadComplete;
    PushSent(t, ps, p, n);
    PushBase(t, ps, p, n);
    var m := Do(t, Transmit);
    u := Do(m, Arrive(n + 1));
    ArriveKeeps(m, n + 1);
    ReceiveFaithful(m, n + 1);
    StartNear(Total(ps));
    PartThere(m, n + 1);
  }

  lemma StartNear(b: nat)
    ensures Window(b + 1) <= Window(b) + AHEAD
  {
  }

  lemma PartThere(m: System, a: nat)
    requires Inv(m) && 0 < a <= m.first && m.receiver.base < At(m.packets, a).start
    requires Window(At(m.packets, a).start) <= Window(m.receiver.base) + AHEAD
    ensures Has(m.packets, Receive(m.receiver, a, At(m.packets, a)), a)
  {
    ReceiveFaithful(m, a);
    AtIn(m.packets, a);
    hide Window, Total, At, Drain, Faithful, Spanned, WithPart;
  }

  // What is left of pushing number n when it has arrived.
  ghost predicate Arrived(t: System, u: System, ps: seq<Parcel>, p: Parcel, n: nat) {
    && Inv(u) && u.first == n && u.packets == ps + [p] && Total(ps) <= n <= Total(ps) + |p|
    && ps <= u.receiver.delivered && u.outstanding == t.outstanding + {n}
    && (forall a :: 0 < a <= n ==> a <= Total(u.packets) && Has(u.packets, u.receiver, a))
    && (Acknowledges(u.receiver.base, n) ==> n in u.acks)
  }

  // It is acknowledged,
  lemma PushAcked(t: System, u: System, ps: seq<Parcel>, p: Parcel, n: nat)
    requires Pushing(t, ps, p, n) && Arrived(t, u, ps, p, n + 1) && n + 1 in u.acks
    ensures Enabled(u, AckArrive(n + 1)) && Inv(Do(u, AckArrive(n + 1)))
    ensures Pushing(Do(u, AckArrive(n + 1)), ps, p, n + 1)
  {
    hide Window, Total, Has;
    AckSettlesOwn(u, n + 1);
    StepKeeps(u, AckArrive(n + 1));
    assert Do(u, AckArrive(n + 1)).outstanding == t.outstanding;
  }

  // or in the last of the windows that the message may reach.
  lemma PushKept(t: System, u: System, ps: seq<Parcel>, p: Parcel, n: nat)
    requires Pushing(t, ps, p, n) && Arrived(t, u, ps, p, n + 1) && n + 1 !in u.acks && Short(Total(ps), |p|)
    ensures Pushing(u, ps, p, n + 1)
  {
    hide Total, Has;
    LastWindow(u, ps, p, n + 1);
  }

  lemma PushOne(t: System, ps: seq<Parcel>, p: Parcel, n: nat) returns (v: System, steps: seq<Step>)
    requires Pushing(t, ps, p, n) && n < Total(ps) + |p| && Short(Total(ps), |p|)
    ensures Pushing(v, ps, p, n + 1) && Inv(t) && Legal(t, steps) && Run(t, steps) == v
  {
    hide Pushing, Arrived, Short, Enabled, Do, Legal, Run, Total;
    PushingInv(t, ps, p, n);
    var u := PushArrival(t, ps, p, n);
    var m := Do(t, Transmit);
    ArrivedInv(t, u, ps, p, n + 1);
    if n + 1 in u.acks {
      PushAcked(t, u, ps, p, n);
      v := Do(u, AckArrive(n + 1));
      RunNone(v);
      RunFirst(u, AckArrive(n + 1), []);
      steps := [AckArrive(n + 1)] + [];
    } else {
      PushKept(t, u, ps, p, n);
      v, steps := u, [];
      RunNone(u);
    }
    RunFirst(m, Arrive(n + 1), steps);
    RunFirst(t, Transmit, [Arrive(n + 1)] + steps);
    steps := [Transmit] + ([Arrive(n + 1)] + steps);
  }

  lemma ArrivedInv(t: System, u: System, ps: seq<Parcel>, p: Parcel, n: nat)
    requires Arrived(t, u, ps, p, n)
    ensures Inv(u)
  {
  }

  lemma RunNone(s: System)
    requires Inv(s)
    ensures Legal(s, []) && Run(s, []) == s
  {
  }

  lemma RunFirst(s: System, step: Step, rest: seq<Step>)
    requires Inv(s) && Enabled(s, step) && Inv(Do(s, step)) && Legal(Do(s, step), rest)
    ensures Legal(s, [step] + rest) && Run(s, [step] + rest) == Run(Do(s, step), rest)
  {
    assert ([step] + rest)[1..] == rest;
  }

  lemma LastWindow(u: System, ps: seq<Parcel>, p: Parcel, n: nat)
    requires Inv(u) && u.first == n && u.packets == ps + [p] && ps <= u.receiver.delivered
    requires !Acknowledges(u.receiver.base, n) && n <= Total(ps) + |p| && Short(Total(ps), |p|)
    ensures Window(n) == Window(Total(ps)) + AHEAD + 1
  {
    var base := u.receiver.base;
    DeliveredBase(u, ps);
    WindowNear(base, n);
    UnwrapNumber(base, n);
    WindowMonotone(Total(ps), base);
    WindowMonotone(n, Total(ps) + |p|);
  }

  lemma DeliveredBase(u: System, ps: seq<Parcel>)
    requires Inv(u) && ps <= u.receiver.delivered
    ensures Total(ps) <= u.receiver.base <= u.first
  {
    assert u.receiver.delivered[..|ps|] == ps;
    AtPrefix(u.receiver.delivered, |ps|);
  }

  lemma PushAll(t: System, ps: seq<Parcel>, p: Parcel, n: nat) returns (steps: seq<Step>)
    requires Pushing(t, ps, p, n) && Short(Total(ps), |p|)
    ensures Legal(t, steps) && Pushing(Run(t, steps), ps, p, Total(ps) + |p|)
    decreases Total(ps) + |p| - n
  {
    hide Pushing, Short, Enabled, Do;
    PushingInv(t, ps, p, n);
    if n == Total(ps) + |p| {
      RunNone(t);
      return [];
    }
    var v, first := PushOne(t, ps, p, n);
    var rest := PushAll(v, ps, p, n + 1);
    RunJoined(t, first, rest);
    steps := first + rest;
  }

  lemma PushingInv(t: System, ps: seq<Parcel>, p: Parcel, n: nat)
    requires Pushing(t, ps, p, n)
    ensures Inv(t) && n <= Total(ps) + |p|
  {
  }

  lemma {:induction false} RunJoined(s: System, a: seq<Step>, b: seq<Step>)
    requires Inv(s) && Legal(s, a) && (RunKeeps(s, a); Legal(Run(s, a), b))
    ensures Legal(s, a + b) && (RunKeeps(s, a); Run(s, a + b) == Run(Run(s, a), b))
    decreases |a|
  {
    hide Inv, Enabled, Do;
    RunKeeps(s, a);
    if a == [] {
      assert a + b == b;
    } else {
      StepKeeps(s, a[0]);
      RunJoined(Do(s, a[0]), a[1..], b);
      assert (a + b)[1..] == a[1..] + b;
    }
  }

  // All there, it is delivered.
  lemma PushEnd(t: System, ps: seq<Parcel>, p: Parcel)
    requires Pushing(t, ps, p, Total(ps) + |p|)
    ensures t.receiver.delivered == t.packets
  {
    TotalMore(ps, p);
    hide Window, Total, At;
    var d := t.receiver.delivered;
    if |d| < |t.packets| {
      var a := MissingNext(t.packets, t.first, t.receiver);
    } else {
      assert t.packets[..|d|] == d;
    }
  }

  lemma Pushed(s: System, p: Parcel) returns (steps: seq<Step>)
    requires Quiet(s) && p != [] && Short(s.first, |p|)
    ensures Inv(Do(s, Send(p))) && Delivers(Do(s, Send(p)), steps)
  {
    hide Pushing, Short, Inv, Enabled, Do, Legal, Run, Total;
    QuietIs(s, p);
    PushStart(s, p);
    var t := Do(s, Send(p));
    PushingInv(t, s.packets, p, s.first);
    steps := PushAll(t, s.packets, p, s.first);
    RunKeeps(t, steps);
    PushEnd(Run(t, steps), s.packets, p);
    SamePackets(Run(t, steps), s, p);
  }

  lemma QuietIs(s: System, p: Parcel)
    requires Quiet(s) && p != []
    ensures Inv(s) && s.first == Total(s.packets) && Enabled(s, Send(p)) && Do(s, Send(p)).packets == s.packets + [p]
  {
  }

  lemma SamePackets(u: System, s: System, p: Parcel)
    requires Pushing(u, s.packets, p, Total(s.packets) + |p|)
    ensures u.packets == s.packets + [p]
  {
  }

  // --- Settling. ---

  // The packet that a command belongs to.
  lemma {:induction false} PacketOf(ps: seq<Parcel>, a: nat) returns (i: nat)
    requires 0 < a <= Total(ps)
    ensures i < |ps| && Total(ps[..i]) < a <= Total(ps[..i + 1]) && At(ps, a).start == Total(ps[..i]) + 1
    decreases |ps|
  {
    var front := ps[..|ps| - 1];
    if a <= Total(front) {
      i := PacketOf(front, a);
      assert front[..i] == ps[..i] && front[..i + 1] == ps[..i + 1];
    } else {
      i := |ps| - 1;
      assert ps[..i + 1] == ps;
    }
  }

  // A delivered command is at most seven windows past the number before its message.
  lemma StartClose(s: System, a: nat)
    requires Inv(s) && 0 < a <= s.receiver.base
    ensures a <= Total(s.packets) && 0 < At(s.packets, a).start <= a
    ensures Window(a) <= Window(At(s.packets, a).start) + AHEAD + 1
  {
    var d := s.receiver.delivered;
    assert s.packets[..|d|] == d;
    AtPrefix(s.packets, |d|);
    var i := PacketOf(d, a);
    assert d[..i] == s.packets[..i] && d[..i + 1] == s.packets[..i + 1];
    hide Total, At, Has;
    WindowMonotone(a, Total(d[..i + 1]));
    WindowMonotone(Total(d[..i]), Total(d[..i]) + 1);
  }

  ghost function Settled(s: System, a: nat): System {
    s.(outstanding := s.outstanding - {a}, copies := s.copies + {a}, acks := s.acks + {a})
  }

  // A copy of its own that passes the receiver's tests would be taken for another message.
  lemma AgainTurnedAway(s: System, a: nat)
    requires Inv(s) && 0 < a <= s.receiver.base && Window(s.receiver.base) <= Window(a) + 7
    ensures a <= Total(s.packets)
    ensures var start := At(s.packets, a).start;
      !Passes(s.receiver.base, Number(start)) <==> Window(s.receiver.base) <= Window(start) + 9
    ensures Acknowledges(s.receiver.base, a)
  {
    StartClose(s, a);
    hide At, Total, Has, Passes, Acknowledges, Inv;
    PassesWhere(s.receiver.base, At(s.packets, a).start);
    AcknowledgesWhere(s.receiver.base, a);
  }

  // A delivered command whose acknowledgements were lost is settled by sending it again, at most seven windows
  // behind the receiver, if and only if its message begins at most nine windows behind; for a message of one
  // part that is always so.
  lemma SettledWhere(s: System, a: nat)
    requires Inv(s) && a in s.outstanding && a <= s.receiver.base && Window(s.receiver.base) <= Window(a) + 7
    ensures a <= Total(s.packets)
    ensures var steps := [Retransmit(a), Arrive(a), AckArrive(a)]; var start := At(s.packets, a).start;
      && (Legal(s, steps) <==> Window(s.receiver.base) <= Window(start) + 9)
      && (Legal(s, steps) ==> Run(s, steps) == Settled(s, a))
      && (start == a ==> Legal(s, steps))
  {
    AgainTurnedAway(s, a);
    hide Window, Legal, Run, At, Total, Has, Passes, Acknowledges, Inv;
    if !Passes(s.receiver.base, Number(At(s.packets, a).start)) { SettleOne(s, a); }
    if Legal(s, [Retransmit(a), Arrive(a), AckArrive(a)]) { SecondEnabled(s, Retransmit(a), Arrive(a), AckArrive(a)); }
  }

  lemma SecondEnabled(s: System, x: Step, y: Step, z: Step)
    requires Inv(s) && Legal(s, [x, y, z])
    ensures Enabled(s, x) && Inv(Do(s, x)) && Enabled(Do(s, x), y)
  {
    StepKeeps(s, x);
    assert [x, y, z][1..] == [y, z];
  }

  lemma SettleOne(s: System, a: nat)
    requires Inv(s) && a in s.outstanding && a <= s.receiver.base && a <= Total(s.packets)
    requires !Passes(s.receiver.base, Number(At(s.packets, a).start)) && Acknowledges(s.receiver.base, a)
    ensures var steps := [Retransmit(a), Arrive(a), AckArrive(a)]; Legal(s, steps) && Run(s, steps) == Settled(s, a)
  {
    hide Window, Legal, Run, Total, Has, Passes, Acknowledges, At;
    var t := Do(s, Retransmit(a));
    StepKeeps(s, Retransmit(a));
    var u := Do(t, Arrive(a));
    StepKeeps(t, Arrive(a));
    AlreadyHas(s, a);
    assert u == t.(acks := t.acks + {a});
    AckEnabled(u, a);
    var v := Do(u, AckArrive(a));
    AckSettlesOwn(u, a);
    StepKeeps(u, AckArrive(a));
    RunNone(v);
    RunFirst(u, AckArrive(a), []);
    RunFirst(t, Arrive(a), [AckArrive(a)] + []);
    RunFirst(s, Retransmit(a), [Arrive(a)] + ([AckArrive(a)] + []));
    assert [Retransmit(a)] + ([Arrive(a)] + ([AckArrive(a)] + [])) == [Retransmit(a), Arrive(a), AckArrive(a)];
  }

  lemma AlreadyHas(s: System, a: nat)
    requires Inv(s) && 0 < a <= s.receiver.base && a <= Total(s.packets)
    ensures Receive(s.receiver, a, At(s.packets, a)) == s.receiver
  {
    AtIn(s.packets, a);
  }

  lemma AckEnabled(s: System, a: nat)
    requires Inv(s) && a in s.outstanding && a in s.acks
    ensures Enabled(s, AckArrive(a))
  {
    assert Window(s.first) < Window(a) + WINDOWS;
  }

  // So it is in every run.
  lemma SettledInRuns(steps: seq<Step>, a: nat)
    requires (StartInv(); Legal(START, steps))
    requires var s := Run(START, steps);
      && a in s.outstanding && 0 < a <= s.receiver.base <= Total(s.packets)
      && Window(s.receiver.base) <= Window(a) + 7 && Window(s.receiver.base) <= Window(At(s.packets, a).start) + 9
    ensures var more := steps + [Retransmit(a), Arrive(a), AckArrive(a)];
      Legal(START, more) && Run(START, more) == Settled(Run(START, steps), a)
  {
    StartInv();
    RunKeeps(START, steps);
    hide Window, Legal, Run, Total, At, Inv;
    SettledWhere(Run(START, steps), a);
    RunJoined(START, steps, [Retransmit(a), Arrive(a), AckArrive(a)]);
  }
}
