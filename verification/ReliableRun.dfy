/** A whole run of one reliable channel: sender, a network that loses, repeats and reorders
    datagrams, and the receiver; for any interleaving of sends, timeouts and arrivals, and for any
    mixture of whole and fragmented messages. */
module ReliableRun {
  import opened Words
  import opened Numbers
  import opened ReliableOrder

  // `first` commands have been sent at least once; `outstanding` are those not yet acknowledged.
  // A copy or an acknowledgement once sent can arrive any number of times, in any order, until lost.
  datatype System = System(
    packets: seq<Parcel>, first: nat, outstanding: set<nat>,
    copies: set<nat>, acks: set<nat>, receiver: Receiver)

  datatype Step =
    | Send(packet: Parcel)
    | Transmit
    | Retransmit(index: nat)
    | Arrive(index: nat)
    | AckArrive(index: nat)
    | Lose(index: nat)
    | LoseAck(index: nat)

  const START := System([], 0, {}, {}, {}, Receiver(0, map[], []))

  // --- Numbering: each part of each packet is a command with the next number. ---

  function Total(ps: seq<Parcel>): nat { if ps == [] then 0 else Total(ps[..|ps| - 1]) + |ps[|ps| - 1]| }

  // The command with number n.
  function At(ps: seq<Parcel>, n: nat): Piece
    requires 0 < n <= Total(ps)
  {
    var front, p := ps[..|ps| - 1], ps[|ps| - 1];
    if n <= Total(front) then At(front, n) else Piece(Total(front) + 1, |p|, p[n - Total(front) - 1])
  }

  lemma {:induction false} AtIn(ps: seq<Parcel>, n: nat)
    requires 0 < n <= Total(ps)
    ensures var p := At(ps, n);
      && 0 < p.start <= n < p.start + p.count <= Total(ps) + 1
      && forall m :: p.start <= m < p.start + p.count ==> At(ps, m).start == p.start && At(ps, m).count == p.count
    decreases |ps|
  {
    var front := ps[..|ps| - 1];
    if n <= Total(front) { AtIn(front, n); }
  }

  lemma {:induction false} AtPrefix(ps: seq<Parcel>, i: nat)
    requires i <= |ps|
    ensures Total(ps[..i]) <= Total(ps)
    ensures forall n :: 0 < n <= Total(ps[..i]) ==> At(ps, n) == At(ps[..i], n)
    decreases |ps|
  {
    if i < |ps| {
      assert ps[..|ps| - 1][..i] == ps[..i];
      AtPrefix(ps[..|ps| - 1], i);
    } else {
      assert ps[..i] == ps;
    }
  }

  // Packet i takes the numbers after those of the packets before it.
  lemma AtPacket(ps: seq<Parcel>, i: nat)
    requires i < |ps|
    ensures var b := Total(ps[..i]);
      && Total(ps[..i + 1]) == b + |ps[i]| <= Total(ps)
      && forall m :: b < m <= b + |ps[i]| ==> At(ps, m) == Piece(b + 1, |ps[i]|, ps[i][m - b - 1])
  {
    AtPrefix(ps, i + 1);
    assert ps[..i + 1][..i] == ps[..i];
  }

  // The messages of two commands are the same or apart.
  lemma AtApart(ps: seq<Parcel>, m: nat, n: nat)
    requires 0 < m <= Total(ps) && 0 < n <= Total(ps)
    ensures var p, q := At(ps, m), At(ps, n);
      p.start + p.count <= q.start || q.start + q.count <= p.start || (p.start == q.start && p.count == q.count)
  {
    var p, q := At(ps, m), At(ps, n);
    AtIn(ps, m);
    AtIn(ps, n);
    assert p.start <= q.start < p.start + p.count ==> At(ps, q.start).start == p.start;
    assert q.start <= p.start < q.start + q.count ==> At(ps, p.start).start == q.start;
  }

  // A command beyond the first i packets belongs to a later one.
  lemma StartBeyond(ps: seq<Parcel>, i: nat, n: nat)
    requires i <= |ps| && Total(ps[..i]) < n <= Total(ps)
    ensures At(ps, n).start > Total(ps[..i])
  {
    AtIn(ps, n);
    AtPrefix(ps, i);
    var p := At(ps, n);
    if p.start <= Total(ps[..i]) { AtIn(ps[..i], p.start); }
  }

  function Slot(window: nat): nat { window % WINDOWS }

  // reliableWindows[slot] and the bit of usedReliableWindows for it.
  function InSlot(outstanding: set<nat>, slot: nat): set<nat> {
    set a | a in outstanding && Slot(Window(a)) == slot
  }

  // The sender's guard on the first message of a window: the window before must not be full of
  // unacknowledged messages, and the slots from its own up to FREE_WINDOWS - 1 on must be unused.
  // Only the part of the used-window mask that does not wrap is relied on.
  ghost predicate WindowFree(outstanding: set<nat>, index: nat) {
    var slot := Slot(Window(index));
    index % WINDOW_SIZE == 0 ==>
      && |InSlot(outstanding, (slot + WINDOWS - 1) % WINDOWS)| < WINDOW_SIZE
      && forall w :: slot <= w < slot + FREE_WINDOWS && w < WINDOWS ==> InSlot(outstanding, w) == {}
  }

  ghost predicate Enabled(s: System, step: Step) {
    match step
    case Send(p) => p != []
    case Transmit => s.first < Total(s.packets) && WindowFree(s.outstanding, s.first + 1)
    case Retransmit(a) => a in s.outstanding
    // No copy arrives so late that its message's number passes for one of the next messages.
    case Arrive(a) =>
      && a in s.copies && 0 < a <= Total(s.packets)
      && (a <= s.receiver.base ==> !Passes(s.receiver.base, Number(At(s.packets, a).start)))
    // No acknowledgement arrives once its number has been used again.
    case AckArrive(a) => a in s.acks && s.first < a + HALF
    case Lose(a) => true
    case LoseAck(a) => true
  }

  ghost function Do(s: System, step: Step): System
    requires Enabled(s, step) && Inv(s)
  {
    match step
    case Send(p) => s.(packets := s.packets + [p])
    case Transmit => s.(first := s.first + 1, outstanding := s.outstanding + {s.first + 1},
      copies := s.copies + {s.first + 1})
    case Retransmit(a) => s.(copies := s.copies + {a})
    case Arrive(a) =>
      var r := Receive(s.receiver, a, At(s.packets, a));
      s.(receiver := r, acks := if Acknowledges(r.base, a) then s.acks + {a} else s.acks)
    case AckArrive(a) => s.(outstanding := set b | b in s.outstanding && Number(b) != Number(a))
    case Lose(a) => s.(copies := s.copies - {a})
    case LoseAck(a) => s.(acks := s.acks - {a})
  }

  // Received: delivered already or waiting in the reorder queue.
  ghost predicate Has(ps: seq<Parcel>, r: Receiver, a: nat)
    requires 0 < a <= Total(ps)
  {
    var start := At(ps, a).start;
    a <= r.base || (start in r.buffer && a - start in r.buffer[start].parts)
  }

  // And within the windows in which the receiver acknowledges.
  ghost predicate Near(ps: seq<Parcel>, r: Receiver, a: nat) {
    0 < a <= Total(ps) && Has(ps, r, a) && Window(a) <= Window(r.base) + AHEAD
  }

  ghost predicate Between(s: System, xs: set<nat>) {
    forall a :: a in xs ==> 0 < a <= s.first
  }

  // What is queued of a message are parts of it that have been sent.
  ghost predicate Genuine(ps: seq<Parcel>, first: nat, start: nat, q: Partial) {
    && 0 < start <= Total(ps) && At(ps, start).start == start && At(ps, start).count == q.count
    && forall j {:trigger j in q.parts} :: j in q.parts ==>
      start + j <= first && start + j <= Total(ps) && At(ps, start + j) == Piece(start, q.count, q.parts[j])
  }

  ghost predicate Faithful(ps: seq<Parcel>, first: nat, r: Receiver) {
    && (forall i :: 0 <= i < |ps| ==> ps[i] != []) && r.delivered <= ps && r.base == Total(r.delivered) <= first
    && forall s {:trigger s in r.buffer} :: s in r.buffer ==> r.base < s && Genuine(ps, first, s, r.buffer[s])
  }

  // No message delivered took more numbers than the sender may be ahead.
  ghost predicate Spanned(ps: seq<Parcel>, n: nat) {
    forall i :: 0 <= i < n <= |ps| ==> Window(Total(ps[..i + 1])) <= Window(Total(ps[..i])) + AHEAD + 1
  }

  ghost predicate Inv(s: System) {
    && s.first <= Total(s.packets)
    && Between(s, s.outstanding) && Between(s, s.copies) && Between(s, s.acks)
    && Faithful(s.packets, s.first, s.receiver)
    && (forall a :: a in s.receiver.buffer ==> Window(a) <= Window(s.receiver.base) + AHEAD)
    && !HeadComplete(s.receiver) && Spanned(s.packets, |s.receiver.delivered|)
    && Window(s.first) <= Window(s.receiver.base) + AHEAD + 1
    && (forall a :: a in s.acks ==> Near(s.packets, s.receiver, a))
    && (forall a {:trigger a in s.outstanding} :: 0 < a <= s.first && a !in s.outstanding ==>
      Near(s.packets, s.receiver, a))
    && (forall a :: a in s.outstanding ==> Window(s.first) < Window(a) + WINDOWS)
  }

  // Every copy that can arrive is one the receiver can place, so its 16-bit code does what Receive says.
  lemma ArrivalTimely(s: System, a: nat)
    requires Inv(s) && Enabled(s, Arrive(a))
    ensures var p := At(s.packets, a);
      && p.start <= a < p.start + p.count && Timely(s.receiver.base, p.start) && Clear(s.receiver, p)
  {
    hide Passes;
    var ps, r, p := s.packets, s.receiver, At(s.packets, a);
    AtIn(ps, a);
    if a > r.base { WindowNear(r.base, s.first); BeyondBase(s, a); }
    forall b | b in r.buffer
      ensures
        || b + r.buffer[b].count <= p.start || p.start + p.count <= b
        || (b == p.start && r.buffer[b].count == p.count)
    {
      AtApart(ps, b, a);
    }
  }

  lemma BeyondBase(s: System, a: nat)
    requires s.receiver.delivered <= s.packets && s.receiver.base == Total(s.receiver.delivered)
    requires s.receiver.base < a <= Total(s.packets)
    ensures s.receiver.base < At(s.packets, a).start
  {
    assert s.packets[..|s.receiver.delivered|] == s.receiver.delivered;
    StartBeyond(s.packets, |s.receiver.delivered|, a);
  }

  // The head of the queue, once complete, is the next packet.
  lemma HeadIs(ps: seq<Parcel>, first: nat, r: Receiver)
    requires Faithful(ps, first, r) && HeadComplete(r)
    ensures var q, n := r.buffer[r.base + 1], |r.delivered|;
      && n < |ps| && ps[..n] == r.delivered && Whole(q) == ps[n]
      && Total(ps[..n + 1]) == r.base + q.count <= first
  {
    hide At, Total, Complete;
    var q, n := r.buffer[r.base + 1], |r.delivered|;
    assert ps[..n] == r.delivered && (n == |ps| ==> ps == r.delivered);
    assert Genuine(ps, first, r.base + 1, q);
    AtPacket(ps, n);
    PartsAre(ps, first, r.base + 1, q, ps[n]);
  }

  // All parts of a packet make it.
  lemma PartsAre(ps: seq<Parcel>, first: nat, start: nat, q: Partial, p: Parcel)
    requires Genuine(ps, first, start, q) && Complete(q) && p != [] && start + |p| <= Total(ps) + 1
    requires forall m :: start <= m < start + |p| ==> At(ps, m) == Piece(start, |p|, p[m - start])
    ensures Whole(q) == p && start + |p| <= first + 1
  {
    hide At, Total;
    assert At(ps, start).count == |p| == q.count;
    forall j | 0 <= j < |p| ensures q.parts[j] == p[j] {
      assert j in q.parts && At(ps, start + j).data == q.parts[j];
    }
    assert |p| - 1 in q.parts;
  }

  lemma HeadFaithful(ps: seq<Parcel>, first: nat, r: Receiver, base: nat, next: Receiver)
    requires Faithful(ps, first, r) && HeadComplete(r) && Spanned(ps, |r.delivered|)
    requires base <= r.base && Window(first) <= Window(base) + AHEAD + 1
    requires next == HandOver(r)
    ensures Faithful(ps, first, next) && Spanned(ps, |next.delivered|) && next.base >= r.base
    ensures r.delivered <= next.delivered
    ensures forall a :: 0 < a <= Total(ps) && Has(ps, r, a) ==> Has(ps, next, a)
    ensures forall s :: s in next.buffer ==> s in r.buffer
  {
    hide At, Total, Whole, Complete, Window;
    HeadIs(ps, first, r);
    var n := |r.delivered|;
    assert ps[..n + 1] == ps[..n] + [ps[n]];
    SpannedNext(ps, first, r.base, base, n);
    forall a | 0 < a <= Total(ps) && Has(ps, r, a) ensures Has(ps, next, a) { HasNext(ps, first, r, a); }
    forall s | s in next.buffer ensures next.base < s && Genuine(ps, first, s, next.buffer[s]) {
      BeyondHead(ps, first, r, s);
    }
  }

  lemma SpannedNext(ps: seq<Parcel>, first: nat, b: nat, base: nat, n: nat)
    requires Spanned(ps, n) && n < |ps| && b == Total(ps[..n]) && Total(ps[..n + 1]) <= first && base <= b
    requires Window(first) <= Window(base) + AHEAD + 1
    ensures Spanned(ps, n + 1)
  {
    WindowMonotone(Total(ps[..n + 1]), first);
    WindowMonotone(base, b);
    hide Window, Total;
  }

  lemma HasNext(ps: seq<Parcel>, first: nat, r: Receiver, a: nat)
    requires Faithful(ps, first, r) && HeadComplete(r) && 0 < a <= Total(ps) && Has(ps, r, a)
    ensures Has(ps, HandOver(r), a)
  {
    hide At, Total, Whole, Complete;
    AtIn(ps, a);
    var start := At(ps, a).start;
    if start == r.base + 1 { assert Genuine(ps, first, start, r.buffer[start]); }
  }

  // Another message that has begun to come stands behind the head.
  lemma BeyondHead(ps: seq<Parcel>, first: nat, r: Receiver, s: nat)
    requires Faithful(ps, first, r) && HeadComplete(r) && s in r.buffer && s != r.base + 1
    ensures s > HandOver(r).base && Genuine(ps, first, s, r.buffer[s])
  {
    hide At, Total, Whole, Complete;
    var q := r.buffer[r.base + 1];
    assert Genuine(ps, first, r.base + 1, q) && Genuine(ps, first, s, r.buffer[s]);
    AtIn(ps, s);
    AtApart(ps, r.base + 1, s);
  }

  lemma {:induction false} DrainFaithful(ps: seq<Parcel>, first: nat, r: Receiver, base: nat)
    requires Faithful(ps, first, r) && Spanned(ps, |r.delivered|)
    requires base <= r.base && Window(first) <= Window(base) + AHEAD + 1
    ensures var d := Drain(r);
      && Faithful(ps, first, d) && d.base >= r.base && !HeadComplete(d) && Spanned(ps, |d.delivered|)
      && r.delivered <= d.delivered
      && (forall a :: 0 < a <= Total(ps) && Has(ps, r, a) ==> Has(ps, d, a))
      && forall s :: s in d.buffer ==> s in r.buffer
    decreases |r.buffer|
  {
    hide Faithful, Spanned, Has, HeadComplete, HandOver, Window, At, Total;
    if HeadComplete(r) {
      var next := HandOver(r);
      HeadFaithful(ps, first, r, base, next);
      DrainFaithful(ps, first, next, base);
    }
  }

  // One more part is one of the message's.
  lemma GenuineMore(ps: seq<Parcel>, first: nat, a: nat, q: Partial)
    requires 0 < a <= first && a <= Total(ps)
    requires var p := At(ps, a); q == Partial(p.count, map[]) || Genuine(ps, first, p.start, q)
    ensures var p := At(ps, a);
      p.start <= a && Genuine(ps, first, p.start, q.(parts := q.parts[a - p.start := p.data]))
  {
    hide At, Total;
    AtIn(ps, a);
    var p := At(ps, a);
    var t := q.(parts := q.parts[a - p.start := p.data]);
    assert At(ps, p.start).start == p.start && At(ps, p.start).count == p.count;
    assert q.count == p.count;
    forall j | j in t.parts
      ensures p.start + j <= first && p.start + j <= Total(ps)
      ensures At(ps, p.start + j) == Piece(p.start, t.count, t.parts[j])
    {
      if j != a - p.start { assert j in q.parts; }
    }
  }

  // A part that arrives is put where it belongs.
  lemma FilledFaithful(ps: seq<Parcel>, first: nat, r: Receiver, a: nat)
    requires Faithful(ps, first, r) && 0 < a <= first && a <= Total(ps)
    requires Accepts(r, a, At(ps, a))
    ensures var t := WithPart(r, a, At(ps, a));
      && Faithful(ps, first, t) && Has(ps, t, a)
      && forall b :: 0 < b <= Total(ps) && Has(ps, r, b) ==> Has(ps, t, b)
  {
    hide At, Total, Window, Genuine;
    var p := At(ps, a);
    AtIn(ps, a);
    var t := WithPart(r, a, p);
    GenuineMore(ps, first, a, Begun(r, p));
    hide WithPart, Begun;
    assert forall s :: s in t.buffer ==> s == p.start || (s in r.buffer && t.buffer[s] == r.buffer[s]);
  }

  // What a receiver that took in command a has gained, and lost nothing.
  lemma ReceiveFaithful(s: System, a: nat)
    requires Inv(s) && 0 < a <= s.first
    ensures var ps, r, p := s.packets, s.receiver, At(s.packets, a);
      var r' := Receive(r, a, p);
      && Faithful(ps, s.first, r') && r'.base >= r.base && !HeadComplete(r') && Spanned(ps, |r'.delivered|)
      && r.delivered <= r'.delivered
      && (forall b :: 0 < b <= Total(ps) && Has(ps, r, b) ==> Has(ps, r', b)) && (Accepts(r, a, p) ==> Has(ps, r', a))
      && (forall b :: b in r'.buffer ==> Window(b) <= Window(r'.base) + AHEAD) && (!Accepts(r, a, p) ==> r' == r)
  {
    hide Faithful, Spanned, HeadComplete, Has, At, Total, Drain, Near;
    var ps, r, p := s.packets, s.receiver, At(s.packets, a);
    if Accepts(r, a, p) {
      var filled := WithPart(r, a, p);
      FilledFaithful(ps, s.first, r, a);
      DrainFaithful(ps, s.first, filled, r.base);
      WindowMonotone(r.base, Drain(filled).base);
      hide Window;
    }
  }

  lemma ArriveKeeps(s: System, a: nat)
    requires Inv(s) && Enabled(s, Arrive(a))
    ensures Inv(Do(s, Arrive(a)))
  {
    hide Receive, Drain, Acknowledges, Faithful, Spanned, HeadComplete, Has, At, Total, Passes;
    ReceiveFaithful(s, a);
    var r, r' := s.receiver, Receive(s.receiver, a, At(s.packets, a));
    WindowMonotone(r.base, r'.base);
    if Acknowledges(r'.base, a) { AcknowledgedNearby(s, a, r'); }
    hide Window;
  }

  lemma AcknowledgedNearby(s: System, a: nat, r': Receiver)
    requires Inv(s) && 0 < a <= s.first && r' == Receive(s.receiver, a, At(s.packets, a))
    requires Acknowledges(r'.base, a)
    ensures Near(s.packets, r', a)
  {
    ReceiveFaithful(s, a);
    hide Faithful, Spanned, HeadComplete, Receive;
    var r, p := s.receiver, At(s.packets, a);
    WindowMonotone(a, s.first);
    WindowMonotone(r.base, r'.base);
    if a > r'.base { AcknowledgedNear(r'.base, a); } else { WindowMonotone(a, r'.base); }
    if !Accepts(r, a, p) && r.base < a {
      AtIn(s.packets, a);
      BeyondBase(s, a);
      WindowMonotone(p.start, a);
    }
  }

  // One arrival takes the receiver on by no more windows than the sender may be ahead.
  lemma AdvanceBounded(s: System, a: nat)
    requires Inv(s) && Enabled(s, Arrive(a))
    ensures Window(Do(s, Arrive(a)).receiver.base) <= Window(s.receiver.base) + AHEAD + 1
  {
    ArriveKeeps(s, a);
    hide Receive;
    WindowMonotone(Do(s, Arrive(a)).receiver.base, s.first);
  }

  lemma PreviousSlot(index: nat, b: nat)
    requires index % WINDOW_SIZE == 0 && index <= b + WINDOW_SIZE && b < index
    ensures Window(b) + 1 == Window(index)
    ensures Slot(Window(b)) == (Slot(Window(index)) + WINDOWS - 1) % WINDOWS
  {
    var w := Window(index);
    assert index == w * WINDOW_SIZE;
    assert Window(b) == w - 1;
    SlotBefore(w);
  }

  lemma SlotBefore(w: nat)
    requires w > 0
    ensures Slot(w - 1) == (Slot(w) + WINDOWS - 1) % WINDOWS
  {
    OneBefore(w);
  }

  lemma OneBefore(w: nat)
    requires w > 0
    ensures (w - 1) % 16 == (w % 16 + 15) % 16
  {
    var q, r := w / 16, w % 16;
    if r > 0 {
      assert w - 1 == 16 * q + (r - 1);
    } else {
      assert w - 1 == 16 * (q - 1) + 15;
    }
  }

  lemma FullWindow(outstanding: set<nat>, index: nat)
    requires index % WINDOW_SIZE == 0 && index >= WINDOW_SIZE && Range(index - WINDOW_SIZE, index) <= outstanding
    ensures |InSlot(outstanding, (Slot(Window(index)) + WINDOWS - 1) % WINDOWS)| >= WINDOW_SIZE
  {
    hide Window, Slot;
    var window, slot := Range(index - WINDOW_SIZE, index), (Slot(Window(index)) + WINDOWS - 1) % WINDOWS;
    forall b | b in window ensures b in InSlot(outstanding, slot) {
      PreviousSlot(index, b);
    }
    SubsetSize(window, InSlot(outstanding, slot));
  }

  // Within a window the guard lets everything go; and a new one begins, as long as nothing older than the eight
  // windows before it is outstanding, unless the whole window before it is.
  lemma WindowBegins(outstanding: set<nat>, index: nat)
    ensures index % 4096 != 0 ==> WindowFree(outstanding, index)
    ensures index % 4096 == 0 && index > 0 && (forall a :: a in outstanding ==> a < index <= a + 8 * 4096)
      ==> (WindowFree(outstanding, index) <==> !(Range(index - 4096, index) <= outstanding))
  {
    hide Window, Slot, InSlot;
    if index % 4096 == 0 && index > 0 && forall a :: a in outstanding ==> a < index <= a + 8 * 4096 {
      var slot := Slot(Window(index));
      forall w | slot <= w < slot + FREE_WINDOWS && w < WINDOWS ensures InSlot(outstanding, w) == {} {
        NoneAhead(outstanding, index, w);
      }
      if Range(index - 4096, index) <= outstanding {
        FullWindow(outstanding, index);
      } else {
        NotFull(outstanding, index);
      }
    }
  }

  lemma NoneAhead(outstanding: set<nat>, index: nat, w: nat)
    requires index % 4096 == 0 && forall a :: a in outstanding ==> a < index <= a + 8 * 4096
    requires var slot := Slot(Window(index)); slot <= w < slot + FREE_WINDOWS && w < WINDOWS
    ensures InSlot(outstanding, w) == {}
  {
    forall a | a in outstanding ensures Slot(Window(a)) != w { EightBefore(Window(a), Window(index)); }
  }

  lemma EightBefore(v: nat, w: nat)
    requires v < w <= v + 8
    ensures w % 16 <= v % 16 ==> v % 16 - w % 16 >= 8
  {
  }

  lemma NotFull(outstanding: set<nat>, index: nat)
    requires index % 4096 == 0 && index > 0 && forall a :: a in outstanding ==> a < index <= a + 8 * 4096
    requires !(Range(index - 4096, index) <= outstanding)
    ensures |InSlot(outstanding, (Slot(Window(index)) + WINDOWS - 1) % WINDOWS)| < WINDOW_SIZE
  {
    hide Window, Slot, Range;
    var window, some := Range(index - 4096, index), InSlot(outstanding, (Slot(Window(index)) + WINDOWS - 1) % WINDOWS);
    var b :| b in window && b !in outstanding;
    forall a | a in some ensures a in window - {b} { SlotBehind(a, index); }
    SubsetSize(some, window - {b});
  }

  lemma SlotBehind(a: nat, index: nat)
    requires index % 4096 == 0 && a < index <= a + 8 * 4096
    requires Slot(Window(a)) == (Slot(Window(index)) + WINDOWS - 1) % WINDOWS
    ensures index <= a + 4096
  {
    SlotBefore(Window(index));
    OnlyBefore(Window(a), Window(index));
  }

  lemma OnlyBefore(v: nat, w: nat)
    requires v < w <= v + 8 && v % 16 == (w - 1) % 16
    ensures v == w - 1
  {
  }

  // A full window of unacknowledged messages is what the guard sees; so when it lets a new window
  // begin, some message of the window before has been acknowledged, hence received.
  lemma SomeAcknowledged(s: System, index: nat) returns (a: nat)
    requires Inv(s) && index == s.first + 1 && WindowFree(s.outstanding, index)
    requires index % WINDOW_SIZE == 0 && index > WINDOW_SIZE
    ensures 0 < a <= s.first && Window(a) + 1 == Window(index) && a !in s.outstanding
  {
    hide InSlot;
    var window := Range(index - WINDOW_SIZE, index);
    assert !(window <= s.outstanding) by {
      if window <= s.outstanding { FullWindow(s.outstanding, index); }
    }
    a :| a in window && a !in s.outstanding;
    PreviousSlot(index, a);
  }

  // So the sender's newest window is at most one further ahead than what the receiver accepts.
  lemma LeadBounded(s: System)
    requires Inv(s) && Enabled(s, Transmit)
    ensures Window(s.first + 1) <= Window(s.receiver.base) + AHEAD + 1
  {
    var index := s.first + 1;
    if index % WINDOW_SIZE == 0 {
      if index > WINDOW_SIZE {
        var a := SomeAcknowledged(s, index);
        assert Near(s.packets, s.receiver, a);
      }
    } else {
      assert Window(index) == Window(s.first);
    }
  }

  // And no two outstanding messages share a number.
  lemma SpanBounded(outstanding: set<nat>, first: nat, b: nat)
    requires WindowFree(outstanding, first + 1)
    requires b in outstanding && b <= first && Window(first) < Window(b) + WINDOWS
    ensures Window(first + 1) < Window(b) + WINDOWS
  {
    var index := first + 1;
    if index % WINDOW_SIZE == 0 {
      assert b !in InSlot(outstanding, Slot(Window(index)));
    } else {
      assert Window(index) == Window(first);
    }
  }

  lemma TransmitKeeps(s: System)
    requires Inv(s) && Enabled(s, Transmit)
    ensures Inv(Do(s, Transmit))
  {
    hide Window, WindowFree, At, Total, Has, Spanned, HeadComplete;
    var index, t := s.first + 1, Do(s, Transmit);
    LeadBounded(s);
    forall b | b in s.outstanding ensures Window(index) < Window(b) + WINDOWS {
      SpanBounded(s.outstanding, s.first, b);
    }
    forall b | b in s.receiver.buffer ensures Genuine(s.packets, index, b, s.receiver.buffer[b]) {
      assert Genuine(s.packets, s.first, b, s.receiver.buffer[b]);
    }
    assert t == s.(first := index, outstanding := s.outstanding + {index}, copies := s.copies + {index});
  }

  // A new packet changes nothing that has been numbered.
  lemma SendKeeps(s: System, p: Parcel)
    requires Inv(s) && p != []
    ensures Inv(Do(s, Send(p)))
  {
    hide Window, At, Total, HeadComplete, Faithful, Near, Spanned;
    var more := s.packets + [p];
    assert more[..|s.packets|] == s.packets;
    AtPrefix(more, |s.packets|);
    FaithfulMore(s.packets, p, s.first, s.receiver);
    forall a | Near(s.packets, s.receiver, a) ensures Near(more, s.receiver, a) {
      NearMore(s.packets, p, s.receiver, a);
    }
    SpannedMore(s.packets, p, |s.receiver.delivered|);
  }

  lemma FaithfulMore(ps: seq<Parcel>, p: Parcel, first: nat, r: Receiver)
    requires Faithful(ps, first, r) && p != []
    ensures Faithful(ps + [p], first, r) && |r.delivered| <= |ps|
  {
    var more := ps + [p];
    assert more[..|ps|] == ps;
    AtPrefix(more, |ps|);
    hide At, Total;
    forall b | b in r.buffer ensures Genuine(more, first, b, r.buffer[b]) {
      assert Genuine(ps, first, b, r.buffer[b]);
    }
  }

  lemma NearMore(ps: seq<Parcel>, p: Parcel, r: Receiver, a: nat)
    requires Near(ps, r, a)
    ensures Near(ps + [p], r, a)
  {
    var more := ps + [p];
    assert more[..|ps|] == ps;
    AtPrefix(more, |ps|);
    hide At, Total, Window;
  }

  lemma SpannedMore(ps: seq<Parcel>, p: Parcel, n: nat)
    requires Spanned(ps, n)
    ensures n <= |ps| ==> Spanned(ps + [p], n)
  {
    hide Total, Window;
    assert forall i :: 0 <= i <= |ps| ==> (ps + [p])[..i] == ps[..i];
  }

  // Outstanding numbers are never reused, so an acknowledgement settles its own message and no other.
  lemma AckSettlesOwn(s: System, a: nat)
    requires Inv(s) && Enabled(s, AckArrive(a))
    ensures Do(s, AckArrive(a)) == s.(outstanding := s.outstanding - {a})
  {
    forall b | b in s.outstanding && Number(b) == Number(a) ensures a == b {
      assert s.first < b + HALF && a <= s.first && b <= s.first;
      assert a - b < HALF && b - a < HALF;
      SameNumber(a, b);
    }
  }

  lemma SameNumber(a: nat, b: nat)
    requires Number(a) == Number(b) && a - b < HALF && b - a < HALF
    ensures a == b
  {
    assert a == a / HALF * HALF + Number(a) && b == b / HALF * HALF + Number(b);
  }

  lemma StepKeeps(s: System, step: Step)
    requires Inv(s) && Enabled(s, step)
    ensures Inv(Do(s, step))
  {
    match step
    case Send(p) => SendKeeps(s, p);
    case Transmit => TransmitKeeps(s);
    case Retransmit(a) =>
    case Arrive(a) => ArriveKeeps(s, a);
    case AckArrive(a) => AckSettlesOwn(s, a);
    case Lose(a) =>
    case LoseAck(a) =>
  }

  // --- Runs. ---

  ghost predicate Legal(s: System, steps: seq<Step>)
    requires Inv(s)
    decreases |steps|
  {
    steps == [] || (Enabled(s, steps[0]) && (StepKeeps(s, steps[0]); Legal(Do(s, steps[0]), steps[1..])))
  }

  ghost function Run(s: System, steps: seq<Step>): System
    requires Inv(s) && Legal(s, steps)
    decreases |steps|
  {
    if steps == [] then s else StepKeeps(s, steps[0]); Run(Do(s, steps[0]), steps[1..])
  }

  lemma {:induction false} RunKeeps(s: System, steps: seq<Step>)
    requires Inv(s) && Legal(s, steps)
    ensures Inv(Run(s, steps))
    decreases |steps|
  {
    if steps != [] {
      StepKeeps(s, steps[0]);
      RunKeeps(Do(s, steps[0]), steps[1..]);
    }
  }

  lemma {:induction false} RunMore(s: System, steps: seq<Step>, step: Step)
    requires Inv(s) && Legal(s, steps)
    requires (RunKeeps(s, steps); Enabled(Run(s, steps), step))
    ensures Legal(s, steps + [step])
    ensures (RunKeeps(s, steps); Run(s, steps + [step]) == Do(Run(s, steps), step))
    decreases |steps|
  {
    RunKeeps(s, steps);
    if steps == [] {
      assert ([] + [step])[1..] == [];
      StepKeeps(s, step);
    } else {
      StepKeeps(s, steps[0]);
      assert (steps + [step])[1..] == steps[1..] + [step];
      RunMore(Do(s, steps[0]), steps[1..], step);
    }
  }

  lemma StartInv()
    ensures Inv(START)
  {
  }

  // In every run what has been delivered is a prefix of what was sent.
  lemma DeliveredIsPrefix(steps: seq<Step>)
    requires (StartInv(); Legal(START, steps))
    ensures Run(START, steps).receiver.delivered <= Run(START, steps).packets
  {
    StartInv();
    RunKeeps(START, steps);
  }

  // No acknowledged command is ever lost: its message is delivered, or it waits with that for others.
  lemma AcknowledgedIsReceived(steps: seq<Step>, a: nat)
    requires (StartInv(); Legal(START, steps))
    requires var s := Run(START, steps); a in s.acks || (0 < a <= s.first && a !in s.outstanding)
    ensures var s := Run(START, steps); 0 < a <= Total(s.packets) && Has(s.packets, s.receiver, a)
  {
    StartInv();
    RunKeeps(START, steps);
    assert Near(Run(START, steps).packets, Run(START, steps).receiver, a);
  }

  // Once the sender has nothing left to send and nothing outstanding, everything has been delivered.
  lemma QuietIsComplete(steps: seq<Step>)
    requires (StartInv(); Legal(START, steps))
    requires var s := Run(START, steps); s.first == Total(s.packets) && s.outstanding == {}
    ensures Run(START, steps).receiver.delivered == Run(START, steps).packets
  {
    StartInv();
    RunKeeps(START, steps);
    hide Legal, Run;
    AllDelivered(Run(START, steps));
  }

  lemma AllDelivered(s: System)
    requires Inv(s) && s.first == Total(s.packets) && s.outstanding == {}
    ensures s.receiver.delivered == s.packets
  {
    if |s.receiver.delivered| < |s.packets| { StillOutstanding(s); }
  }

  lemma StillOutstanding(s: System)
    requires Inv(s) && s.first == Total(s.packets) && |s.receiver.delivered| < |s.packets|
    ensures s.outstanding != {}
  {
    hide HeadComplete, At, Total, Has, Spanned;
    var a := MissingNext(s.packets, s.first, s.receiver);
    assert !Near(s.packets, s.receiver, a);
    assert a in s.outstanding;
  }

  // The commands of the next message to be delivered.
  lemma NextPacket(ps: seq<Parcel>, first: nat, r: Receiver)
    requires Faithful(ps, first, r) && |r.delivered| < |ps|
    ensures var p := ps[|r.delivered|];
      && p != [] && r.base + |p| <= Total(ps)
      && forall m :: r.base < m <= r.base + |p| ==> At(ps, m).start == r.base + 1 && At(ps, m).count == |p|
  {
    assert ps[..|r.delivered|] == r.delivered;
    AtPacket(ps, |r.delivered|);
  }

  // Of a message that has not been delivered in its turn some command has not come.
  lemma MissingNext(ps: seq<Parcel>, first: nat, r: Receiver) returns (a: nat)
    requires Faithful(ps, first, r) && !HeadComplete(r) && |r.delivered| < |ps|
    ensures 0 < a <= Total(ps) && !Has(ps, r, a)
  {
    hide At, Total;
    NextPacket(ps, first, r);
    a := r.base + 1;
    if a in r.buffer {
      assert Genuine(ps, first, a, r.buffer[a]);
      var j :| 0 <= j < r.buffer[a].count && j !in r.buffer[a].parts;
      a := a + j;
    }
  }

  // A message whose numbers span more than the sender may be ahead is never delivered, nor is any after it.
  lemma LongIsStuck(steps: seq<Step>, i: nat)
    requires (StartInv(); Legal(START, steps))
    requires var ps := Run(START, steps).packets;
      i < |ps| && Window(Total(ps[..i + 1])) > Window(Total(ps[..i])) + AHEAD + 1
    ensures |Run(START, steps).receiver.delivered| <= i
  {
    StartInv();
    RunKeeps(START, steps);
    hide Window;
    assert Spanned(Run(START, steps).packets, |Run(START, steps).receiver.delivered|);
  }
}
