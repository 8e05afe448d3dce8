/** Reliable delivery on one channel: the receiver of src/enet/peer.c with its 16-bit sequence
    numbers, and what it does to messages counted without wrap-around. */
module ReliableOrder {
  import opened Words
  import opened Numbers

  const WINDOWS := 16          // ENET_PEER_RELIABLE_WINDOWS
  const WINDOW_SIZE := 0x1000  // ENET_PEER_RELIABLE_WINDOW_SIZE
  const FREE_WINDOWS := 8      // ENET_PEER_FREE_RELIABLE_WINDOWS

  type Message = seq<u8>

  // Command number 1 is the first of its channel; it travels as its number modulo 2^16.
  function Number(index: nat): u16 { index % HALF }
  function Window(index: nat): nat { index / WINDOW_SIZE }

  // How many windows the receiver still accepts ahead of its own.
  const AHEAD := FREE_WINDOWS - 2

  // The index that a number stands for, taken as close above the receiver's position as possible.
  function Unwrap(base: nat, number: u16): (index: nat)
    ensures base <= index < base + HALF && Number(index) == number
  {
    var round := base / HALF * HALF;
    if number >= Number(base) then round + number else round + HALF + number
  }

  lemma UnwrapNumber(base: nat, index: nat)
    requires base <= index < base + HALF
    ensures Unwrap(base, Number(index)) == index
  {
  }

  lemma UnwrapOld(base: nat, index: nat)
    requires index < base < index + HALF
    ensures Unwrap(base, Number(index)) == index + HALF
  {
    UnwrapNumber(base, index + HALF);
  }

  // The window comparison on 16-bit numbers: the sum that both window tests start from.
  function WindowSeen(incoming: u16, number: u16): nat {
    number / WINDOW_SIZE + if number < incoming then WINDOWS else 0
  }

  lemma WindowSeenIs(base: nat, number: u16)
    ensures WindowSeen(Number(base), number) - Number(base) / WINDOW_SIZE == Window(Unwrap(base, number)) - Window(base)
  {
    var round := base / HALF;
    assert base == round * HALF + Number(base);
    assert Window(base) == round * WINDOWS + Number(base) / WINDOW_SIZE;
    if number >= Number(base) {
      assert Window(round * HALF + number) == round * WINDOWS + number / WINDOW_SIZE;
    } else {
      assert Window(round * HALF + HALF + number) == round * WINDOWS + WINDOWS + number / WINDOW_SIZE;
    }
  }

  lemma WindowNear(base: nat, index: nat)
    requires Window(index) <= Window(base) + AHEAD + 1
    ensures index < base + HALF
  {
  }

  // Comparing two numbers ahead of the receiver compares what they stand for.
  lemma NumberOrder(base: nat, a: nat, b: nat)
    requires base < a < base + HALF && base < b < base + HALF
    ensures var r, x, y := Number(base), Number(a), Number(b);
      a < b <==> (if x >= r then y < r || x < y else y < r && x < y)
  {
    UnwrapNumber(base, a);
    UnwrapNumber(base, b);
  }

  // --- What the receiver is for, on unwrapped indices. ---

  // What a command carries: one of the `count` parts of a message, whose commands are numbered from `start` on.
  // A message that fits a datagram has one part, a longer one its fragments.
  datatype Piece = Piece(start: nat, count: nat, data: Message)

  // A message of which some parts have come, by their place in it.
  datatype Partial = Partial(count: nat, parts: map<nat, Message>)

  predicate Complete(q: Partial) { forall j :: 0 <= j < q.count ==> j in q.parts }

  type Parcel = seq<Message>

  function Whole(q: Partial): (p: Parcel)
    requires Complete(q)
    ensures |p| == q.count
  {
    seq(q.count, j requires 0 <= j < q.count => q.parts[j])
  }

  // The messages after the first `base` numbers that have begun to come, by the numbers they start with.
  datatype Receiver = Receiver(base: nat, buffer: map<nat, Partial>, delivered: seq<Parcel>)

  predicate HeadComplete(r: Receiver) { r.base + 1 in r.buffer && Complete(r.buffer[r.base + 1]) }

  // The next message goes to the application.
  function HandOver(r: Receiver): (t: Receiver)
    requires HeadComplete(r)
    ensures |t.buffer| < |r.buffer|
  {
    var q := r.buffer[r.base + 1];
    assert (r.buffer - {r.base + 1}).Keys == r.buffer.Keys - {r.base + 1};
    Receiver(r.base + q.count, r.buffer - {r.base + 1}, r.delivered + [Whole(q)])
  }

  // Whatever has become contiguous does.
  function Drain(r: Receiver): Receiver
    decreases |r.buffer|
  {
    if HeadComplete(r) then Drain(HandOver(r)) else r
  }

  function Begun(r: Receiver, p: Piece): Partial {
    if p.start in r.buffer then r.buffer[p.start] else Partial(p.count, map[])
  }

  predicate Accepts(r: Receiver, index: nat, p: Piece) {
    r.base < p.start <= index && Window(p.start) <= Window(r.base) + AHEAD && index - p.start !in Begun(r, p).parts
  }

  function WithPart(r: Receiver, index: nat, p: Piece): Receiver
    requires p.start <= index
  {
    var q := Begun(r, p);
    r.(buffer := r.buffer[p.start := q.(parts := q.parts[index - p.start := p.data])])
  }

  function Receive(r: Receiver, index: nat, p: Piece): Receiver {
    if Accepts(r, index, p) then Drain(WithPart(r, index, p)) else r
  }

  // The message of a piece is one that has begun to come, or is apart from all that have.
  predicate Clear(r: Receiver, p: Piece) {
    p.count > 0 && forall s {:trigger s in r.buffer} :: s in r.buffer ==>
      s + r.buffer[s].count <= p.start || p.start + p.count <= s || (s == p.start && r.buffer[s].count == p.count)
  }

  // The receiver's two tests on an arriving number.
  predicate Passes(base: nat, number: u16) {
    number != Number(base) && Window(Unwrap(base, number)) <= Window(base) + AHEAD
  }

  // A copy that the tests turn away, or that is one of the next messages in a round of the numbers.
  predicate Timely(base: nat, index: nat) { Passes(base, Number(index)) ==> base < index < base + HALF }

  // A command that seems too far ahead to have been queued is left for the sender to send again.
  predicate Acknowledges(base: nat, index: nat) {
    !(FREE_WINDOWS - 1 <= Window(Unwrap(base, Number(index))) - Window(base) <= FREE_WINDOWS)
  }

  lemma AcknowledgedNear(base: nat, index: nat)
    requires base < index && Window(index) <= Window(base) + AHEAD + 1 && Acknowledges(base, index)
    ensures Window(index) <= Window(base) + AHEAD
  {
    WindowNear(base, index);
    UnwrapNumber(base, index);
  }

  // Less than 2^16 commands away, the numbers that pass are those up to six windows ahead, and
  // those of commands ten or more windows behind, which seem to be ahead.
  lemma PassesWhere(base: nat, index: nat)
    requires index < base + 0x10000 && base < index + 0x10000
    ensures index > base ==> (Passes(base, Number(index)) <==> index / 4096 <= base / 4096 + 6)
    ensures index <= base ==> (Passes(base, Number(index)) <==> index / 4096 + 10 <= base / 4096)
  {
    if index < base { UnwrapOld(base, index); } else { UnwrapNumber(base, index); }
  }

  // And what is not acknowledged are the two windows beyond the free ones, which are also two windows behind.
  lemma AcknowledgesWhere(base: nat, index: nat)
    requires index < base + 0x10000 && base < index + 0x10000
    ensures index > base ==> (Acknowledges(base, index) <==> index / 4096 - base / 4096 !in {7, 8})
    ensures index <= base ==> (Acknowledges(base, index) <==> base / 4096 - index / 4096 !in {8, 9})
  {
    if index < base { UnwrapOld(base, index); } else { UnwrapNumber(base, index); }
  }

  // A copy of a command that has been delivered is acknowledged again.
  lemma AcknowledgedAgain()
    ensures Acknowledges(2, 1)
  {
    AcknowledgesWhere(2, 1);
  }

  // --- ENetChannel's receiving half. ---

  // ENetIncomingCommand; fragmentCount is 0 for a message of one part.
  datatype Incoming = Incoming(number: u16, fragmentCount: nat, fragmentsRemaining: int, parts: map<nat, Message>)

  function Size(c: Incoming): (n: nat)
    ensures n > 0
  {
    if c.fragmentCount > 0 then c.fragmentCount else 1
  }

  function Content(c: Incoming): Partial { Partial(Size(c), c.parts) }

  // The count of missing fragments is right.
  ghost predicate Counted(c: Incoming) {
    && (forall j :: j in c.parts ==> j < Size(c))
    && (c.fragmentCount > 0 ==> c.fragmentsRemaining == c.fragmentCount - |c.parts|)
    && (c.fragmentCount == 0 ==> c.fragmentsRemaining == 0 && 0 in c.parts)
  }

  lemma RemainingIs(c: Incoming)
    requires Counted(c)
    ensures c.fragmentsRemaining <= 0 <==> Complete(Content(c))
  {
    var all := Range(0, Size(c));
    SubsetSize(c.parts.Keys, all);
    if c.fragmentsRemaining <= 0 && c.fragmentCount > 0 { assert c.parts.Keys == all; }
    if Complete(Content(c)) { SubsetSize(all, c.parts.Keys); }
  }

  ghost predicate Spaced(cs: seq<Incoming>, ix: seq<nat>)
    requires |ix| == |cs|
  {
    forall i, j :: 0 <= i < j < |ix| ==> ix[i] + Size(cs[i]) <= ix[j]
  }

  ghost predicate Indexed(cs: seq<Incoming>, ix: seq<nat>, base: nat) {
    && |ix| == |cs| && Spaced(cs, ix)
    && forall i {:trigger ix[i]} {:trigger cs[i]} :: 0 <= i < |ix| ==>
      base < ix[i] && Window(ix[i]) <= Window(base) + AHEAD && cs[i].number == Number(ix[i]) && Counted(cs[i])
  }

  ghost function Buffered(cs: seq<Incoming>, ix: seq<nat>): map<nat, Partial>
    requires |ix| == |cs|
  {
    if |ix| == 0 then map[] else Buffered(cs[1..], ix[1..])[ix[0] := Content(cs[0])]
  }

  ghost function Parcels(cs: seq<Incoming>): seq<Parcel>
    requires forall i :: 0 <= i < |cs| ==> Complete(Content(cs[i]))
  {
    seq(|cs|, i requires 0 <= i < |cs| => Whole(Content(cs[i])))
  }

  lemma {:induction false} BufferedKeys(cs: seq<Incoming>, ix: seq<nat>)
    requires |ix| == |cs|
    ensures forall a {:trigger a in Buffered(cs, ix)} :: a in Buffered(cs, ix) <==> a in ix
  {
    if |ix| > 0 { BufferedKeys(cs[1..], ix[1..]); }
  }

  lemma BufferedTail(cs: seq<Incoming>, ix: seq<nat>)
    requires |ix| == |cs| > 0 && Spaced(cs, ix)
    ensures Spaced(cs[1..], ix[1..]) && ix[0] in Buffered(cs, ix) && Buffered(cs, ix)[ix[0]] == Content(cs[0])
    ensures Buffered(cs, ix) - {ix[0]} == Buffered(cs[1..], ix[1..])
  {
    assert forall i {:trigger ix[1..][i]} :: 0 <= i < |ix[1..]| ==> ix[1..][i] == ix[i + 1] > ix[0];
    BufferedKeys(cs[1..], ix[1..]);
    var rest := Buffered(cs[1..], ix[1..]);
    assert Buffered(cs, ix) == rest[ix[0] := Content(cs[0])] && ix[0] !in rest;
    hide Buffered;
  }

  lemma {:induction false} BufferedAt(cs: seq<Incoming>, ix: seq<nat>, i: nat)
    requires |ix| == |cs| && Spaced(cs, ix) && i < |cs|
    ensures ix[i] in Buffered(cs, ix) && Buffered(cs, ix)[ix[i]] == Content(cs[i])
    decreases i
  {
    if i > 0 {
      BufferedTail(cs, ix);
      BufferedAt(cs[1..], ix[1..], i - 1);
    }
  }

  lemma DrainOne(cs: seq<Incoming>, ix: seq<nat>, base: nat, d: seq<Parcel>)
    requires |ix| == |cs| > 0 && Spaced(cs, ix) && ix[0] == base + 1 && Complete(Content(cs[0]))
    ensures Spaced(cs[1..], ix[1..])
    ensures Drain(Receiver(base, Buffered(cs, ix), d))
      == Drain(Receiver(base + Size(cs[0]), Buffered(cs[1..], ix[1..]), d + [Whole(Content(cs[0]))]))
  {
    hide Buffered, Complete, Content, Whole, Drain, Size;
    BufferedTail(cs, ix);
    ContentSize(cs[0]);
    DrainStep(Receiver(base, Buffered(cs, ix), d));
  }

  lemma DrainStep(r: Receiver)
    requires HeadComplete(r)
    ensures Drain(r) == Drain(HandOver(r))
  {
  }

  lemma ContentSize(c: Incoming)
    ensures Content(c).count == Size(c)
  {
  }

  // Where the first k commands of a contiguous run end.
  ghost function End(cs: seq<Incoming>, base: nat, k: nat): (e: nat)
    requires k <= |cs|
    ensures e >= base + k
  {
    if k == 0 then base else End(cs, base, k - 1) + Size(cs[k - 1])
  }

  lemma {:induction false} EndTail(cs: seq<Incoming>, base: nat, k: nat)
    requires 0 < k <= |cs|
    ensures End(cs, base, k) == End(cs[1..], base + Size(cs[0]), k - 1)
    decreases k
  {
    if k > 1 { EndTail(cs, base, k - 1); }
  }

  // The first k commands are complete and follow each other from the base on.
  ghost predicate InRow(cs: seq<Incoming>, ix: seq<nat>, base: nat, k: nat) {
    && k <= |cs| == |ix|
    && forall i :: 0 <= i < k ==> ix[i] == End(cs, base, i) + 1 && Complete(Content(cs[i]))
  }

  lemma RowTail(cs: seq<Incoming>, ix: seq<nat>, base: nat, k: nat)
    requires InRow(cs, ix, base, k) && k > 0
    ensures InRow(cs[1..], ix[1..], base + Size(cs[0]), k - 1) && ix[0] == base + 1 && Complete(Content(cs[0]))
    ensures End(cs, base, k) == End(cs[1..], base + Size(cs[0]), k - 1)
  {
    hide Complete, Content, Size;
    EndTail(cs, base, k);
    forall i | 0 <= i < k - 1
      ensures ix[1..][i] == End(cs[1..], base + Size(cs[0]), i) + 1 && Complete(Content(cs[1..][i]))
    {
      assert ix[i + 1] == End(cs, base, i + 1) + 1;
      EndTail(cs, base, i + 1);
    }
    assert ix[0] == End(cs, base, 0) + 1;
  }

  // Draining takes exactly the contiguous run of complete commands at the head of the sorted queue.
  lemma {:induction false} DrainPrefix(cs: seq<Incoming>, ix: seq<nat>, base: nat, d: seq<Parcel>, k: nat)
    requires |ix| == |cs| && Spaced(cs, ix) && InRow(cs, ix, base, k)
    requires k < |ix| ==> ix[k] > End(cs, base, k) && (ix[k] > End(cs, base, k) + 1 || !Complete(Content(cs[k])))
    ensures Spaced(cs[k..], ix[k..])
    ensures Drain(Receiver(base, Buffered(cs, ix), d))
      == Receiver(End(cs, base, k), Buffered(cs[k..], ix[k..]), d + Parcels(cs[..k]))
    decreases k
  {
    hide Complete, Content, Size, Buffered, Drain, InRow, Whole, Spaced;
    RowComplete(cs, ix, base, k);
    if k == 0 {
      RowStart(cs, ix, base);
      assert cs[0..] == cs && ix[0..] == ix && d + Parcels(cs[..0]) == d;
      HeadStays(cs, ix, base, d);
    } else {
      RowTail(cs, ix, base, k);
      DrainOne(cs, ix, base, d);
      DrainPrefix(cs[1..], ix[1..], base + Size(cs[0]), d + [Whole(Content(cs[0]))], k - 1);
      assert cs[1..][k - 1..] == cs[k..] && ix[1..][k - 1..] == ix[k..];
      ParcelsFirst(cs, ix, base, d, k);
    }
  }

  lemma ParcelsFirst(cs: seq<Incoming>, ix: seq<nat>, base: nat, d: seq<Parcel>, k: nat)
    requires InRow(cs, ix, base, k) && k > 0
    ensures d + [Whole(Content(cs[0]))] + Parcels(cs[1..][..k - 1]) == d + Parcels(cs[..k])
  {
    hide Complete, Content, Size, Whole;
    var front, rest := cs[..k], cs[1..][..k - 1];
    assert forall i :: 0 <= i < |rest| ==> rest[i] == front[i + 1];
    assert Parcels(front) == [Whole(Content(cs[0]))] + Parcels(rest);
  }

  // What the loop that passes k commands has done when their run goes to the application.
  lemma RowOver(cs: seq<Incoming>, ix: seq<nat>, base: nat, done: seq<Incoming>, k: nat)
    requires Indexed(cs, ix, base) && InRow(cs, ix, base, k)
    requires forall i :: 0 <= i < |done| ==> Complete(Content(done[i]))
    requires k < |ix| ==> ix[k] > End(cs, base, k) + 1 || !Complete(Content(cs[k]))
    ensures Indexed(cs[k..], ix[k..], End(cs, base, k))
    ensures forall i :: 0 <= i < |done + cs[..k]| ==> Complete(Content((done + cs[..k])[i]))
    ensures Drain(Receiver(base, Buffered(cs, ix), Parcels(done)))
      == Receiver(End(cs, base, k), Buffered(cs[k..], ix[k..]), Parcels(done + cs[..k]))
  {
    hide Complete, Content, Size, Counted, Number, Window, Buffered, Drain, InRow, Parcels;
    if k < |ix| { Head(cs, ix, base, k); }
    RowComplete(cs, ix, base, k);
    DrainPrefix(cs, ix, base, Parcels(done), k);
    IndexedTail(cs, ix, base, k);
    ParcelsJoin(done, cs[..k]);
  }

  lemma ParcelsJoin(a: seq<Incoming>, b: seq<Incoming>)
    requires forall i :: 0 <= i < |a| ==> Complete(Content(a[i]))
    requires forall i :: 0 <= i < |b| ==> Complete(Content(b[i]))
    ensures forall i :: 0 <= i < |a + b| ==> Complete(Content((a + b)[i]))
    ensures Parcels(a + b) == Parcels(a) + Parcels(b)
  {
    hide Complete, Content, Whole;
  }

  lemma RowComplete(cs: seq<Incoming>, ix: seq<nat>, base: nat, k: nat)
    requires InRow(cs, ix, base, k)
    ensures k <= |cs| && forall i :: 0 <= i < k ==> Complete(Content(cs[..k][i]))
  {
  }

  lemma RowStart(cs: seq<Incoming>, ix: seq<nat>, base: nat)
    requires |cs| == |ix|
    ensures InRow(cs, ix, base, 0) && End(cs, base, 0) == base
  {
  }

  lemma RowMore(cs: seq<Incoming>, ix: seq<nat>, base: nat, k: nat)
    requires k < |cs| && InRow(cs, ix, base, k) && ix[k] == End(cs, base, k) + 1 && Complete(Content(cs[k]))
    ensures InRow(cs, ix, base, k + 1) && End(cs, base, k + 1) == End(cs, base, k) + Size(cs[k])
  {
    hide Complete, Content, Size;
  }

  // The head of a run is what draining looks at.
  lemma RowHead(cs: seq<Incoming>, ix: seq<nat>, base: nat, d: seq<Parcel>, k: nat)
    requires InRow(cs, ix, base, k) && Spaced(cs, ix) && k > 0
    ensures HeadComplete(Receiver(base, Buffered(cs, ix), d))
  {
    BufferedAt(cs, ix, 0);
    hide Buffered, Complete, Content;
    assert ix[0] == End(cs, base, 0) + 1;
  }

  lemma HeadStays(cs: seq<Incoming>, ix: seq<nat>, base: nat, d: seq<Parcel>)
    requires |ix| == |cs| && Spaced(cs, ix)
    requires |ix| > 0 ==> ix[0] > base && (ix[0] > base + 1 || !Complete(Content(cs[0])))
    ensures Drain(Receiver(base, Buffered(cs, ix), d)) == Receiver(base, Buffered(cs, ix), d)
  {
    BufferedKeys(cs, ix);
    if |ix| > 0 && ix[0] == base + 1 { BufferedAt(cs, ix, 0); }
    hide Buffered, Complete;
    assert forall i :: 0 < i < |ix| ==> ix[i] > ix[0];
  }

  lemma NextNumber(base: nat, index: nat)
    requires base < index < base + HALF
    ensures Number(base + 1) == (Number(base) + 1) % HALF
    ensures Number(index) == Number(base + 1) <==> index == base + 1
  {
    UnwrapNumber(base, index);
    UnwrapNumber(base, base + 1);
  }

  // Once the first `current` commands are through, the next one has the next number exactly if it is the next
  // message.
  lemma Head(cs: seq<Incoming>, ix: seq<nat>, base: nat, current: nat)
    requires Indexed(cs, ix, base) && current < |cs| && InRow(cs, ix, base, current)
    ensures var end := End(cs, base, current);
      && ix[current] > end && Number(end + 1) == (Number(end) + 1) % HALF
      && (cs[current].number == Number(end + 1) <==> ix[current] == end + 1)
  {
    hide Window, Number, Counted, InRow, End, Spaced;
    BehindRow(cs, ix, base, current);
    WindowNear(base, ix[current]);
    NextNumber(End(cs, base, current), ix[current]);
  }

  lemma BehindRow(cs: seq<Incoming>, ix: seq<nat>, base: nat, current: nat)
    requires |ix| == |cs| && Spaced(cs, ix) && current < |cs| && InRow(cs, ix, base, current) && ix[0] > base
    ensures ix[current] > End(cs, base, current)
  {
    hide Complete, Content, Size;
    if current > 0 { assert ix[current - 1] == End(cs, base, current - 1) + 1; }
  }

  // The number after a message of several parts.
  lemma LastNumber(end: nat, count: nat)
    requires count > 0
    ensures (Number(end + 1) + count - 1) % HALF == Number(end + count)
  {
  }

  lemma IndexedTail(cs: seq<Incoming>, ix: seq<nat>, base: nat, k: nat)
    requires Indexed(cs, ix, base) && InRow(cs, ix, base, k)
    ensures Indexed(cs[k..], ix[k..], End(cs, base, k))
  {
    hide Number, Complete, Counted;
    assert k > 0 ==> ix[k - 1] == End(cs, base, k - 1) + 1;
    WindowMonotone(base, End(cs, base, k));
    hide Window;
  }

  lemma WindowMonotone(a: nat, b: nat)
    requires a <= b
    ensures Window(a) <= Window(b)
  {
  }

  // The tests as the source makes them, on the numbers.
  lemma PassesIs(base: nat, number: u16)
    ensures var incoming := Number(base);
      var seen, current := WindowSeen(incoming, number), incoming / WINDOW_SIZE;
      Passes(base, number) <==> current <= seen < current + FREE_WINDOWS - 1 && number != incoming
  {
    WindowSeenIs(base, number);
  }

  // They let exactly the new messages in the free windows pass, if and only if the copy is timely.
  lemma Admitted(base: nat, index: nat)
    ensures Timely(base, index) <==>
      (Passes(base, Number(index)) <==> base < index && Window(index) <= Window(base) + AHEAD)
  {
    if base < index < base + HALF { UnwrapNumber(base, index); }
    if base < index && Window(index) <= Window(base) + AHEAD { WindowNear(base, index); }
  }

  // A copy of the first message that comes 2^16 messages late passes for another one.
  lemma StalePasses()
    ensures Passes(HALF, Number(1)) && !Timely(HALF, 1) && Unwrap(HALF, Number(1)) == HALF + 1
  {
  }

  lemma {:induction false} BufferedInsert(cs: seq<Incoming>, ix: seq<nat>, i: nat, c: Incoming, index: nat)
    requires |ix| == |cs| && i <= |cs| && index !in ix
    ensures Buffered(cs[..i] + [c] + cs[i..], ix[..i] + [index] + ix[i..]) == Buffered(cs, ix)[index := Content(c)]
    decreases i
  {
    var cs', ix' := cs[..i] + [c] + cs[i..], ix[..i] + [index] + ix[i..];
    if i == 0 {
      assert cs'[1..] == cs && ix'[1..] == ix;
    } else {
      BufferedInsert(cs[1..], ix[1..], i - 1, c, index);
      assert cs'[1..] == cs[1..][..i - 1] + [c] + cs[1..][i - 1..];
      assert ix'[1..] == ix[1..][..i - 1] + [index] + ix[1..][i - 1..];
    }
  }

  lemma {:induction false} BufferedChange(cs: seq<Incoming>, ix: seq<nat>, i: nat, c: Incoming)
    requires |ix| == |cs| && i < |cs| && Spaced(cs, ix)
    ensures Buffered(cs[i := c], ix) == Buffered(cs, ix)[ix[i] := Content(c)]
    decreases i
  {
    var cs' := cs[i := c];
    if i == 0 {
      assert cs'[1..] == cs[1..];
    } else {
      BufferedTail(cs, ix);
      BufferedChange(cs[1..], ix[1..], i - 1, c);
      assert cs'[1..] == cs[1..][i - 1 := c];
      assert ix[0] < ix[i];
    }
  }

  // A new message's place is between those it is apart from.
  lemma ClearOf(cs: seq<Incoming>, ix: seq<nat>, base: nat, d: seq<Parcel>, p: Piece, i: nat)
    requires Indexed(cs, ix, base) && Clear(Receiver(base, Buffered(cs, ix), d), p) && i < |cs|
    ensures p.start < ix[i] ==> p.start + p.count <= ix[i]
    ensures ix[i] < p.start ==> ix[i] + Size(cs[i]) <= p.start
    ensures ix[i] == p.start ==> Size(cs[i]) == p.count
  {
    BufferedAt(cs, ix, i);
    hide Buffered, Counted;
    assert ix[i] in Buffered(cs, ix);
  }

  lemma IndexedInsert(cs: seq<Incoming>, ix: seq<nat>, base: nat, i: nat, c: Incoming, index: nat)
    requires Indexed(cs, ix, base) && i <= |cs| && c.number == Number(index) && Counted(c)
    requires base < index && Window(index) <= Window(base) + AHEAD
    requires forall j :: i <= j < |ix| ==> index + Size(c) <= ix[j]
    requires forall j :: 0 <= j < i ==> ix[j] + Size(cs[j]) <= index
    ensures Indexed(cs[..i] + [c] + cs[i..], ix[..i] + [index] + ix[i..], base)
  {
    hide Counted, Number, Window, Size;
  }

  lemma IndexedChange(cs: seq<Incoming>, ix: seq<nat>, base: nat, i: nat, c: Incoming)
    requires Indexed(cs, ix, base) && i < |cs| && c.number == cs[i].number && Size(c) == Size(cs[i]) && Counted(c)
    ensures Indexed(cs[i := c], ix, base)
  {
    hide Counted, Number, Window, Size;
  }

  class Channel {
    var incomingReliable: u16
    var reliableCommands: seq<Incoming>
    var dispatched: seq<Incoming>
    ghost var base: nat
    ghost var indices: seq<nat>

    ghost predicate Linked()
      reads this
    {
      && incomingReliable == Number(base) && Indexed(reliableCommands, indices, base)
      && forall i :: 0 <= i < |dispatched| ==> Complete(Content(dispatched[i]))
    }

    ghost function State(): Receiver
      reads this
      requires Linked()
    {
      Receiver(base, Buffered(reliableCommands, indices), Parcels(dispatched))
    }

    // Nothing that could be dispatched is waiting.
    ghost predicate Drained()
      reads this
    {
      Linked() && (indices == [] || indices[0] > base + 1 || !Complete(Content(reliableCommands[0])))
    }

    // Between calls, and of every message queued some part has come.
    ghost predicate Valid()
      reads this
    {
      Drained() && forall i :: 0 <= i < |reliableCommands| ==> reliableCommands[i].parts != map[]
    }

    constructor ()
      ensures Valid() && State() == Receiver(0, map[], [])
    {
      incomingReliable, reliableCommands, dispatched := 0, [], [];
      base, indices := 0, [];
    }

    // enet_peer_dispatch_incoming_reliable_commands
    method DispatchReliable()
      requires Linked()
      modifies this
      ensures Drained() && State() == Drain(old(State()))
      ensures forall c :: c in reliableCommands ==> c in old(reliableCommands)
      ensures !HeadComplete(old(State())) ==>
        reliableCommands == old(reliableCommands) && indices == old(indices) && base == old(base)
    {
      hide Drain, Buffered, Number, Window, Complete, Content, Counted, Size, Parcels, HeadComplete, InRow, End;
      ghost var start := base;
      RowStart(reliableCommands, indices, start);
      var current := 0;
      while current < |reliableCommands|
            && reliableCommands[current].fragmentsRemaining <= 0
            && reliableCommands[current].number == (incomingReliable + 1) % HALF
        invariant current <= |reliableCommands|
        invariant reliableCommands == old(reliableCommands) && dispatched == old(dispatched) && indices == old(indices)
        invariant base == End(reliableCommands, start, current) && incomingReliable == Number(base)
        invariant InRow(reliableCommands, indices, start, current)
      {
        ghost var c := reliableCommands[current];
        Head(reliableCommands, indices, start, current);
        RemainingIs(c);
        RowMore(reliableCommands, indices, start, current);
        Pass(current);
        base := base + Size(c);
        current := current + 1;
      }
      if current < |indices| {
        Head(reliableCommands, indices, start, current);
        RemainingIs(reliableCommands[current]);
      }
      RowOver(reliableCommands, indices, start, dispatched, current);
      assert reliableCommands[0..] == reliableCommands && indices[0..] == indices;
      assert dispatched + reliableCommands[..0] == dispatched;
      if current == 0 { return; }
      RowHead(reliableCommands, indices, start, Parcels(dispatched), current);
      dispatched := dispatched + reliableCommands[..current];
      reliableCommands, indices := reliableCommands[current..], indices[current..];
    }

    // The two assignments of its loop.
    method Pass(current: nat)
      requires current < |reliableCommands| && reliableCommands[current].number == Number(base + 1)
      modifies this`incomingReliable
      ensures incomingReliable == Number(base + Size(reliableCommands[current]))
    {
      LastNumber(base, Size(reliableCommands[current]));
      hide Number;
      incomingReliable := reliableCommands[current].number;
      if reliableCommands[current].fragmentCount > 0 {
        incomingReliable := (incomingReliable + reliableCommands[current].fragmentCount - 1) % HALF;
      }
    }

    // Both handlers' tests on the number: the window of it, and whether it is the receiver's own.
    method Tests(number: u16) returns (ok: bool)
      requires Valid()
      ensures ok <==> Passes(base, number)
    {
      PassesIs(base, number);
      hide Number, Passes;
      var window := number / WINDOW_SIZE;
      var currentWindow := incomingReliable / WINDOW_SIZE;
      if number < incomingReliable { window := window + WINDOWS; }
      if window < currentWindow || window >= currentWindow + FREE_WINDOWS - 1 { return false; }
      ok := number != incomingReliable;
    }

    // enet_peer_queue_incoming_command for a reliable command that is no fragment.
    method QueueReliable(number: u16, message: Message, ghost index: nat)
      requires Valid() && number == Number(index) && Timely(base, index) && Clear(State(), Piece(index, 1, message))
      modifies this
      ensures Valid() && State() == Receive(old(State()), index, Piece(index, 1, message))
    {
      hide Drain, Buffered, Number, Window, Passes, Clear, Complete, Content, Counted, Size, Parcels, WithPart;
      ghost var p, r := Piece(index, 1, message), State();
      Admitted(base, index);
      var ok := Tests(number);
      if !ok { return; }
      var found, current := FindPlace(number, index);
      if found { Known(current - 1, p); return; }
      BufferedKeys(reliableCommands, indices);
      OnePart(r, p, number);
      Insert(Incoming(number, 0, 0, map[0 := message]), current, p);
      assert forall x :: x in reliableCommands ==> x.parts != map[];
      DispatchReliable();
    }

    lemma OnePart(r: Receiver, p: Piece, number: u16)
      requires p.count == 1 && p.start !in r.buffer
      ensures var c := Incoming(number, 0, 0, map[0 := p.data]);
        && Counted(c) && Size(c) == 1 && 0 in c.parts && 0 !in Begun(r, p).parts
        && WithPart(r, p.start, p) == r.(buffer := r.buffer[p.start := Content(c)])
    {
      assert map[][0 := p.data] == map[0 := p.data];
    }

    // A queued message of one part has come.
    lemma Known(i: nat, p: Piece)
      requires Valid() && i < |indices| && indices[i] == p.start && Clear(State(), p)
      ensures p.start in State().buffer && Begun(State(), p).parts == reliableCommands[i].parts
      ensures Size(reliableCommands[i]) == p.count
      ensures reliableCommands[i].fragmentCount != p.count ==> p.count == 1
      ensures p.count == 1 ==> 0 in reliableCommands[i].parts
    {
      BufferedAt(reliableCommands, indices, i);
      ClearOf(reliableCommands, indices, base, Parcels(dispatched), p, i);
      var c := reliableCommands[i];
      assert Counted(c) && c.parts != map[];
      var j :| j in c.parts;
    }

    method Insert(c: Incoming, current: nat, ghost p: Piece)
      requires Linked() && current <= |indices| && c.number == Number(p.start) && Counted(c) && Size(c) == p.count
      requires base < p.start && Window(p.start) <= Window(base) + AHEAD && Clear(State(), p)
      requires forall j :: current <= j < |indices| ==> indices[j] > p.start
      requires forall j :: 0 <= j < current ==> indices[j] < p.start
      modifies this`reliableCommands, this`indices
      ensures Linked()
      ensures State() == old(State()).(buffer := old(State()).buffer[p.start := Content(c)])
      ensures reliableCommands == old(reliableCommands[..current]) + [c] + old(reliableCommands[current..])
      ensures indices == old(indices[..current]) + [p.start] + old(indices[current..])
    {
      hide Buffered, Number, Window, Clear, Counted, Size, Complete;
      forall j | 0 <= j < |indices|
        ensures j >= current ==> p.start + p.count <= indices[j]
        ensures j < current ==> indices[j] + Size(reliableCommands[j]) <= p.start
      {
        ClearOf(reliableCommands, indices, base, Parcels(dispatched), p, j);
      }
      BufferedInsert(reliableCommands, indices, current, c, p.start);
      IndexedInsert(reliableCommands, indices, base, current, c, p.start);
      reliableCommands := reliableCommands[..current] + [c] + reliableCommands[current..];
      indices := indices[..current] + [p.start] + indices[current..];
    }

    // enet_protocol_handle_send_fragment, with what enet_peer_queue_incoming_command does for a first fragment.
    method QueueFragment(startNumber: u16, fragmentNumber: nat, fragmentCount: nat, data: Message, ghost start: nat)
      requires Valid() && startNumber == Number(start) && Timely(base, start) && fragmentNumber < fragmentCount
      requires Clear(State(), Piece(start, fragmentCount, data))
      modifies this
      ensures Valid()
      ensures State() == Receive(old(State()), start + fragmentNumber, Piece(start, fragmentCount, data))
    {
      hide Drain, Buffered, Number, Window, Passes, Clear, Complete, Content, Counted, Size, Parcels, WithPart;
      ghost var p, r := Piece(start, fragmentCount, data), State();
      Admitted(base, start);
      var ok := Tests(startNumber);
      if !ok { return; }
      var found, current := FindPlace(startNumber, start);
      if found {
        Known(current - 1, p);
        current := current - 1;
        if reliableCommands[current].fragmentCount != fragmentCount { return; }
      } else {
        BufferedKeys(reliableCommands, indices);
        NoParts(r, p, startNumber, fragmentNumber);
        QueueFirst(startNumber, fragmentCount, current, p);
      }
      AddFragment(current, fragmentNumber, data, p);
    }

    // A message is queued before its first fragment is counted.
    method QueueFirst(startNumber: u16, fragmentCount: nat, current: nat, ghost p: Piece)
      requires Drained() && startNumber == Number(p.start) && fragmentCount == p.count > 0 && p.start !in State().buffer
      requires base < p.start && Window(p.start) <= Window(base) + AHEAD && Clear(State(), p)
      requires current <= |indices| && forall j :: current <= j < |indices| ==> indices[j] > p.start
      requires forall j :: 0 <= j < current ==> indices[j] < p.start
      modifies this
      ensures var c := Incoming(startNumber, fragmentCount, fragmentCount, map[]);
        && Drained() && base == old(base)
        && State() == old(State()).(buffer := old(State()).buffer[p.start := Content(c)])
        && reliableCommands == old(reliableCommands[..current]) + [c] + old(reliableCommands[current..])
        && indices == old(indices[..current]) + [p.start] + old(indices[current..])
    {
      hide Drain, Buffered, Number, Window, Clear, Complete, Content, Counted, Size, Parcels, HeadComplete;
      NotHead();
      NoParts(State(), p, startNumber, 0);
      Insert(Incoming(startNumber, fragmentCount, fragmentCount, map[]), current, p);
      DispatchReliable();
    }

    lemma NotHead()
      requires Drained()
      ensures !HeadComplete(State())
    {
      BufferedKeys(reliableCommands, indices);
      if indices != [] { BufferedAt(reliableCommands, indices, 0); }
      hide Buffered, Complete, Content;
      assert forall i :: 0 < i < |indices| ==> indices[0] < indices[i];
    }

    // A message without parts does not make the head complete.
    lemma NoParts(r: Receiver, p: Piece, number: u16, n: nat)
      requires p.count > 0 && p.start !in r.buffer
      ensures var c := Incoming(number, p.count, p.count, map[]);
        var t := r.(buffer := r.buffer[p.start := Content(c)]);
        && Counted(c) && Size(c) == p.count && (!HeadComplete(r) ==> !HeadComplete(t) && Drain(t) == t)
        && n !in Begun(r, p).parts && WithPart(t, p.start + n, p) == WithPart(r, p.start + n, p)
    {
      var q := Partial(p.count, map[]);
      assert 0 !in q.parts && !Complete(q);
      assert r.buffer[p.start := q][p.start := q.(parts := q.parts[n := p.data])]
        == r.buffer[p.start := q.(parts := q.parts[n := p.data])];
    }

    // The part of it that notes a fragment not seen before.
    method AddFragment(i: nat, fragmentNumber: nat, data: Message, ghost p: Piece)
      requires Drained() && i < |indices| && indices[i] == p.start && data == p.data
      requires fragmentNumber < reliableCommands[i].fragmentCount == p.count
      requires forall j :: 0 <= j < |reliableCommands| && j != i ==> reliableCommands[j].parts != map[]
      modifies this
      ensures Valid()
      ensures State() ==
        if fragmentNumber in old(reliableCommands)[i].parts then old(State())
        else Drain(WithPart(old(State()), p.start + fragmentNumber, p))
    {
      hide Drain, Buffered, Number, Window, Complete, Size, Parcels;
      BufferedAt(reliableCommands, indices, i);
      if fragmentNumber in reliableCommands[i].parts { return; }
      var c := reliableCommands[i];
      c := c.(fragmentsRemaining := c.fragmentsRemaining - 1, parts := c.parts[fragmentNumber := data]);
      OneMore(reliableCommands[i], c, fragmentNumber, data);
      BufferedChange(reliableCommands, indices, i, c);
      IndexedChange(reliableCommands, indices, base, i, c);
      reliableCommands := reliableCommands[i := c];
      assert forall x :: x in reliableCommands ==> x.parts != map[];
      if c.fragmentsRemaining <= 0 {
        DispatchReliable();
      } else {
        RemainingIs(c);
        HeadStays(reliableCommands, indices, base, Parcels(dispatched));
      }
    }

    lemma OneMore(c: Incoming, d: Incoming, n: nat, data: Message)
      requires Counted(c) && n !in c.parts && n < c.fragmentCount
      requires d == c.(fragmentsRemaining := c.fragmentsRemaining - 1, parts := c.parts[n := data])
      ensures Counted(d) && Size(d) == Size(c) && n in d.parts
    {
      assert d.parts.Keys == c.parts.Keys + {n};
    }

    // Its loop: from the tail of the queue to the place of the number, comparing 16-bit numbers
    // on either side of the wrap.
    method FindPlace(number: u16, ghost index: nat) returns (found: bool, current: nat)
      requires Linked() && number == Number(index) && base < index && Window(index) <= Window(base) + AHEAD
      ensures found ==> 0 < current <= |indices| && indices[current - 1] == index
      ensures !found ==>
        && current <= |indices| && (forall j :: current <= j < |indices| ==> indices[j] > index)
        && forall j :: 0 <= j < current ==> indices[j] < index
    {
      hide Number, Window;
      WindowNear(base, index);
      found, current := false, |reliableCommands|;
      while current > 0
        invariant current <= |indices| && forall j :: current <= j < |indices| ==> indices[j] > index
      {
        var queued := reliableCommands[current - 1].number;
        WindowNear(base, indices[current - 1]);
        NumberOrder(base, index, indices[current - 1]);
        NumberOrder(base, indices[current - 1], index);
        if number >= incomingReliable {
          if queued < incomingReliable { current := current - 1; continue; }
        } else if queued >= incomingReliable { break; }
        if queued <= number {
          if queued < number { break; }
          found := true;
          return;
        }
        current := current - 1;
      }
    }

    // enet_peer_queue_acknowledgement, asked after the command has been handled.
    method QueueAcknowledgement(number: u16, ghost index: nat) returns (queued: bool)
      requires Valid() && number == Number(index)
      ensures queued == Acknowledges(base, index)
    {
      WindowSeenIs(base, number);
      var reliableWindow := number / WINDOW_SIZE;
      var currentWindow := incomingReliable / WINDOW_SIZE;
      if number < incomingReliable { reliableWindow := reliableWindow + WINDOWS; }
      queued := !(currentWindow + FREE_WINDOWS - 1 <= reliableWindow <= currentWindow + FREE_WINDOWS);
    }
  }
}
