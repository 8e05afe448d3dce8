/** Packets too long for a datagram: cut into fragments by enet_peer_send of src/enet/peer.c and put
    together again, in whatever order they arrive, by enet_protocol_handle_send_fragment of
    src/enet/protocol.c. */
module Fragments {
  import opened Words
  import opened Numbers

  const MAXIMUM_FRAGMENT_COUNT := 1024 * 1024      // ENET_PROTOCOL_MAXIMUM_FRAGMENT_COUNT
  const MAXIMUM_PACKET_SIZE := 1024 * 1024 * 1024  // ENET_PROTOCOL_MAXIMUM_PACKET_SIZE

  datatype Fragment = Fragment(number: nat, count: nat, offset: nat, total: nat, data: seq<u8>)

  // --- Cutting. ---

  function Count(total: nat, length: nat): nat
    requires length > 0
  {
    (total + length - 1) / length
  }

  function Least(a: nat, b: nat): nat { if a < b then a else b }

  // The fragment that byte p of a message belongs to is number p / length.
  ghost predicate Cuts(fs: seq<Fragment>, message: seq<u8>, length: nat)
    requires length > 0
  {
    && |fs| == Count(|message|, length)
    && forall i {:trigger fs[i]} :: 0 <= i < |fs| ==> IsPiece(fs[i], i, message, length)
  }

  ghost predicate IsPiece(f: Fragment, i: nat, message: seq<u8>, length: nat)
    requires length > 0
  {
    && f.number == i < f.count == Count(|message|, length) && f.total == |message|
    && f.offset == i * length < |message|
    && f.data == message[i * length..Least(i * length + length, |message|)]
  }

  lemma CountBounds(total: nat, length: nat, i: nat)
    requires length > 0
    ensures i < Count(total, length) <==> i * length < total
  {
    var n := Count(total, length);
    assert n * length <= total + length - 1 < n * length + length;
    if i < n {
      assert i * length <= (n - 1) * length;
    } else {
      assert i * length >= n * length;
    }
  }

  lemma Owner(p: nat, i: nat, length: nat)
    requires length > 0
    ensures i * length <= p < i * length + length <==> p / length == i
  {
    var q := p / length;
    assert q * length <= p < q * length + length;
    if q < i {
      assert (q + 1) * length <= i * length;
    } else if q > i {
      assert (i + 1) * length <= q * length;
    }
  }

  // No gap and no overlap: every byte lies in exactly one fragment, where the message has it.
  lemma FragmentsTile(fs: seq<Fragment>, message: seq<u8>, length: nat, p: nat, i: nat)
    requires length > 0 && Cuts(fs, message, length) && p < |message| && i < |fs|
    ensures p / length < |fs|
    ensures fs[i].offset <= p < fs[i].offset + |fs[i].data| <==> i == p / length
    ensures i == p / length ==> fs[i].data[p - fs[i].offset] == message[p]
  {
    Owner(p, p / length, length);
    CountBounds(|message|, length, p / length);
    Owner(p, i, length);
    assert IsPiece(fs[i], i, message, length);
  }

  // A shorter last fragment ends exactly where the message does.
  lemma FragmentsEnd(fs: seq<Fragment>, message: seq<u8>, length: nat)
    requires length > 0 && Cuts(fs, message, length) && message != []
    ensures |fs| > 0 && fs[|fs| - 1].offset + |fs[|fs| - 1].data| == |message|
  {
    CountBounds(|message|, length, |fs|);
    CountBounds(|message|, length, 0);
    assert IsPiece(fs[|fs| - 1], |fs| - 1, message, length);
    assert |fs| * length == (|fs| - 1) * length + length;
  }

  // The fragmenting branch of enet_peer_send; `size` is the room left in a datagram by the headers.
  method Send(message: seq<u8>, size: nat) returns (ok: bool, fragments: seq<Fragment>)
    requires 0 < size < |message| <= MAXIMUM_PACKET_SIZE
    ensures ok <==> Count(|message|, size) <= 1048576
    ensures if ok then Cuts(fragments, message, size) else fragments == []
  {
    var fragmentLength := size;
    var fragmentCount := (|message| + fragmentLength - 1) / fragmentLength;
    fragments := [];
    if fragmentCount > MAXIMUM_FRAGMENT_COUNT { return false, []; }
    ok := true;
    var fragmentNumber: nat, fragmentOffset: nat := 0, 0;
    while fragmentOffset < |message|
      invariant fragmentNumber == |fragments| <= fragmentCount == Count(|message|, size)
      invariant fragmentOffset == Least(fragmentNumber * size, |message|)
      invariant 0 < fragmentLength <= size && (fragmentOffset < |message| ==> fragmentLength == size)
      invariant forall i {:trigger fragments[i]} :: 0 <= i < |fragments| ==> IsPiece(fragments[i], i, message, size)
      decreases |message| - fragmentOffset
    {
      CountBounds(|message|, size, fragmentNumber);
      assert (fragmentNumber + 1) * size == fragmentNumber * size + size;
      if |message| - fragmentOffset < fragmentLength { fragmentLength := |message| - fragmentOffset; }
      fragments := fragments + [Fragment(fragmentNumber, fragmentCount, fragmentOffset, |message|,
                                         message[fragmentOffset..fragmentOffset + fragmentLength])];
      fragmentNumber := fragmentNumber + 1;
      fragmentOffset := fragmentOffset + fragmentLength;
    }
    CountBounds(|message|, size, fragmentNumber);
  }

  // --- Putting together, on values. ---

  // A packet being reassembled: its bytes and which fragments are in.
  datatype Assembly = Assembly(data: seq<u8>, got: set<nat>, count: nat)

  function Copied(data: seq<u8>, offset: nat, piece: seq<u8>): seq<u8>
    requires offset + |piece| <= |data|
  {
    data[..offset] + piece + data[offset + |piece|..]
  }

  function Put(s: Assembly, f: Fragment): Assembly
    requires f.offset + |f.data| <= |s.data|
  {
    if f.number in s.got then s else s.(data := Copied(s.data, f.offset, f.data), got := s.got + {f.number})
  }

  ghost predicate Complete(s: Assembly) { |s.got| == s.count }

  // What arrives are fragments of the message; what is in agrees with the message.
  ghost predicate Agrees(s: Assembly, message: seq<u8>, length: nat)
    requires length > 0
  {
    && |s.data| == |message| && s.count == Count(|message|, length)
    && (forall n :: n in s.got ==> n < s.count)
    && forall p {:trigger s.data[p]} :: 0 <= p < |message| && p / length in s.got ==> s.data[p] == message[p]
  }

  lemma PieceFits(f: Fragment, i: nat, message: seq<u8>, length: nat)
    requires length > 0 && IsPiece(f, i, message, length)
    ensures f.data != [] && f.offset + |f.data| <= |message|
  {
  }

  lemma PutAgrees(s: Assembly, f: Fragment, message: seq<u8>, length: nat)
    requires length > 0 && Agrees(s, message, length) && IsPiece(f, f.number, message, length)
    ensures f.offset + |f.data| <= |s.data| && Agrees(Put(s, f), message, length)
  {
    var s' := Put(s, f);
    forall p | 0 <= p < |message| && p / length in s'.got ensures s'.data[p] == message[p] {
      Owner(p, f.number, length);
    }
  }

  lemma AllIn(got: set<nat>, count: nat)
    requires forall n :: n in got ==> n < count
    ensures |got| <= count
    ensures |got| == count <==> forall n :: 0 <= n < count ==> n in got
  {
    SubsetSize(got, Range(0, count));
    if forall n :: 0 <= n < count ==> n in got { assert Range(0, count) == got; }
  }

  // Counting down to zero means that every fragment is in, and then the message is there.
  lemma CompleteIsMessage(s: Assembly, message: seq<u8>, length: nat)
    requires length > 0 && Agrees(s, message, length)
    ensures |s.got| <= s.count
    ensures Complete(s) <==> forall n :: 0 <= n < s.count ==> n in s.got
    ensures Complete(s) ==> s.data == message
  {
    AllIn(s.got, s.count);
    if Complete(s) {
      forall p | 0 <= p < |message| ensures s.data[p] == message[p] {
        CountBounds(|message|, length, p / length);
        Owner(p, p / length, length);
      }
    }
  }

  // --- Any order, any duplicates. ---

  ghost predicate Arrivals(fs: seq<Fragment>, arrivals: seq<nat>) {
    forall k :: 0 <= k < |arrivals| ==> arrivals[k] < |fs|
  }

  ghost predicate Puttable(s: Assembly, fs: seq<Fragment>) {
    forall i :: 0 <= i < |fs| ==> fs[i].offset + |fs[i].data| <= |s.data|
  }

  // The packet and how often dispatch was tried because the last fragment came in.
  ghost function Rebuilt(s: Assembly, fs: seq<Fragment>, arrivals: seq<nat>): (Assembly, nat)
    requires Arrivals(fs, arrivals) && Puttable(s, fs)
    decreases |arrivals|
  {
    if arrivals == [] then (s, 0) else
      var s' := Put(s, fs[arrivals[0]]);
      var (t, n) := Rebuilt(s', fs, arrivals[1..]);
      (t, n + if s' != s && Complete(s') then 1 else 0)
  }

  lemma {:induction false} RebuiltIs(s: Assembly, fs: seq<Fragment>, arrivals: seq<nat>, message: seq<u8>, length: nat)
    requires length > 0 && Cuts(fs, message, length) && Arrivals(fs, arrivals)
    requires Agrees(s, message, length) && Puttable(s, fs)
    ensures var (t, n) := Rebuilt(s, fs, arrivals);
      && Agrees(t, message, length)
      && (forall a {:trigger a in t.got} :: a in t.got <==> a in s.got || a in arrivals)
      && n == if Complete(t) && !Complete(s) then 1 else 0
    decreases |arrivals|
  {
    if arrivals != [] {
      var f := fs[arrivals[0]];
      assert IsPiece(f, arrivals[0], message, length);
      PutAgrees(s, f, message, length);
      RebuiltIs(Put(s, f), fs, arrivals[1..], message, length);
      CompleteIsMessage(s, message, length);
      CompleteIsMessage(Put(s, f), message, length);
      CompleteIsMessage(Rebuilt(s, fs, arrivals).0, message, length);
      assert forall a :: a in arrivals <==> a == arrivals[0] || a in arrivals[1..];
    }
  }

  // From a fresh packet, whatever the memory held: the message is there exactly when each fragment has
  // come at least once, and dispatch was then tried exactly once for it.
  lemma AnyOrderRebuilds(fs: seq<Fragment>, arrivals: seq<nat>, message: seq<u8>, length: nat, garbage: seq<u8>)
    requires length > 0 && Cuts(fs, message, length) && Arrivals(fs, arrivals)
    requires message != [] && |garbage| == |message|
    ensures Puttable(Assembly(garbage, {}, |fs|), fs)
    ensures var (t, n) := Rebuilt(Assembly(garbage, {}, |fs|), fs, arrivals);
      && (Complete(t) <==> forall i :: 0 <= i < |fs| ==> i in arrivals)
      && (Complete(t) ==> t.data == message)
      && n == if Complete(t) then 1 else 0
  {
    var s := Assembly(garbage, {}, |fs|);
    hide Rebuilt;
    forall i | 0 <= i < |fs| ensures fs[i].offset + |fs[i].data| <= |garbage| { PieceFits(fs[i], i, message, length); }
    RebuiltIs(s, fs, arrivals, message, length);
    var (t, n) := Rebuilt(s, fs, arrivals);
    CompleteIsMessage(t, message, length);
    assert forall i :: 0 <= i < |fs| ==> (i in t.got <==> i in arrivals);
    CountBounds(|message|, length, 0);
  }

  // --- ENetIncomingCommand. ---

  predicate Bit(w: bv32, k: bv5) { w & (1 << k) != 0 }

  lemma BitSet(w: bv32, k: bv5, j: bv5)
    ensures Bit(w | (1 << k), j) <==> j == k || Bit(w, j)
  {
  }

  lemma Low(n: nat, m: nat)
    ensures (n % 32) as bv5 == (m % 32) as bv5 <==> n % 32 == m % 32
  {
    assert ((n % 32) as bv5) as int == n % 32 && ((m % 32) as bv5) as int == m % 32;
  }

  class Incoming {
    var data: array<u8>        // packet -> data
    var fragments: array<bv32>
    var fragmentCount: nat
    var fragmentsRemaining: int

    ghost predicate Valid()
      reads this, data, fragments
    {
      && (data as object) != fragments && (forall n :: n in Got() ==> n < fragmentCount)
      && 0 < fragmentCount && fragments.Length == (fragmentCount + 31) / 32
      && fragmentsRemaining == fragmentCount - |Got()|
    }

    ghost predicate Marked(n: nat)
      reads this`fragments, fragments
    {
      n / 32 < fragments.Length && Bit(fragments[n / 32], (n % 32) as bv5)
    }

    ghost function Got(): set<nat>
      reads this`fragments, this`fragmentCount, fragments
    {
      set n: nat | n < fragmentCount && Marked(n)
    }

    ghost function State(): Assembly
      reads this, data, fragments
    {
      Assembly(data[..], Got(), fragmentCount)
    }

    // enet_packet_create and the setting up of the bit mask in enet_peer_queue_incoming_command.
    constructor (totalLength: nat, count: nat)
      requires 0 < count
      ensures Valid() && fresh(data) && fresh(fragments)
      ensures data.Length == totalLength && fragmentCount == count && Got() == {}
    {
      data := new u8[totalLength];
      fragments := new bv32[(count + 31) / 32](_ => 0);
      fragmentCount, fragmentsRemaining := count, count;
      new;
      assert forall n: nat :: !Marked(n);
      assert Got() == {};
    }

    method IsMarked(number: nat) returns (known: bool)
      requires number < fragmentCount && fragments.Length == (fragmentCount + 31) / 32
      ensures known <==> number in Got()
    {
      hide Bit;
      known := Bit(fragments[number / 32], (number % 32) as bv5);
      assert known <==> Marked(number);
    }

    method Mark(number: nat)
      requires number < fragmentCount && fragments.Length == (fragmentCount + 31) / 32
      modifies fragments
      ensures Got() == old(Got()) + {number}
    {
      hide Bit;
      var w, k := number / 32, (number % 32) as bv5;
      ghost var was := fragments[w];
      fragments[w] := fragments[w] | (1 << k);
      forall n: nat ensures Marked(n) <==> n == number || old(Marked(n)) {
        if n / 32 == w {
          BitSet(was, k, (n % 32) as bv5);
          Low(n, number);
        }
      }
    }

    method Copy(offset: nat, piece: seq<u8>)
      requires offset + |piece| <= data.Length
      modifies data
      ensures data[..] == Copied(old(data[..]), offset, piece)
    {
      forall i | 0 <= i < |piece| { data[offset + i] := piece[i]; }
    }

    // The last part of enet_protocol_handle_send_fragment; `ready` asks for a dispatch.
    method Accept(f: Fragment) returns (ready: bool)
      requires Valid() && f.number < fragmentCount && f.offset + |f.data| <= data.Length
      modifies this`fragmentsRemaining, data, fragments
      ensures Valid() && State() == Put(old(State()), f)
      ensures ready <==> State().got != old(State()).got && Complete(State())
    {
      hide Got, Marked, Copied;
      ready := false;
      var known := IsMarked(f.number);
      if !known {
        fragmentsRemaining := fragmentsRemaining - 1;
        Mark(f.number);
        Copy(f.offset, f.data);
        assert f.number in Got() && |Got()| == |old(Got())| + 1;
        SubsetSize(Got(), Range(0, fragmentCount));
        ready := fragmentsRemaining <= 0;
      }
    }
  }

  // --- The rest of enet_protocol_handle_send_fragment. ---

  datatype Handled = Rejected | Taken(ready: bool)

  // What the handler demands of a fragment before it looks at the queue.
  predicate Plausible(f: Fragment) {
    && f.count <= MAXIMUM_FRAGMENT_COUNT && f.number < f.count
    && f.total <= MAXIMUM_PACKET_SIZE && f.offset < f.total && |f.data| <= f.total - f.offset
  }

  // `known` is the command with the fragment's start number found in the reorder queue, if any.
  method HandleSendFragment(known: Incoming?, f: Fragment) returns (r: Handled, command: Incoming?)
    requires known != null ==> known.Valid()
    modifies if known != null then {known, known.data, known.fragments} else {}
    ensures r == Rejected <==>
      (!Plausible(f) || (known != null && (f.total != old(known.data.Length) || f.count != old(known.fragmentCount))))
    ensures r == Rejected && known != null ==> known.State() == old(known.State())
    ensures r.Taken? ==>
      command != null && command.Valid() && if known == null then fresh(command) else command == known
    ensures r.Taken? && known != null ==> command.State() == Put(old(known.State()), f)
    ensures r.Taken? && known != null ==>
      (r.ready <==> command.State().got != old(known.State()).got && Complete(command.State()))
    ensures r.Taken? && known == null ==> (r.ready <==> Complete(command.State()))
    ensures r.Taken? && known == null ==>
      exists garbage: seq<u8> :: |garbage| == f.total && command.State() == Put(Assembly(garbage, {}, f.count), f)
  {
    command := known;
    if !Plausible(f) { return Rejected, command; }
    if command != null && (f.total != command.data.Length || f.count != command.fragmentCount) {
      return Rejected, command;
    }
    if command == null { command := new Incoming(f.total, f.count); }
    ghost var before := command.State();
    var ready := command.Accept(f);
    assert |before.data| == f.total;
    r := Taken(ready);
  }

  // Nothing that Send makes is turned away.
  lemma FragmentsPlausible(fs: seq<Fragment>, message: seq<u8>, length: nat, i: nat)
    requires length > 0 && Cuts(fs, message, length) && i < |fs|
    requires |message| <= MAXIMUM_PACKET_SIZE && Count(|message|, length) <= MAXIMUM_FRAGMENT_COUNT
    ensures Plausible(fs[i])
  {
    assert IsPiece(fs[i], i, message, length);
  }
}
