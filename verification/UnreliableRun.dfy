/** Unreliable commands from their arrival to their delivery: the part of enet_peer_queue_incoming_command
    of src/enet/peer.c that sorts them into the channel's queue, around the pass of UnreliableDispatch.
    Sequenced ones reach the application in order in every run in which 16-bit numbers can tell them apart
    and no packet's command is freed before its first fragment is counted. */
module UnreliableRun {
  import opened Words
  import opened ReliableOrder
  import opened LinkedList
  import opened UnreliableDispatch

  // A command delivered while `base` reliable messages were through.
  datatype Sent = Sent(base: nat, command: Command)

  // A channel as far as unreliable commands go: its reliable position is kept unwrapped.
  datatype State = State(queue: seq<Command>, base: nat, last: u16, sent: seq<Sent>)

  const START := State([], 0, 0, [])

  // The window test on an arriving number.
  predicate InWindow(base: nat, number: u16) { Window(Unwrap(base, number)) <= Window(base) + AHEAD }

  // The order of the queue, and of delivery: by reliable position, then by unreliable number.
  predicate Precedes(base: nat, a: Command, b: Command) {
    var x, y := Unwrap(base, a.reliable), Unwrap(base, b.reliable);
    x < y || (x == y && a.unreliable < b.unreliable)
  }

  predicate Same(a: Command, b: Command) { a.reliable == b.reliable && a.unreliable == b.unreliable }

  // Where the search from the tail stops.
  function Place(q: seq<Command>, base: nat, c: Command): (i: nat)
    ensures i <= |q|
  {
    if q == [] then 0 else if Precedes(base, c, q[|q| - 1]) then Place(q[..|q| - 1], base, c) else |q|
  }

  function Tagged(base: nat, cs: seq<Command>): (r: seq<Sent>)
    ensures |r| == |cs|
  {
    seq(|cs|, i requires 0 <= i < |cs| => Sent(base, cs[i]))
  }

  // The pass.
  function Dispatch(s: State): State {
    var current := Number(s.base);
    var ahead := s.queue[..Front(s.queue, current)];
    State(Survivors(ahead, current) + s.queue[Front(s.queue, current)..], s.base,
          LastDelivered(ahead, current, s.last), s.sent + Tagged(s.base, Delivered(ahead, current)))
  }

  predicate TurnedAway(s: State, c: Command) {
    && !c.unsequenced
    && (!InWindow(s.base, c.reliable)
        || (c.reliable == Number(s.base) && c.unreliable <= s.last)
        || exists i :: 0 <= i < |s.queue| && Same(s.queue[i], c))
  }

  // A command arrives. Unsequenced ones go to the head of the queue.
  function Arrive(s: State, c: Command): State {
    if TurnedAway(s, c) then s
    else
      var i := if c.unsequenced then 0 else Place(s.queue, s.base, c);
      Dispatch(s.(queue := s.queue[..i] + [c] + s.queue[i..]))
  }

  // A missing fragment of a queued command arrives; the last one has the queue passed over.
  function Fragment(s: State, i: nat): State
    requires i < |s.queue| && s.queue[i].fragmentsRemaining > 0
  {
    var c := s.queue[i].(fragmentsRemaining := s.queue[i].fragmentsRemaining - 1);
    var t := s.(queue := s.queue[i := c]);
    if c.fragmentsRemaining <= 0 then Dispatch(t) else t
  }

  // Where a command stands in the queue.
  function Where(q: seq<Command>, c: Command): (i: nat)
    ensures i <= |q| && (i < |q| ==> q[i] == c) && (i == |q| ==> c !in q)
  {
    if q == [] then 0 else if q[0] == c then 0 else 1 + Where(q[1..], c)
  }

  // The first fragment of a packet arrives: its command is queued, and then, if it is not complete, counts the
  // fragment. It does so through a pointer to the command, which the pass must not have freed.
  function First(s: State, c: Command): State
    requires c.fragmentsRemaining > 0
  {
    if TurnedAway(s, c) then s
    else
      var t := Arrive(s, c);
      var i := Where(t.queue, c);
      if i < |t.queue| then Fragment(t, i) else t
  }

  // At most one queued command of its position stands behind it.
  predicate Lasts(s: State, c: Command) {
    c.reliable == Number(s.base) ==> Place(s.queue, s.base, c) + 1 >= Front(s.queue, Number(s.base))
  }

  // Reliable messages have been delivered, k of them.
  function Advance(s: State, k: nat): State { Dispatch(s.(base := s.base + k, last := 0)) }

  // --- What every step keeps. ---

  ghost predicate Live(q: seq<Command>, base: nat) {
    && (forall i :: 0 <= i < |q| ==> !q[i].unsequenced && InWindow(base, q[i].reliable))
    && forall i, j :: 0 <= i < j < |q| ==> Precedes(base, q[i], q[j])
  }

  // Delivered in order.
  ghost predicate InOrder(sent: seq<Sent>, base: nat) {
    && (forall i :: 0 <= i < |sent| ==> sent[i].base <= base)
    && (forall i :: 0 <= i < |sent| && !sent[i].command.unsequenced ==>
      sent[i].command.reliable == Number(sent[i].base))
    && forall i, j :: 0 <= i < j < |sent| && !sent[i].command.unsequenced && !sent[j].command.unsequenced ==>
         sent[i].base < sent[j].base
         || (sent[i].base == sent[j].base && sent[i].command.unreliable < sent[j].command.unreliable)
  }

  // Nothing sequenced that was delivered at this position has a number above u.
  ghost predicate Below(sent: seq<Sent>, base: nat, u: int) {
    forall i :: 0 <= i < |sent| && !sent[i].command.unsequenced && sent[i].base == base ==>
      sent[i].command.unreliable <= u
  }

  ghost predicate Ahead(sent: seq<Sent>, base: nat, q: seq<Command>, k: nat) {
    forall j :: k <= j < |q| && q[j].reliable == Number(base) ==> Below(sent, base, q[j].unreliable - 1)
  }

  ghost predicate Inv(s: State) {
    Live(s.queue, s.base) && InOrder(s.sent, s.base) && Below(s.sent, s.base, s.last)
      && Ahead(s.sent, s.base, s.queue, 0)
  }

  lemma FutureIs(base: nat, c: Command)
    ensures Future(c, Number(base)) <==> !c.unsequenced && c.reliable != Number(base) && InWindow(base, c.reliable)
  {
    WindowSeenIs(base, c.reliable);
  }

  // The first h commands of a queue are unsequenced or stale, the rest are live.
  ghost predicate Mixed(s: State, h: nat) {
    && h <= |s.queue| && Live(s.queue[h..], s.base)
    && (forall i :: 0 <= i < h ==> s.queue[i].unsequenced || Stale(s.queue[i], Number(s.base)))
    && InOrder(s.sent, s.base) && Below(s.sent, s.base, s.last) && Ahead(s.sent, s.base, s.queue, h)
  }

  ghost predicate Delivering(s: State, h: nat, k: nat, sent: seq<Sent>, last: u16) {
    InOrder(sent, s.base) && Below(sent, s.base, last) && Ahead(sent, s.base, s.queue, if h <= k then k else h)
  }

  lemma DeliverReady(s: State, h: nat, k: nat, sent: seq<Sent>, last: u16)
    requires Mixed(s, h) && k < |s.queue| && Ready(s.queue[k], Number(s.base)) && Delivering(s, h, k, sent, last)
    ensures var c := s.queue[k];
      Delivering(s, h, k + 1, sent + [Sent(s.base, c)], if c.unsequenced then last else c.unreliable)
  {
    var c, q := s.queue[k], s.queue;
    if !c.unsequenced {
      assert k >= h && Below(sent, s.base, c.unreliable - 1);
      forall j | k < j < |q| && q[j].reliable == Number(s.base)
        ensures Below(sent + [Sent(s.base, c)], s.base, q[j].unreliable - 1)
      {
        assert Precedes(s.base, s.queue[h..][k - h], s.queue[h..][j - h]);
      }
    }
  }

  lemma DeliverNot(s: State, h: nat, k: nat, sent: seq<Sent>, last: u16)
    requires Delivering(s, h, k, sent, last)
    ensures Delivering(s, h, k + 1, sent, last)
  {
    hide Below;
  }

  lemma DeliverNone(s: State, h: nat)
    requires Mixed(s, h)
    ensures Delivering(s, h, 0, s.sent, s.last)
  {
  }

  lemma {:induction false} DeliverUpto(s: State, h: nat, k: nat)
    requires Mixed(s, h) && k <= |s.queue|
    ensures var ahead := s.queue[..k];
      Delivering(s, h, k, s.sent + Tagged(s.base, Delivered(ahead, Number(s.base))),
        LastDelivered(ahead, Number(s.base), s.last))
    decreases k
  {
    hide Delivering, Mixed;
    var current := Number(s.base);
    if k == 0 {
      DeliverNone(s, h);
      assert s.sent + Tagged(s.base, []) == s.sent;
    } else {
      DeliverUpto(s, h, k - 1);
      var front, c := s.queue[..k - 1], s.queue[k - 1];
      assert s.queue[..k][..k - 1] == front;
      var sent := s.sent + Tagged(s.base, Delivered(front, current));
      if Ready(c, current) {
        DeliverReady(s, h, k - 1, sent, LastDelivered(front, current, s.last));
        assert s.sent + Tagged(s.base, Delivered(front, current) + [c]) == sent + [Sent(s.base, c)];
      } else {
        DeliverNot(s, h, k - 1, sent, LastDelivered(front, current, s.last));
        assert Delivered(s.queue[..k], current) == Delivered(front, current);
      }
    }
  }

  // The survivors are the tail of what was passed, and were not delivered.
  lemma SurvivorsTail(cs: seq<Command>, current: u16, old': u16)
    ensures var m := |cs| - |Survivors(cs, current)|;
      && 0 <= m && Survivors(cs, current) == cs[m..] && (forall i :: m <= i < |cs| ==> Waiting(cs[i], current))
      && Delivered(cs[..m], current) == Delivered(cs, current)
      && LastDelivered(cs[..m], current, old') == LastDelivered(cs, current, old')
  {
    hide *;
    SurvivorsLast(cs, current);
    WaitingCut(cs, current, old', |Survivors(cs, current)|);
  }

  // Incomplete ones at the end change nothing that is delivered.
  lemma {:induction false} WaitingCut(cs: seq<Command>, current: u16, old': u16, k: nat)
    requires k <= |cs| && forall i :: |cs| - k <= i < |cs| ==> Waiting(cs[i], current)
    ensures Delivered(cs[..|cs| - k], current) == Delivered(cs, current)
    ensures LastDelivered(cs[..|cs| - k], current, old') == LastDelivered(cs, current, old')
    decreases k
  {
    hide *;
    var n := |cs|;
    if k == 0 {
      assert cs[..n] == cs;
    } else {
      WaitingLast(cs, current, old');
      WaitingCut(cs[..n - 1], current, old', k - 1);
      assert cs[..n - 1][..n - k] == cs[..n - k];
    }
  }

  lemma WaitingLast(cs: seq<Command>, current: u16, old': u16)
    requires cs != [] && Waiting(cs[|cs| - 1], current)
    ensures Delivered(cs[..|cs| - 1], current) == Delivered(cs, current)
    ensures LastDelivered(cs[..|cs| - 1], current, old') == LastDelivered(cs, current, old')
  {
  }

  lemma Cutting(q: seq<Command>, m: nat, n: nat)
    requires m <= n <= |q|
    ensures q[..n][..m] == q[..m] && q[m..] == q[..n][m..] + q[n..]
  {
  }

  lemma FrontTail(q: seq<Command>, current: u16, old': u16)
    ensures var n := Front(q, current); var m := n - |Survivors(q[..n], current)|;
      && 0 <= m && Survivors(q[..n], current) + q[n..] == q[m..] && (forall i :: m <= i < n ==> Waiting(q[i], current))
      && Delivered(q[..n], current) == Delivered(q[..m], current)
      && LastDelivered(q[..n], current, old') == LastDelivered(q[..m], current, old')
  {
    hide *;
    var n := Front(q, current);
    SurvivorsTail(q[..n], current, old');
    Cutting(q, n - |Survivors(q[..n], current)|, n);
    assert forall i :: 0 <= i < n ==> q[..n][i] == q[i];
  }

  // The pass takes the first m commands off the queue.
  lemma PassTakes(s: State, h: nat) returns (m: nat)
    requires h <= |s.queue| && forall i :: 0 <= i < h ==> s.queue[i].unsequenced || Stale(s.queue[i], Number(s.base))
    ensures h <= m <= |s.queue|
    ensures var t, front, current := Dispatch(s), s.queue[..m], Number(s.base);
      && t.queue == s.queue[m..] && t.base == s.base && t.sent == s.sent + Tagged(s.base, Delivered(front, current))
      && t.last == LastDelivered(front, current, s.last)
  {
    var q, current := s.queue, Number(s.base);
    FrontTail(q, current, s.last);
    hide Survivors, Delivered, LastDelivered, Front, Number, Waiting, Ready;
    var n := Front(q, current);
    m := n - |Survivors(q[..n], current)|;
    FrontPast(q, current, h);
    NotBefore(q, current, h, m, n);
  }

  lemma FrontPast(q: seq<Command>, current: u16, h: nat)
    requires h <= |q| && forall i :: 0 <= i < h ==> q[i].unsequenced || Stale(q[i], current)
    ensures Front(q, current) >= h
  {
  }

  lemma NotBefore(q: seq<Command>, current: u16, h: nat, m: nat, n: nat)
    requires h <= n <= |q| && m <= n && forall i :: m <= i < n ==> Waiting(q[i], current)
    requires forall i :: 0 <= i < h ==> q[i].unsequenced || Stale(q[i], current)
    ensures h <= m
  {
    if m < n {
      var c := q[m];
      assert Waiting(c, current);
    }
  }

  lemma LiveTail(q: seq<Command>, base: nat, h: nat, m: nat)
    requires h <= m <= |q| && Live(q[h..], base)
    ensures Live(q[m..], base)
  {
    assert q[m..] == q[h..][m - h..];
  }

  lemma AheadTail(sent: seq<Sent>, base: nat, q: seq<Command>, m: nat)
    requires m <= |q| && Ahead(sent, base, q, m)
    ensures Ahead(sent, base, q[m..], 0)
  {
    hide Below;
  }

  lemma PassKeeps(s: State, h: nat)
    requires Mixed(s, h)
    ensures Inv(Dispatch(s))
  {
    var m := PassTakes(s, h);
    DeliverUpto(s, h, m);
    LiveTail(s.queue, s.base, h, m);
    hide Dispatch, Live, InOrder, Below, Delivered, LastDelivered, Ahead;
    AheadTail(Dispatch(s).sent, s.base, s.queue, m);
  }

  // --- The steps. ---

  lemma UnwrapSame(base: nat, a: u16, b: u16)
    ensures Unwrap(base, a) == Unwrap(base, b) <==> a == b
  {
  }

  lemma {:induction false} PlaceIs(q: seq<Command>, base: nat, c: Command)
    requires Live(q, base) && forall i :: 0 <= i < |q| ==> !Same(q[i], c)
    ensures forall i :: 0 <= i < Place(q, base, c) ==> Precedes(base, q[i], c)
    ensures forall i :: Place(q, base, c) <= i < |q| ==> Precedes(base, c, q[i])
  {
    if q != [] {
      var n := |q| - 1;
      UnwrapSame(base, c.reliable, q[n].reliable);
      if Precedes(base, c, q[n]) {
        PlaceIs(q[..n], base, c);
      } else {
        assert Precedes(base, q[n], c);
        forall i | 0 <= i < n ensures Precedes(base, q[i], c) { assert Precedes(base, q[i], q[n]); }
      }
    }
  }

  // The queue that the pass after an arrival is over.
  lemma MixedArrival(s: State, c: Command)
    requires Inv(s) && !TurnedAway(s, c)
    ensures var i := if c.unsequenced then 0 else Place(s.queue, s.base, c);
      var t := s.(queue := s.queue[..i] + [c] + s.queue[i..]);
      Mixed(t, if c.unsequenced then 1 else 0) && Arrive(s, c) == Dispatch(t)
  {
    hide InOrder, Dispatch;
    if c.unsequenced {
      var t := s.(queue := s.queue[..0] + [c] + s.queue[0..]);
      assert t.queue[1..] == s.queue;
    } else {
      PlaceIs(s.queue, s.base, c);
      var i := Place(s.queue, s.base, c);
      var t := s.(queue := s.queue[..i] + [c] + s.queue[i..]);
      InsertLive(s.queue, s.base, c, i);
      InsertAhead(s.sent, s.base, s.queue, c, i);
      assert t.queue[0..] == t.queue;
    }
  }

  lemma ArrivalMixed(s: State, c: Command) returns (h: nat, t: State)
    requires Inv(s) && !TurnedAway(s, c)
    ensures h <= |t.queue| && Mixed(t, h) && Arrive(s, c) == Dispatch(t) && t.base == s.base && t.sent == s.sent
    ensures forall x :: x in t.queue[h..] ==> x in s.queue || (x == c && !c.unsequenced)
  {
    MixedArrival(s, c);
    hide Mixed, Arrive, Place, Inv, TurnedAway;
    var i := if c.unsequenced then 0 else Place(s.queue, s.base, c);
    h, t := if c.unsequenced then 1 else 0, s.(queue := s.queue[..i] + [c] + s.queue[i..]);
    if c.unsequenced { assert t.queue[1..] == s.queue; }
  }

  lemma InsertAhead(sent: seq<Sent>, base: nat, q: seq<Command>, c: Command, i: nat)
    requires Ahead(sent, base, q, 0) && i <= |q|
    requires c.reliable == Number(base) ==> Below(sent, base, c.unreliable - 1)
    ensures Ahead(sent, base, q[..i] + [c] + q[i..], 0)
  {
    hide Below;
    var r := q[..i] + [c] + q[i..];
    forall j | 0 <= j < |r| && r[j].reliable == Number(base) ensures Below(sent, base, r[j].unreliable - 1) {
      if j != i { assert r[j] == q[if j < i then j else j - 1]; }
    }
  }

  lemma ArriveKeeps(s: State, c: Command)
    requires Inv(s)
    ensures Inv(Arrive(s, c))
  {
    if !TurnedAway(s, c) {
      var h, t := ArrivalMixed(s, c);
      PassKeeps(t, h);
    }
  }

  lemma InsertLive(q: seq<Command>, base: nat, c: Command, i: nat)
    requires Live(q, base) && i <= |q| && !c.unsequenced && InWindow(base, c.reliable)
    requires forall j :: 0 <= j < i ==> Precedes(base, q[j], c)
    requires forall j :: i <= j < |q| ==> Precedes(base, c, q[j])
    ensures Live(q[..i] + [c] + q[i..], base)
  {
  }

  lemma FragmentMixed(s: State, i: nat) returns (t: State)
    requires Inv(s) && i < |s.queue| && s.queue[i].fragmentsRemaining > 0
    ensures t == s.(queue := s.queue[i := s.queue[i].(fragmentsRemaining := s.queue[i].fragmentsRemaining - 1)])
    ensures Inv(t) && Mixed(t, 0) && Fragment(s, i) == if t.queue[i].fragmentsRemaining <= 0 then Dispatch(t) else t
  {
    t := s.(queue := s.queue[i := s.queue[i].(fragmentsRemaining := s.queue[i].fragmentsRemaining - 1)]);
    assert forall j :: 0 <= j < |s.queue| ==>
      Same(t.queue[j], s.queue[j]) && t.queue[j].unsequenced == s.queue[j].unsequenced;
    assert t.queue[0..] == t.queue;
  }

  lemma FragmentKeeps(s: State, i: nat)
    requires Inv(s) && i < |s.queue| && s.queue[i].fragmentsRemaining > 0
    ensures Inv(Fragment(s, i))
  {
    var t := FragmentMixed(s, i);
    PassKeeps(t, 0);
  }

  // Which commands an advance leaves behind.
  lemma {:induction false} Behind(q: seq<Command>, base: nat, b: nat) returns (h: nat)
    requires Live(q, base)
    ensures h <= |q| && (forall i :: 0 <= i < h ==> Unwrap(base, q[i].reliable) < b)
    ensures forall i :: h <= i < |q| ==> Unwrap(base, q[i].reliable) >= b
  {
    if q == [] {
      h := 0;
    } else if Unwrap(base, q[|q| - 1].reliable) >= b {
      h := Behind(q[..|q| - 1], base, b);
    } else {
      h := |q|;
      forall i | 0 <= i < |q| - 1 ensures Unwrap(base, q[i].reliable) < b { assert Precedes(base, q[i], q[|q| - 1]); }
    }
  }

  lemma Rebased(base: nat, b: nat, number: u16)
    requires base <= b && Window(b) <= Window(base) + AHEAD + 1 && InWindow(base, number)
    ensures if Unwrap(base, number) >= b then Unwrap(b, number) == Unwrap(base, number) && InWindow(b, number)
      else !InWindow(b, number) && number != Number(b)
  {
    var a := Unwrap(base, number);
    if a >= b {
      UnwrapNumber(b, a);
    } else {
      UnwrapOld(b, a);
    }
  }

  lemma AdvanceMixed(s: State, k: nat) returns (h: nat)
    requires Inv(s) && k > 0 && Window(s.base + k) <= Window(s.base) + AHEAD + 1
    ensures h <= |s.queue| && Mixed(s.(base := s.base + k, last := 0), h)
    ensures forall i :: h <= i < |s.queue| ==>
      Unwrap(s.base + k, s.queue[i].reliable) == Unwrap(s.base, s.queue[i].reliable)
  {
    hide Live, InOrder, Below, Ahead, Stale, Dispatch, Window;
    var b := s.base + k;
    h := Behind(s.queue, s.base, b);
    LeftBehind(s.queue, s.base, b, h);
    StillInOrder(s.sent, s.base, b, s.queue, h);
  }

  lemma AdvanceKeeps(s: State, k: nat)
    requires Inv(s) && k > 0 && Window(s.base + k) <= Window(s.base) + AHEAD + 1
    ensures Inv(Advance(s, k))
  {
    hide Inv, Mixed, Dispatch, Window;
    var h := AdvanceMixed(s, k);
    PassKeeps(s.(base := s.base + k, last := 0), h);
  }

  // At the new position those are stale, and the others are live.
  lemma LeftBehind(q: seq<Command>, base: nat, b: nat, h: nat)
    requires Live(q, base) && base <= b && Window(b) <= Window(base) + AHEAD + 1 && h <= |q|
    requires forall i :: 0 <= i < h ==> Unwrap(base, q[i].reliable) < b
    requires forall i :: h <= i < |q| ==> Unwrap(base, q[i].reliable) >= b
    ensures forall i :: 0 <= i < h ==> Stale(q[i], Number(b))
    ensures forall i :: h <= i < |q| ==> Unwrap(b, q[i].reliable) == Unwrap(base, q[i].reliable)
    ensures Live(q[h..], b)
  {
    forall i | 0 <= i < |q|
      ensures i < h ==> Stale(q[i], Number(b))
      ensures i >= h ==> Unwrap(b, q[i].reliable) == Unwrap(base, q[i].reliable) && InWindow(b, q[i].reliable)
    {
      Rebased(base, b, q[i].reliable);
      FutureIs(b, q[i]);
    }
    hide Unwrap, InWindow, Stale;
    forall i, j | 0 <= i < j < |q[h..]| ensures Precedes(b, q[h..][i], q[h..][j]) {
      assert Precedes(base, q[h + i], q[h + j]);
    }
  }

  lemma StillInOrder(sent: seq<Sent>, base: nat, b: nat, q: seq<Command>, h: nat)
    requires InOrder(sent, base) && base < b
    ensures InOrder(sent, b) && Below(sent, b, 0) && Ahead(sent, b, q, h)
  {
  }

  // --- Whether a command is still there when its first fragment is counted. ---

  // Ahead of the first future command there is nothing but incomplete ones, two at most.
  ghost predicate Stable(s: State) {
    var current := Number(s.base);
    var n := Front(s.queue, current);
    n <= 2 && forall i :: 0 <= i < n ==> Waiting(s.queue[i], current)
  }

  lemma DispatchStable(s: State)
    ensures Stable(Dispatch(s))
  {
    hide Waiting, Delivered, LastDelivered, Future;
    var current := Number(s.base);
    var n := Front(s.queue, current);
    PassIsIdempotent(s.queue, current);
    StayStable(s.queue[..n], current);
  }

  // Those are the states that a pass leaves as they are.
  lemma StableIs(s: State)
    ensures Stable(s) <==> Dispatch(s) == s
  {
    DispatchStable(s);
    if Stable(s) { NothingToDo(s); }
  }

  lemma NothingToDo(s: State)
    requires Stable(s)
    ensures Dispatch(s) == s
  {
    hide Waiting, Future;
    var current := Number(s.base);
    var ahead, rest := s.queue[..Front(s.queue, current)], s.queue[Front(s.queue, current)..];
    assert forall i :: 0 <= i < |ahead| ==> ahead[i] == s.queue[i];
    NoneReady(ahead, current);
    NoneLast(ahead, current, s.last);
    assert Survivors(ahead, current) == ahead && ahead + rest == s.queue;
    assert s.sent + Tagged(s.base, []) == s.sent;
  }

  lemma {:induction false} NoneLast(cs: seq<Command>, current: u16, old': u16)
    requires forall i :: 0 <= i < |cs| ==> Waiting(cs[i], current)
    ensures LastDelivered(cs, current, old') == old'
  {
    if cs != [] { NoneLast(cs[..|cs| - 1], current, old'); }
  }

  lemma {:induction false} FrontIs(q: seq<Command>, current: u16, n: nat)
    requires n <= |q| && (forall i :: 0 <= i < n ==> !Future(q[i], current)) && (n < |q| ==> Future(q[n], current))
    ensures Front(q, current) == n
    decreases n
  {
    hide Future;
    if n > 0 { FrontIs(q[1..], current, n - 1); }
  }

  lemma FragmentStable(s: State, i: nat)
    requires Stable(s) && i < |s.queue| && s.queue[i].fragmentsRemaining > 0
    ensures Stable(Fragment(s, i))
  {
    hide Dispatch;
    var current, c := Number(s.base), s.queue[i].(fragmentsRemaining := s.queue[i].fragmentsRemaining - 1);
    var t := s.(queue := s.queue[i := c]);
    if c.fragmentsRemaining <= 0 {
      DispatchStable(t);
    } else {
      assert forall j :: 0 <= j < |t.queue| ==>
        && (Future(t.queue[j], current) <==> Future(s.queue[j], current))
        && (Waiting(t.queue[j], current) <==> Waiting(s.queue[j], current));
      FrontIs(t.queue, current, Front(s.queue, current));
    }
  }

  // Where the front of a live queue ends, and a command goes.
  lemma PlaceByFront(s: State, c: Command)
    requires Inv(s) && Stable(s) && !TurnedAway(s, c) && !c.unsequenced
    ensures var i, n := Place(s.queue, s.base, c), Front(s.queue, Number(s.base));
      if c.reliable == Number(s.base) then i <= n else n <= i && Future(c, Number(s.base))
  {
    PlaceIs(s.queue, s.base, c);
    FutureIs(s.base, c);
    var i, n := Place(s.queue, s.base, c), Front(s.queue, Number(s.base));
    if c.reliable == Number(s.base) {
      if n < |s.queue| { NotBehind(s.base, c, s.queue[n]); }
    } else if i < |s.queue| && s.queue[i].reliable == Number(s.base) {
      NotBehind(s.base, s.queue[i], c);
    }
  }

  lemma NotBehind(base: nat, a: Command, b: Command)
    requires a.reliable == Number(base) != b.reliable
    ensures !Precedes(base, b, a)
  {
  }

  // A first fragment's command is still in the queue after the pass that queueing it runs if and only if at
  // most one queued command of its position stands behind it.
  lemma FirstLasts(s: State, c: Command)
    requires Inv(s) && Stable(s) && !TurnedAway(s, c) && !c.unsequenced && c.fragmentsRemaining > 0
    ensures c in Arrive(s, c).queue <==> Lasts(s, c)
  {
    hide Precedes, Live, Inv, Delivered, LastDelivered, TurnedAway, Future, Waiting, Survivors, Stable;
    NotQueued(s, c);
    PlaceByFront(s, c);
    StableFront(s);
    if c.reliable == Number(s.base) { FutureIsNow(c, Number(s.base)); }
    var i, n := Place(s.queue, s.base, c), Front(s.queue, Number(s.base));
    if c.reliable == Number(s.base) {
      AmongWaiting(s.queue, c, Number(s.base), i, n);
    } else {
      AmongFuture(s.queue, c, Number(s.base), i, n);
    }
  }

  lemma StableFront(s: State)
    requires Stable(s)
    ensures var n := Front(s.queue, Number(s.base));
      n <= 2 && forall i :: 0 <= i < n ==> Waiting(s.queue[i], Number(s.base))
  {
  }

  lemma FutureIsNow(c: Command, current: u16)
    requires !c.unsequenced && c.fragmentsRemaining > 0 && c.reliable == current
    ensures Waiting(c, current) && !Future(c, current)
  {
  }

  lemma NotQueued(s: State, c: Command)
    requires !TurnedAway(s, c) && !c.unsequenced
    ensures c !in s.queue
  {
    assert Same(c, c) && forall i :: 0 <= i < |s.queue| ==> !Same(s.queue[i], c);
  }

  lemma AmongWaiting(q: seq<Command>, c: Command, current: u16, i: nat, n: nat)
    requires i <= n == Front(q, current) <= 2 && (forall j :: 0 <= j < n ==> Waiting(q[j], current))
    requires Waiting(c, current) && !Future(c, current) && c !in q
    ensures var t := q[..i] + [c] + q[i..]; var m := Front(t, current);
      c in Survivors(t[..m], current) + t[m..] <==> i + 1 >= n
  {
    hide Waiting, Future, Survivors;
    var t := q[..i] + [c] + q[i..];
    FrontIs(t, current, n + 1);
    var ahead := t[..n + 1];
    SurvivorsLast(ahead, current);
    assert ahead[n] == t[n] && Waiting(t[n], current);
    assert n > 0 ==> ahead[n - 1] == t[n - 1] && Waiting(t[n - 1], current);
    assert t[n + 1..] == q[n..];
    InTail(q, c, i, n, if n == 0 then 0 else n - 1);
  }

  lemma InTail(q: seq<Command>, c: Command, i: nat, n: nat, k: nat)
    requires i <= n <= |q| && k <= n && c !in q
    ensures c in (q[..i] + [c] + q[i..])[..n + 1][k..] + q[n..] <==> i >= k
  {
    var ahead := (q[..i] + [c] + q[i..])[..n + 1];
    assert ahead[i] == c && forall j :: 0 <= j <= n && j != i ==> ahead[j] == q[if j < i then j else j - 1];
    assert i >= k ==> ahead[k..][i - k] == c;
  }

  lemma AmongFuture(q: seq<Command>, c: Command, current: u16, i: nat, n: nat)
    requires Front(q, current) == n <= i <= |q| && Future(c, current)
    ensures var t := q[..i] + [c] + q[i..]; var m := Front(t, current);
      c in Survivors(t[..m], current) + t[m..]
  {
    hide Future, Survivors;
    var t := q[..i] + [c] + q[i..];
    FrontIs(t, current, n);
    assert t[n..][i - n] == c;
  }

  // --- What commands really are. ---

  // A sequenced command that is turned away, or of which the receiver makes out the reliable message that
  // it was sent behind: one from the receiver's position on, by less than a whole round of the numbers.
  ghost predicate Placeable(base: nat, c: Command) {
    c.unsequenced || (c.reliable == Number(c.index) && (InWindow(base, c.reliable) ==> base <= c.index < base + HALF))
  }

  // Queued commands stand where they belong.
  ghost predicate Genuine(q: seq<Command>, base: nat) {
    forall i :: 0 <= i < |q| && !q[i].unsequenced ==> Unwrap(base, q[i].reliable) == q[i].index
  }

  // And were delivered where they belong.
  ghost predicate Told(sent: seq<Sent>) {
    forall i :: 0 <= i < |sent| && !sent[i].command.unsequenced ==> sent[i].command.index == sent[i].base
  }

  ghost predicate True(s: State) { Genuine(s.queue, s.base) && Told(s.sent) }

  // A command that the window test lets pass is taken for what it is if and only if it can be placed.
  lemma PlacedRight(base: nat, c: Command)
    requires !c.unsequenced && InWindow(base, c.reliable) && c.reliable == Number(c.index)
    ensures Placeable(base, c) <==> Unwrap(base, c.reliable) == c.index
  {
    if Placeable(base, c) { UnwrapNumber(base, c.index); }
  }

  lemma {:induction false} DeliveredTold(s: State, h: nat, k: nat)
    requires Mixed(s, h) && Genuine(s.queue[h..], s.base) && Told(s.sent) && k <= |s.queue|
    ensures Told(s.sent + Tagged(s.base, Delivered(s.queue[..k], Number(s.base))))
    decreases k
  {
    var current := Number(s.base);
    if k == 0 {
      assert s.sent + Tagged(s.base, []) == s.sent;
    } else {
      DeliveredTold(s, h, k - 1);
      var front, c := s.queue[..k - 1], s.queue[k - 1];
      assert s.queue[..k][..k - 1] == front;
      if Ready(c, current) {
        var sent := s.sent + Tagged(s.base, Delivered(front, current));
        assert s.sent + Tagged(s.base, Delivered(front, current) + [c]) == sent + [Sent(s.base, c)];
        if !c.unsequenced { ReadyIsHere(s, h, k - 1); }
      } else {
        assert Delivered(s.queue[..k], current) == Delivered(front, current);
      }
    }
  }

  lemma ReadyIsHere(s: State, h: nat, k: nat)
    requires Mixed(s, h) && Genuine(s.queue[h..], s.base) && k < |s.queue|
    requires Ready(s.queue[k], Number(s.base)) && !s.queue[k].unsequenced
    ensures s.queue[k].index == s.base
  {
    assert k >= h;
    assert s.queue[k] == s.queue[h..][k - h];
    UnwrapNumber(s.base, s.base);
  }

  lemma PassTrue(s: State, h: nat)
    requires Mixed(s, h) && Genuine(s.queue[h..], s.base) && Told(s.sent)
    ensures True(Dispatch(s))
  {
    var m := PassTakes(s, h);
    DeliveredTold(s, h, m);
    assert s.queue[m..] == s.queue[h..][m - h..];
    hide Dispatch, Delivered, Told, Unwrap;
  }

  lemma ArriveTrue(s: State, c: Command)
    requires Inv(s) && True(s) && Placeable(s.base, c)
    ensures True(Arrive(s, c))
  {
    hide Mixed, Inv, Unwrap, Told, Dispatch, Genuine, Placeable, TurnedAway;
    if TurnedAway(s, c) {
      assert Arrive(s, c) == s;
    } else {
      var h, t := ArrivalMixed(s, c);
      ArrivalGenuine(s, c, t, h);
      PassTrue(t, h);
    }
  }

  lemma ArrivalGenuine(s: State, c: Command, t: State, h: nat)
    requires Genuine(s.queue, s.base) && Placeable(s.base, c) && !TurnedAway(s, c) && h <= |t.queue| && t.base == s.base
    requires forall x :: x in t.queue[h..] ==> x in s.queue || (x == c && !c.unsequenced)
    ensures Genuine(t.queue[h..], t.base)
  {
    if !c.unsequenced { PlacedRight(s.base, c); }
    hide Unwrap;
    forall i | 0 <= i < |t.queue[h..]| && !t.queue[h..][i].unsequenced
      ensures Unwrap(t.base, t.queue[h..][i].reliable) == t.queue[h..][i].index
    {
      assert t.queue[h..][i] in t.queue[h..];
    }
  }

  lemma FragmentTrue(s: State, i: nat)
    requires Inv(s) && True(s) && i < |s.queue| && s.queue[i].fragmentsRemaining > 0
    ensures True(Fragment(s, i))
  {
    var t := FragmentMixed(s, i);
    assert t.queue[0..] == t.queue;
    hide Mixed, Inv, Unwrap, Told;
    PassTrue(t, 0);
  }

  lemma AdvanceTrue(s: State, k: nat)
    requires Inv(s) && True(s) && k > 0 && Window(s.base + k) <= Window(s.base) + AHEAD + 1
    ensures True(Advance(s, k))
  {
    hide Mixed, Inv, Told, Dispatch, Genuine, Window;
    var h := AdvanceMixed(s, k);
    GenuineRebased(s.queue, s.base, s.base + k, h);
    PassTrue(s.(base := s.base + k, last := 0), h);
  }

  lemma GenuineRebased(q: seq<Command>, base: nat, b: nat, h: nat)
    requires Genuine(q, base) && h <= |q|
    requires forall i :: h <= i < |q| ==> Unwrap(b, q[i].reliable) == Unwrap(base, q[i].reliable)
    ensures Genuine(q[h..], b)
  {
    hide Unwrap;
  }

  // --- Runs. ---

  datatype Step = Arrival(c: Command) | FirstOf(c: Command) | FragmentOf(i: nat) | Advancing(k: nat)

  // Arriving commands can be placed, the first fragment of a packet finds its command still queued, others
  // come for incomplete commands, and reliable messages are delivered from the windows accepted.
  ghost predicate Enabled(s: State, step: Step) {
    match step
    case Arrival(c) => c.fragmentsRemaining == 0 && Placeable(s.base, c)
    case FirstOf(c) =>
      c.fragmentsRemaining > 0 && !c.unsequenced && Placeable(s.base, c) && (TurnedAway(s, c) || Lasts(s, c))
    case FragmentOf(i) => i < |s.queue| && s.queue[i].fragmentsRemaining > 0
    case Advancing(k) => k > 0 && Window(s.base + k) <= Window(s.base) + AHEAD + 1
  }

  ghost function Do(s: State, step: Step): State
    requires Enabled(s, step)
  {
    match step
    case Arrival(c) => Arrive(s, c)
    case FirstOf(c) => First(s, c)
    case FragmentOf(i) => Fragment(s, i)
    case Advancing(k) => Advance(s, k)
  }

  ghost predicate Legal(s: State, steps: seq<Step>)
    decreases |steps|
  {
    steps == [] || (Enabled(s, steps[0]) && Legal(Do(s, steps[0]), steps[1..]))
  }

  ghost function Run(s: State, steps: seq<Step>): State
    requires Legal(s, steps)
    decreases |steps|
  {
    if steps == [] then s else Run(Do(s, steps[0]), steps[1..])
  }

  lemma ArriveStable(s: State, c: Command)
    requires Stable(s)
    ensures Stable(Arrive(s, c))
  {
    hide Stable, Dispatch, TurnedAway, Place;
    if !TurnedAway(s, c) {
      PlaceWithin(s, c, if c.unsequenced then 0 else Place(s.queue, s.base, c));
      var i := if c.unsequenced then 0 else Place(s.queue, s.base, c);
      DispatchStable(s.(queue := s.queue[..i] + [c] + s.queue[i..]));
    }
  }

  lemma FirstKeeps(s: State, c: Command)
    requires Inv(s) && True(s) && Stable(s) && Enabled(s, FirstOf(c))
    ensures Inv(First(s, c)) && True(First(s, c)) && Stable(First(s, c))
  {
    hide Inv, True, Stable, Arrive, Fragment, Lasts, Placeable, TurnedAway;
    if !TurnedAway(s, c) {
      ArriveKeeps(s, c);
      ArriveTrue(s, c);
      ArriveStable(s, c);
      var t := Arrive(s, c);
      var i := Where(t.queue, c);
      if i < |t.queue| {
        FragmentKeeps(t, i);
        FragmentTrue(t, i);
        FragmentStable(t, i);
      }
    }
  }

  // The step counts the fragment in the queue: of the command queued just before, or not at all.
  lemma FirstCounts(s: State, c: Command)
    requires Inv(s) && Stable(s) && Enabled(s, FirstOf(c)) && !TurnedAway(s, c)
    ensures var t := Arrive(s, c); var i := Where(t.queue, c);
      i < |t.queue| && t.queue[i] == c && First(s, c) == Fragment(t, i)
  {
    hide Inv, Stable, Arrive, Fragment, Lasts, Placeable, TurnedAway;
    FirstLasts(s, c);
  }

  lemma {:induction false} RunKeeps(s: State, steps: seq<Step>)
    requires Inv(s) && True(s) && Stable(s) && Legal(s, steps)
    ensures Inv(Run(s, steps)) && True(Run(s, steps)) && Stable(Run(s, steps))
    decreases |steps|
  {
    hide Inv, True, Stable, Dispatch, TurnedAway, Lasts, Placeable;
    if steps != [] {
      match steps[0] {
        case Arrival(c) =>
          ArriveKeeps(s, c);
          ArriveTrue(s, c);
          ArriveStable(s, c);
        case FirstOf(c) =>
          FirstKeeps(s, c);
        case FragmentOf(i) =>
          FragmentKeeps(s, i);
          FragmentTrue(s, i);
          FragmentStable(s, i);
        case Advancing(k) =>
          AdvanceKeeps(s, k);
          AdvanceTrue(s, k);
          DispatchStable(s.(base := s.base + k, last := 0));
      }
      RunKeeps(Do(s, steps[0]), steps[1..]);
    }
  }

  // The condition on first fragments is needed: with two incomplete packets queued, the first fragment of
  // one sent before them has its command freed before it is counted.
  lemma FirstFragmentFreed()
    ensures var c, d, e := Command(false, 0, 1, 2, 0), Command(false, 0, 2, 2, 0), Command(false, 0, 3, 2, 0);
      var s := State([d.(fragmentsRemaining := 1), e.(fragmentsRemaining := 1)], 0, 0, []);
      && Legal(START, [FirstOf(d), FirstOf(e)]) && Run(START, [FirstOf(d), FirstOf(e)]) == s
      && Placeable(s.base, c) && !TurnedAway(s, c) && !Lasts(s, c) && Arrive(s, c) == s
  {
    var c, d, e := Command(false, 0, 1, 2, 0), Command(false, 0, 2, 2, 0), Command(false, 0, 3, 2, 0);
    var d', e' := d.(fragmentsRemaining := 1), e.(fragmentsRemaining := 1);
    var r, s := State([d'], 0, 0, []), State([d', e'], 0, 0, []);
    hide Enabled, Placeable, TurnedAway, Lasts, Arrive, First, Legal, Run;
    FirstBehind([], d);
    FirstBehind([d'], e);
    assert [] + [d'] == [d'] && [d'] + [e'] == [d', e'];
    TwoSteps(START, FirstOf(d), r, FirstOf(e), s);
    FirstAhead(c, d', e');
  }

  lemma TwoSteps(s: State, a: Step, t: State, b: Step, u: State)
    requires Enabled(s, a) && Do(s, a) == t && Enabled(t, b) && Do(t, b) == u
    ensures Legal(s, [a, b]) && Run(s, [a, b]) == u
  {
    hide Enabled, Do;
    assert [a, b][1..] == [b] && [b][1..] == [];
    assert Legal(u, []) && Run(u, []) == u;
    assert Legal(t, [b]) && Run(t, [b]) == u;
  }

  // Queued behind at most one incomplete command.
  lemma FirstBehind(q: seq<Command>, c: Command)
    requires |q| <= 1 && (q != [] ==> Waiting(q[0], 0) && q[0].unreliable < c.unreliable)
    requires !c.unsequenced && c.reliable == 0 && c.index == 0 && c.unreliable > 0 && c.fragmentsRemaining > 1
    ensures Enabled(State(q, 0, 0, []), FirstOf(c))
    ensures First(State(q, 0, 0, []), c) == State(q + [c.(fragmentsRemaining := c.fragmentsRemaining - 1)], 0, 0, [])
  {
    var s, t := State(q, 0, 0, []), State(q + [c], 0, 0, []);
    UnwrapNumber(0, 0);
    assert Place(q, 0, c) == |q| && q[..|q|] + [c] + q[|q|..] == q + [c];
    AllWaiting(q + [c], 0);
    NothingToDo(t);
    hide Dispatch, Front;
    assert c !in q;
    assert t.queue[|q|] == c;
    assert (q + [c])[|q| := c.(fragmentsRemaining := c.fragmentsRemaining - 1)]
      == q + [c.(fragmentsRemaining := c.fragmentsRemaining - 1)];
  }

  lemma AllWaiting(q: seq<Command>, current: u16)
    requires forall i :: 0 <= i < |q| ==> Waiting(q[i], current)
    ensures Front(q, current) == |q|
  {
    FrontIs(q, current, |q|);
  }

  // Queued ahead of two.
  lemma FirstAhead(c: Command, d: Command, e: Command)
    requires Waiting(c, 0) && Waiting(d, 0) && Waiting(e, 0) && c.index == 0
    requires 0 < c.unreliable < d.unreliable < e.unreliable
    ensures var s := State([d, e], 0, 0, []);
      Placeable(s.base, c) && !TurnedAway(s, c) && !Lasts(s, c) && Arrive(s, c) == s
  {
    var s, t := State([d, e], 0, 0, []), State([c, d, e], 0, 0, []);
    UnwrapNumber(0, 0);
    assert [d, e][..1] == [d] && [d][..0] == [];
    assert Place([d, e], 0, c) == Place([d], 0, c) == Place([], 0, c) == 0;
    assert [d, e][..0] + [c] + [d, e][0..] == [c, d, e];
    AllWaiting([d, e], 0);
    AllWaiting([c, d, e], 0);
    hide Front;
    assert t.queue[..3] == t.queue && t.queue[3..] == [];
    NoneReady(t.queue, 0);
    NoneLast(t.queue, 0, 0);
    assert Survivors(t.queue, 0) + [] == [d, e];
    assert s.sent + Tagged(0, []) == s.sent;
  }

  // In every run a pass over the queue would change nothing.
  lemma RunStable(steps: seq<Step>)
    requires Legal(START, steps)
    ensures Stable(Run(START, steps)) && Dispatch(Run(START, steps)) == Run(START, steps)
  {
    hide Legal, Run, Inv, True, Dispatch;
    StartKeeps();
    RunKeeps(START, steps);
    StableIs(Run(START, steps));
  }

  lemma StartKeeps()
    ensures Inv(START) && True(START) && Stable(START)
  {
  }

  // In every run sequenced commands are delivered in the order in which they were sent, none twice, and
  // each while the reliable message it was really sent behind is the last one delivered.
  lemma SequencedInOrder(steps: seq<Step>, i: nat, j: nat)
    requires Legal(START, steps)
    requires var sent := Run(START, steps).sent;
      i < j < |sent| && !sent[i].command.unsequenced && !sent[j].command.unsequenced
    ensures var sent := Run(START, steps).sent; var x, y := sent[i], sent[j];
      && x.command.index == x.base && y.command.index == y.base
      && (x.command.index < y.command.index
          || (x.command.index == y.command.index && x.command.unreliable < y.command.unreliable))
  {
    hide Legal, Run;
    RunKeeps(START, steps);
    OrderedAt(Run(START, steps), i, j);
  }

  // The second half holds of a single one too.
  lemma DeliveredWhereSent(steps: seq<Step>, i: nat)
    requires Legal(START, steps)
    requires var sent := Run(START, steps).sent; i < |sent| && !sent[i].command.unsequenced
    ensures var x := Run(START, steps).sent[i];
      x.command.index == x.base && x.command.reliable == Number(x.base)
  {
    hide Legal, Run;
    RunKeeps(START, steps);
    OrderOf(Run(START, steps), i);
  }

  lemma OrderOf(s: State, i: nat)
    requires Inv(s) && True(s) && i < |s.sent| && !s.sent[i].command.unsequenced
    ensures s.sent[i].command.index == s.sent[i].base && s.sent[i].command.reliable == Number(s.sent[i].base)
  {
    hide Live, Ahead, Below, Genuine;
  }

  lemma OrderedAt(s: State, i: nat, j: nat)
    requires Inv(s) && True(s) && i < j < |s.sent| && !s.sent[i].command.unsequenced && !s.sent[j].command.unsequenced
    ensures var x, y := s.sent[i], s.sent[j];
      && x.command.index == x.base && y.command.index == y.base
      && (x.command.index < y.command.index
          || (x.command.index == y.command.index && x.command.unreliable < y.command.unreliable))
  {
    hide Live, Ahead, Below, Genuine;
  }

  // The condition on arrivals is needed: a copy that arrives 2^16 reliable messages late is delivered
  // again, behind a message that it was not sent behind.
  lemma StaleCopyDelivered(c: Command)
    requires c == Command(false, 0, 1, 0, 0)
    ensures var s := Arrive(START, c);
      && Enabled(START, Arrival(c)) && s.sent == [Sent(0, c)] && s.queue == []
      && Enabled(s, Advancing(24576)) && Advance(s, 24576) == State([], 24576, 0, s.sent)
    ensures var s := State([], 24576, 0, [Sent(0, c)]);
      Enabled(s, Advancing(24576)) && Advance(s, 24576) == State([], 49152, 0, s.sent)
    ensures var s := State([], 49152, 0, [Sent(0, c)]);
      Enabled(s, Advancing(16384)) && Advance(s, 16384) == State([], HALF, 0, s.sent)
    ensures var s := State([], HALF, 0, [Sent(0, c)]);
      !Placeable(s.base, c) && Arrive(s, c).sent == [Sent(0, c), Sent(HALF, c)]
  {
    hide Dispatch, Arrive, Advance, Window, Placeable;
    CopyPlaceable(c);
    SinglePass(0, c, []);
    EmptyAdvance(0, 24576, 1, [Sent(0, c)]);
    EmptyAdvance(24576, 24576, 0, [Sent(0, c)]);
    EmptyAdvance(49152, 16384, 0, [Sent(0, c)]);
    SinglePass(HALF, c, [Sent(0, c)]);
    assert [] + [Sent(0, c)] == [Sent(0, c)] && [Sent(0, c)] + [Sent(HALF, c)] == [Sent(0, c), Sent(HALF, c)];
  }

  lemma CopyPlaceable(c: Command)
    requires c == Command(false, 0, 1, 0, 0)
    ensures Placeable(0, c) && !Placeable(HALF, c)
    ensures Window(24576) == 6 && Window(49152) == 12 && Window(HALF) == 16 && Window(0) == 0
  {
    UnwrapNumber(HALF, HALF);
  }

  lemma EmptyAdvance(base: nat, k: nat, last: u16, sent: seq<Sent>)
    requires k > 0 && Window(base + k) <= Window(base) + AHEAD + 1
    ensures Enabled(State([], base, last, sent), Advancing(k))
    ensures Advance(State([], base, last, sent), k) == State([], base + k, 0, sent)
  {
    EmptyPass(base + k, 0, sent);
  }

  lemma EmptyPass(base: nat, last: u16, sent: seq<Sent>)
    ensures Dispatch(State([], base, last, sent)) == State([], base, last, sent)
  {
    NothingPassed(State([], base, last, sent), []);
  }

  lemma SinglePass(base: nat, c: Command, sent: seq<Sent>)
    requires !c.unsequenced && c.reliable == Number(base) && c.fragmentsRemaining <= 0 && c.unreliable > 0
    ensures Arrive(State([], base, 0, sent), c) == State([], base, c.unreliable, sent + [Sent(base, c)])
  {
    UnwrapNumber(base, base);
    var q := [] + [c] + [];
    assert q == [c] && q[..1] == [c] && q[1..] == [] && q[..0] == [];
    var current := Number(base);
    assert Front(q, current) == 1 && Delivered(q, current) == [c];
    assert Tagged(base, [c]) == [Sent(base, c)];
  }

  // And no unsequenced command is ever left waiting.
  lemma NoUnsequencedWaits(steps: seq<Step>)
    requires Legal(START, steps)
    ensures forall c :: c in Run(START, steps).queue ==> !c.unsequenced
  {
    RunKeeps(START, steps);
  }

  // --- What must be delivered, and what may be turned away. ---

  lemma {:induction false} DeliveredHas(cs: seq<Command>, current: u16, i: nat)
    requires i < |cs| && Ready(cs[i], current)
    ensures cs[i] in Delivered(cs, current)
    decreases |cs|
  {
    var n := |cs| - 1;
    if i < n { DeliveredHas(cs[..n], current, i); }
  }

  // A pass delivers whatever is ready before the first future command.
  lemma PassGives(s: State, i: nat)
    requires i < |s.queue| && Ready(s.queue[i], Number(s.base))
    requires forall j :: 0 <= j <= i ==> !Future(s.queue[j], Number(s.base))
    ensures Sent(s.base, s.queue[i]) in Dispatch(s).sent
  {
    hide Ready, Future, Survivors, Delivered, LastDelivered;
    var current := Number(s.base);
    FrontBeyond(s.queue, current, i);
    var ahead := s.queue[..Front(s.queue, current)];
    DeliveredHas(ahead, current, i);
    var k :| 0 <= k < |Delivered(ahead, current)| && Delivered(ahead, current)[k] == s.queue[i];
    assert Tagged(s.base, Delivered(ahead, current))[k] == Sent(s.base, s.queue[i]);
  }

  lemma FrontBeyond(q: seq<Command>, current: u16, i: nat)
    requires i < |q| && forall j :: 0 <= j <= i ==> !Future(q[j], current)
    ensures Front(q, current) > i
  {
  }

  // Nothing that stands before a command of the receiver's position is future.
  lemma NoneBefore(s: State, h: nat, i: nat)
    requires Mixed(s, h) && i < |s.queue| && (i < h || s.queue[i].reliable == Number(s.base))
    ensures forall j :: 0 <= j <= i ==> !Future(s.queue[j], Number(s.base))
  {
    hide Number, InOrder, Below, Ahead, InWindow;
    UnwrapBase(s.base);
    forall j | 0 <= j <= i ensures !Future(s.queue[j], Number(s.base)) {
      if h <= j < i {
        assert Precedes(s.base, s.queue[h..][j - h], s.queue[h..][i - h]);
        UnwrapNear(s.base, s.queue[j].reliable);
      }
    }
  }

  lemma UnwrapBase(base: nat)
    ensures Unwrap(base, Number(base)) == base
  {
  }

  lemma UnwrapNear(base: nat, number: u16)
    ensures Unwrap(base, number) <= base ==> number == Number(base)
  {
  }

  // A complete command is delivered as it arrives: unless it is turned away, a sequenced one of the receiver's
  // position, and an unsequenced one always.
  lemma CompleteDelivered(s: State, c: Command)
    requires Inv(s) && !TurnedAway(s, c)
    requires c.unsequenced || (c.reliable == Number(s.base) && c.fragmentsRemaining <= 0)
    ensures Sent(s.base, c) in Arrive(s, c).sent
  {
    hide Mixed, Dispatch, Inv, TurnedAway, Number;
    var i := if c.unsequenced then 0 else Place(s.queue, s.base, c);
    var t := s.(queue := s.queue[..i] + [c] + s.queue[i..]);
    MixedArrival(s, c);
    NoneBefore(t, if c.unsequenced then 1 else 0, i);
    PassGives(t, i);
  }

  // So is a queued one of the receiver's position with its last fragment,
  lemma CompletedDelivered(s: State, i: nat)
    requires Inv(s) && i < |s.queue| && s.queue[i].fragmentsRemaining == 1 && s.queue[i].reliable == Number(s.base)
    ensures Sent(s.base, s.queue[i].(fragmentsRemaining := 0)) in Fragment(s, i).sent
  {
    var t := FragmentMixed(s, i);
    hide Mixed, Dispatch, Inv, Number;
    NoneBefore(t, 0, i);
    PassGives(t, i);
  }

  // and a complete one when the reliable messages before it have been delivered.
  lemma WaitedDelivered(s: State, k: nat, i: nat)
    requires Inv(s) && k > 0 && Window(s.base + k) <= Window(s.base) + AHEAD + 1
    requires i < |s.queue| && s.queue[i].fragmentsRemaining <= 0
    requires Unwrap(s.base, s.queue[i].reliable) == s.base + k
    ensures Sent(s.base + k, s.queue[i]) in Advance(s, k).sent
  {
    hide Mixed, Dispatch, Inv, Window, Unwrap, Number;
    var h := AdvanceMixed(s, k);
    UnwrapIs(s.base, s.queue[i].reliable, s.base + k);
    NoneBefore(s.(base := s.base + k, last := 0), h, i);
    PassGives(s.(base := s.base + k, last := 0), i);
  }

  lemma UnwrapIs(base: nat, number: u16, index: nat)
    requires Unwrap(base, number) == index
    ensures number == Number(index)
  {
  }

  // The last number delivered is that of a command delivered at this position, or 0.
  ghost predicate Reached(s: State) { s.last == 0 || DeliveredAt(s.sent, s.base, s.last) }

  ghost predicate DeliveredAt(sent: seq<Sent>, base: nat, u: u16) {
    exists x :: x in sent && x.base == base && !x.command.unsequenced && x.command.unreliable == u
  }

  lemma {:induction false} LastIs(cs: seq<Command>, current: u16, old': u16)
    ensures var u := LastDelivered(cs, current, old');
      u == old' || exists c :: c in Delivered(cs, current) && !c.unsequenced && c.unreliable == u
  {
    if cs != [] {
      LastIs(cs[..|cs| - 1], current, old');
    }
  }

  lemma PassReaches(s: State)
    requires Reached(s)
    ensures Reached(Dispatch(s)) && Dispatch(s).base == s.base
  {
    hide Delivered, LastDelivered, Survivors, Front;
    var current := Number(s.base);
    var ahead := s.queue[..Front(s.queue, current)];
    LastIs(ahead, current, s.last);
    var given := Tagged(s.base, Delivered(ahead, current));
    if Dispatch(s).last != s.last {
      var c :| c in Delivered(ahead, current) && !c.unsequenced && c.unreliable == Dispatch(s).last;
      var k :| 0 <= k < |given| && Delivered(ahead, current)[k] == c;
      assert given[k] == Sent(s.base, c) && given[k] in s.sent + given;
    } else if s.last != 0 {
      var x :| x in s.sent && x.base == s.base && !x.command.unsequenced && x.command.unreliable == s.last;
      assert x in s.sent + given;
    }
  }

  lemma StepReaches(s: State, step: Step)
    requires Reached(s) && Enabled(s, step)
    ensures Reached(Do(s, step))
  {
    hide Dispatch, TurnedAway, Placeable, Lasts, DeliveredAt;
    match step
    case Arrival(c) => ArrivalReaches(s, c);
    case FirstOf(c) =>
      ArrivalReaches(s, c);
      var t := Arrive(s, c);
      if Where(t.queue, c) < |t.queue| { FragmentReaches(t, Where(t.queue, c)); }
    case FragmentOf(i) => FragmentReaches(s, i);
    case Advancing(k) => PassReaches(s.(base := s.base + k, last := 0));
  }

  lemma ArrivalReaches(s: State, c: Command)
    requires Reached(s)
    ensures Reached(Arrive(s, c))
  {
    hide Dispatch, TurnedAway, DeliveredAt;
    if !TurnedAway(s, c) {
      var i := if c.unsequenced then 0 else Place(s.queue, s.base, c);
      PassReaches(s.(queue := s.queue[..i] + [c] + s.queue[i..]));
    }
  }

  lemma FragmentReaches(s: State, i: nat)
    requires Reached(s) && i < |s.queue| && s.queue[i].fragmentsRemaining > 0
    ensures Reached(Fragment(s, i))
  {
    hide Dispatch, DeliveredAt;
    PassReaches(s.(queue := s.queue[i := s.queue[i].(fragmentsRemaining := s.queue[i].fragmentsRemaining - 1)]));
  }

  lemma {:induction false} RunReaches(s: State, steps: seq<Step>)
    requires Reached(s) && Legal(s, steps)
    ensures Reached(Run(s, steps))
    decreases |steps|
  {
    hide Enabled, Do, Reached;
    if steps != [] {
      StepReaches(s, steps[0]);
      RunReaches(Do(s, steps[0]), steps[1..]);
    }
  }

  lemma InWindowIs(base: nat, index: nat)
    requires base <= index < base + 0x10000
    ensures InWindow(base, Number(index)) <==> index / 4096 <= base / 4096 + 6
  {
    UnwrapNumber(base, index);
  }

  // In every run a command from the receiver's position on is turned away only if its reliable message is more
  // than six windows ahead, or it is queued already, or is numbered 0 or no higher than one that was
  // delivered at its position; and all those are.
  lemma TurnedAwayWhere(steps: seq<Step>, c: Command)
    requires Legal(START, steps)
    requires var s := Run(START, steps);
      !c.unsequenced && c.reliable == Number(c.index) && s.base <= c.index < s.base + 0x10000
    ensures var s := Run(START, steps);
      TurnedAway(s, c) <==>
        || c.index / 4096 > s.base / 4096 + 6
        || (c.index == s.base && (c.unreliable == 0 || Overtaken(s.sent, c)))
        || (exists x :: x in s.queue && x.reliable == c.reliable && x.unreliable == c.unreliable)
  {
    hide Legal, Run, InWindow, Inv, Dispatch;
    StartKeeps();
    RunKeeps(START, steps);
    RunReaches(START, steps);
    var s := Run(START, steps);
    InWindowIs(s.base, c.index);
    if c.index == s.base { OvertakenIs(s, c); }
    assert c.reliable == Number(s.base) <==> c.index == s.base by {
      UnwrapNumber(s.base, c.index);
      UnwrapBase(s.base);
    }
    assert (exists i :: 0 <= i < |s.queue| && Same(s.queue[i], c))
      <==> exists x :: x in s.queue && x.reliable == c.reliable && x.unreliable == c.unreliable;
  }

  // Something sent behind the same reliable message that does not precede it has been delivered.
  ghost predicate Overtaken(sent: seq<Sent>, c: Command) {
    exists x :: x in sent && x.base == c.index && !x.command.unsequenced && x.command.unreliable >= c.unreliable
  }

  lemma OvertakenIs(s: State, c: Command)
    requires Inv(s) && Reached(s) && c.index == s.base
    ensures c.unreliable <= s.last <==> c.unreliable == 0 || Overtaken(s.sent, c)
  {
    hide Live, Ahead, InOrder;
    if Overtaken(s.sent, c) {
      var x :| x in s.sent && x.base == c.index && !x.command.unsequenced && x.command.unreliable >= c.unreliable;
      var i :| 0 <= i < |s.sent| && s.sent[i] == x;
    }
    if 0 < c.unreliable <= s.last {
      var x :| x in s.sent && x.base == s.base && !x.command.unsequenced && x.command.unreliable == s.last;
      assert Overtaken(s.sent, c);
    }
  }

  // --- In the lists of the peer and its channel. ---

  ghost predicate Represents(inbox: Inbox, s: State)
    reads inbox, inbox.repr
  {
    && inbox.Valid() && inbox.waiting.Contents() == s.queue
    && inbox.incomingReliable == Number(s.base) && inbox.incomingUnreliable == s.last
  }

  // The tests of the search on two numbers, either side of the wrap.
  lemma SearchOrder(base: nat, c: Command, x: Command)
    ensures var r := Number(base);
      && (c.reliable >= r > x.reliable ==> Precedes(base, c, x))
      && (c.reliable < r <= x.reliable ==> Precedes(base, x, c))
      && ((c.reliable >= r <==> x.reliable >= r) ==> (
        && (x.reliable < c.reliable ==> Precedes(base, x, c)) && (x.reliable > c.reliable ==> Precedes(base, c, x))
        && (x.reliable == c.reliable ==> (
          && (Precedes(base, x, c) <==> x.unreliable < c.unreliable)
          && (Precedes(base, c, x) <==> x.unreliable > c.unreliable)))))
  {
  }

  lemma PlaceFound(q: seq<Command>, base: nat, c: Command, i: nat)
    requires Live(q, base) && i <= |q| && Place(q, base, c) == Place(q[..i], base, c)
    requires forall j :: i <= j < |q| ==> Precedes(base, c, q[j])
    requires i == 0 || Precedes(base, q[i - 1], c)
    ensures i == Place(q, base, c) && forall j :: 0 <= j < |q| ==> !Same(q[j], c)
  {
    forall j | 0 <= j < i ensures Precedes(base, q[j], c) {
      if j < i - 1 { assert Precedes(base, q[j], q[i - 1]); }
    }
  }

  // The search from the tail for the command to insert behind.
  method FindPlace(inbox: Inbox, c: Command, ghost s: State) returns (found: bool, at: Node<Command>, ghost i: nat)
    requires Represents(inbox, s) && Live(s.queue, s.base)
    ensures found <==> exists j :: 0 <= j < |s.queue| && Same(s.queue[j], c)
    ensures !found ==> i == Place(s.queue, s.base, c) && at == At(inbox.waiting.sentinel, inbox.waiting.nodes, i - 1)
  {
    hide Precedes, Live, Unwrap, InWindow, Number;
    var sentinel, incoming := inbox.waiting.sentinel, inbox.incomingReliable;
    ghost var q, nodes := s.queue, inbox.waiting.nodes;
    assert Joined(sentinel, nodes, |nodes| - 1);
    i := |nodes|;
    assert q[..i] == q;
    at, found := sentinel.previous, false;
    while at != sentinel
      invariant i <= |q| && at == At(sentinel, nodes, i - 1) && Place(q, s.base, c) == Place(q[..i], s.base, c)
      invariant forall j :: i <= j < |q| ==> Precedes(s.base, c, q[j])
      decreases i
    {
      var x := at.data[0];
      assert x == q[i - 1];
      SearchOrder(s.base, c, x);
      var behind := false;
      if c.reliable >= incoming {
        behind := x.reliable < incoming;
      } else if x.reliable >= incoming {
        break;
      }
      if !behind {
        if x.reliable < c.reliable { break; }
        if x.reliable <= c.reliable && x.unreliable <= c.unreliable {
          if x.unreliable < c.unreliable { break; }
          found := true;
          return;
        }
      }
      assert q[..i][..i - 1] == q[..i - 1];
      assert Joined(sentinel, nodes, i - 2);
      i, at := i - 1, at.previous;
    }
    PlaceFound(q, s.base, c, i);
  }

  lemma WindowTest(base: nat, number: u16)
    ensures var seen, current := WindowSeen(Number(base), number), Number(base) / WINDOW_SIZE;
      current <= seen < current + FREE_WINDOWS - 1 <==> InWindow(base, number)
  {
    WindowSeenIs(base, number);
  }

  // What Dispatch says of the state is what the pass has done to the lists.
  lemma OutcomeIs(inbox: Inbox, s: State, before: Before)
    requires inbox.Outcome(s.queue, before)
    requires inbox.incomingReliable == Number(s.base) && before.unreliable == s.last
    ensures Represents(inbox, Dispatch(s))
    ensures inbox.dispatched.Contents() == before.sent + HandedOver(s)
    ensures Dispatch(s).sent == s.sent + Tagged(s.base, HandedOver(s))
  {
    hide Survivors, Delivered, LastDelivered, Front;
  }

  // What the pass delivers.
  function HandedOver(s: State): seq<Command> {
    Delivered(s.queue[..Front(s.queue, Number(s.base))], Number(s.base))
  }

  // enet_list_insert of a new node, behind `at`.
  method Insert(inbox: Inbox, c: Command, at: Node<Command>, ghost i: nat, ghost s: State)
      returns (node: Node<Command>)
    requires Represents(inbox, s) && i <= |s.queue|
    requires at == At(inbox.waiting.sentinel, inbox.waiting.nodes, i - 1)
    modifies inbox`repr, inbox.repr
    ensures Represents(inbox, s.(queue := s.queue[..i] + [c] + s.queue[i..])) && fresh(inbox.repr - old(inbox.repr))
    ensures inbox.dispatched.Contents() == old(inbox.dispatched.Contents())
    ensures fresh(node) && node.data == [c] && node in inbox.waiting.nodes
  {
    assert Joined(inbox.waiting.sentinel, inbox.waiting.nodes, i - 1);
    node := new Node([c]);
    inbox.waiting.Insert(at.next, node, i);
    inbox.repr := inbox.repr + {node};
  }

  // The pass over the queue.
  method PassOver(inbox: Inbox, ghost s: State)
    requires Represents(inbox, s)
    modifies inbox`needsDispatch, inbox`incomingUnreliable, inbox.repr
    ensures inbox.repr == old(inbox.repr)
    ensures Represents(inbox, Dispatch(s))
    ensures Delivers(s.sent, Dispatch(s).sent, old(inbox.dispatched.Contents()), inbox.dispatched.Contents())
    ensures AmongNodes(inbox.waiting.nodes, old(inbox.waiting.nodes))
  {
    ghost var before := Before(inbox.dispatched.Contents(), inbox.incomingUnreliable, inbox.needsDispatch);
    inbox.DispatchUnreliable();
    OutcomeIs(inbox, s, before);
    PassDelivers(s, before.sent);
  }

  function Commands(sent: seq<Sent>): seq<Command> {
    seq(|sent|, i requires 0 <= i < |sent| => sent[i].command)
  }

  // What is new in sent' has been appended to the application's queue.
  ghost predicate Delivers(sent: seq<Sent>, sent': seq<Sent>, was: seq<Command>, now: seq<Command>) {
    sent <= sent' && now == was + Commands(sent'[|sent|..])
  }

  lemma PassDelivers(s: State, was: seq<Command>)
    ensures Delivers(s.sent, Dispatch(s).sent, was, was + HandedOver(s))
  {
    hide Delivered, Front, Survivors, LastDelivered;
    var sent := Dispatch(s).sent;
    assert sent[|s.sent|..] == Tagged(s.base, HandedOver(s));
    assert Commands(Tagged(s.base, HandedOver(s))) == HandedOver(s);
  }

  // What is asked of a command before it is queued, and where it goes then.
  method Admit(inbox: Inbox, c: Command, ghost s: State) returns (ok: bool, at: Node<Command>, ghost i: nat)
    requires Represents(inbox, s) && Inv(s)
    ensures ok <==> !TurnedAway(s, c)
    ensures ok ==> i == if c.unsequenced then 0 else Place(s.queue, s.base, c)
    ensures ok ==> at == At(inbox.waiting.sentinel, inbox.waiting.nodes, i - 1)
  {
    ok, at, i := true, inbox.waiting.sentinel, 0;
    if !c.unsequenced {
      WindowTest(s.base, c.reliable);
      var seen, current := WindowSeen(inbox.incomingReliable, c.reliable), inbox.incomingReliable / WINDOW_SIZE;
      if seen < current || seen >= current + FREE_WINDOWS - 1 { return false, at, 0; }
      if c.reliable == inbox.incomingReliable && c.unreliable <= inbox.incomingUnreliable { return false, at, 0; }
      var found;
      found, at, i := FindPlace(inbox, c, s);
      ok := !found;
    }
  }

  // The command is queued, and the queue passed over.
  method Enqueue(inbox: Inbox, c: Command, at: Node<Command>, ghost i: nat, ghost s: State)
      returns (node: Node<Command>)
    requires Represents(inbox, s) && i <= |s.queue|
    requires at == At(inbox.waiting.sentinel, inbox.waiting.nodes, i - 1)
    modifies inbox`needsDispatch, inbox`incomingUnreliable, inbox`repr, inbox.repr
    ensures var t := Dispatch(s.(queue := s.queue[..i] + [c] + s.queue[i..]));
      && Represents(inbox, t) && fresh(inbox.repr - old(inbox.repr))
      && Delivers(s.sent, t.sent, old(inbox.dispatched.Contents()), inbox.dispatched.Contents())
      && fresh(node) && (c !in s.queue ==> (node in inbox.waiting.nodes <==> c in t.queue))
  {
    hide Dispatch, Represents, Delivers, AmongNodes;
    node := Insert(inbox, c, at, i, s);
    ghost var t, nodes := s.(queue := s.queue[..i] + [c] + s.queue[i..]), inbox.waiting.nodes;
    if c !in s.queue { SoleNode(inbox, t, i, s.queue, node, c); }
    PassOver(inbox, t);
    if c !in s.queue { NodeLeft(inbox, Dispatch(t), nodes, node, c); }
  }

  // The node of a command that is queued once.
  ghost predicate Sole(nodes: seq<Node<Command>>, node: Node<Command>, c: Command) {
    node in nodes && node.data == [c] && forall n :: n in nodes && n.data == [c] ==> n == node
  }

  lemma SoleNode(inbox: Inbox, s: State, i: nat, q: seq<Command>, node: Node<Command>, c: Command)
    requires Represents(inbox, s) && i <= |q| && s.queue == q[..i] + [c] + q[i..] && c !in q
    requires node in inbox.waiting.nodes && node.data == [c]
    ensures Sole(inbox.waiting.nodes, node, c)
  {
    var nodes := inbox.waiting.nodes;
    assert forall k :: 0 <= k < |nodes| && nodes[k].data == [c] ==> s.queue[k] == c;
    assert forall k :: 0 <= k < |s.queue| && k != i ==> s.queue[k] == q[if k < i then k else k - 1];
  }

  // What is left of it is told by what is left of the queue.
  lemma NodeLeft(inbox: Inbox, s: State, was: seq<Node<Command>>, node: Node<Command>, c: Command)
    requires Represents(inbox, s) && AmongNodes(inbox.waiting.nodes, was) && Sole(was, node, c)
    ensures node in inbox.waiting.nodes <==> c in s.queue
  {
    var nodes := inbox.waiting.nodes;
    assert forall k :: 0 <= k < |nodes| ==> nodes[k].data == [s.queue[k]];
    if c in s.queue {
      var k :| 0 <= k < |s.queue| && s.queue[k] == c;
      assert nodes[k] in nodes;
    }
  }

  // enet_peer_queue_incoming_command for a command that is not reliable. The node returned is still in the
  // list exactly where its command is in the queue; of one that is to count fragments FirstLasts tells when.
  method QueueIncoming(inbox: Inbox, c: Command, ghost s: State) returns (queued: Node?<Command>)
    requires Represents(inbox, s) && Inv(s)
    modifies inbox`needsDispatch, inbox`incomingUnreliable, inbox`repr, inbox.repr
    ensures Represents(inbox, Arrive(s, c)) && Inv(Arrive(s, c)) && fresh(inbox.repr - old(inbox.repr))
    ensures queued != null <==> !TurnedAway(s, c)
    ensures queued != null ==>
      fresh(queued) && (!c.unsequenced ==> (queued in inbox.waiting.nodes <==> c in Arrive(s, c).queue))
    ensures queued != null && Stable(s) && !c.unsequenced && c.fragmentsRemaining > 0 ==>
      (queued in inbox.waiting.nodes <==> Lasts(s, c))
    ensures Delivers(s.sent, Arrive(s, c).sent, old(inbox.dispatched.Contents()), inbox.dispatched.Contents())
  {
    hide Inv, Dispatch, TurnedAway, Place, Delivers, Lasts, Stable;
    ArriveKeeps(s, c);
    queued := null;
    var ok, at;
    ghost var i;
    ok, at, i := Admit(inbox, c, s);
    if ok {
      PlaceWithin(s, c, i);
      queued := Enqueue(inbox, c, at, i, s);
      if !c.unsequenced { NotQueued(s, c); }
      if Stable(s) && !c.unsequenced && c.fragmentsRemaining > 0 { FirstLasts(s, c); }
    } else {
      NothingDelivered(s.sent, inbox.dispatched.Contents());
    }
  }

  lemma NothingDelivered(sent: seq<Sent>, was: seq<Command>)
    ensures Delivers(sent, sent, was, was)
  {
  }

  lemma PlaceWithin(s: State, c: Command, i: nat)
    requires i == if c.unsequenced then 0 else Place(s.queue, s.base, c)
    ensures i <= |s.queue|
  {
  }

  // The end of enet_peer_dispatch_incoming_reliable_commands, k reliable messages having been delivered.
  method AdvanceReliable(inbox: Inbox, k: nat, ghost s: State)
    requires Represents(inbox, s)
    modifies inbox`needsDispatch, inbox`incomingReliable, inbox`incomingUnreliable, inbox.repr
    ensures Represents(inbox, Advance(s, k))
    ensures Delivers(s.sent, Advance(s, k).sent, old(inbox.dispatched.Contents()), inbox.dispatched.Contents())
  {
    hide Dispatch, Delivers;
    ghost var t := s.(base := s.base + k, last := 0);
    inbox.incomingReliable := (inbox.incomingReliable + k) % HALF;
    inbox.incomingUnreliable := 0;
    assert Joined(inbox.waiting.sentinel, inbox.waiting.nodes, -1);
    assert Represents(inbox, t);
    hide Represents;
    if inbox.waiting.sentinel.next != inbox.waiting.sentinel {
      PassOver(inbox, t);
    } else {
      NothingPassed(t, inbox.dispatched.Contents());
    }
  }

  lemma NothingPassed(s: State, was: seq<Command>)
    requires s.queue == []
    ensures Dispatch(s) == s && Delivers(s.sent, s.sent, was, was)
  {
    assert s.sent + Tagged(s.base, []) == s.sent;
  }
}
