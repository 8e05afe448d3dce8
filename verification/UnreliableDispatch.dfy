/** enet_peer_dispatch_incoming_unreliable_commands of src/enet/peer.c: one pass over a channel's
    unreliable commands with three cursors, splicing runs of them over to the application. */
module UnreliableDispatch {
  import opened Words
  import opened ReliableOrder
  import opened LinkedList

  // `index` is the reliable message that the command was really sent behind. It is not transmitted, and
  // nothing here looks at it.
  datatype Command = Command(unsequenced: bool, reliable: u16, unreliable: u16, fragmentsRemaining: int, index: nat)

  // --- What can happen to a command, given the channel's reliable number. ---

  predicate Ready(c: Command, current: u16) {
    c.unsequenced || (c.reliable == current && c.fragmentsRemaining <= 0)
  }

  // A fragment still missing.
  predicate Waiting(c: Command, current: u16) {
    !c.unsequenced && c.reliable == current && c.fragmentsRemaining > 0
  }

  // Behind reliable commands that have not come yet, as far as the windows reach.
  predicate Future(c: Command, current: u16) {
    && !c.unsequenced && c.reliable != current
    && current / WINDOW_SIZE <= WindowSeen(current, c.reliable) < current / WINDOW_SIZE + FREE_WINDOWS - 1
  }

  predicate Stale(c: Command, current: u16) {
    !Ready(c, current) && !Waiting(c, current) && !Future(c, current)
  }

  // How many commands stand before the first future one.
  function Front(cs: seq<Command>, current: u16): (n: nat)
    ensures n <= |cs| && (forall i :: 0 <= i < n ==> !Future(cs[i], current))
    ensures n < |cs| ==> Future(cs[n], current)
  {
    if cs == [] || Future(cs[0], current) then 0 else 1 + Front(cs[1..], current)
  }

  function Delivered(cs: seq<Command>, current: u16): seq<Command> {
    if cs == [] then [] else
      Delivered(cs[..|cs| - 1], current) + if Ready(cs[|cs| - 1], current) then [cs[|cs| - 1]] else []
  }

  function Kept(cs: seq<Command>, current: u16): seq<Command> {
    if cs == [] then [] else
      Kept(cs[..|cs| - 1], current) + if Ready(cs[|cs| - 1], current) then [] else [cs[|cs| - 1]]
  }

  // Of the commands before the first future one, those that stay: at most two, and only where the
  // front ends in incomplete ones.
  function Survivors(cs: seq<Command>, current: u16): seq<Command> {
    if cs == [] || !Waiting(cs[|cs| - 1], current) then []
    else if |cs| >= 2 && Waiting(cs[|cs| - 2], current) then [cs[|cs| - 2], cs[|cs| - 1]]
    else [cs[|cs| - 1]]
  }

  // The unreliable number of the last sequenced command delivered.
  function LastDelivered(cs: seq<Command>, current: u16, old': u16): u16 {
    if cs == [] then old'
    else if Ready(cs[|cs| - 1], current) && !cs[|cs| - 1].unsequenced then cs[|cs| - 1].unreliable
    else LastDelivered(cs[..|cs| - 1], current, old')
  }

  lemma WaitingIsKept(cs: seq<Command>, current: u16)
    requires cs != [] && Waiting(cs[|cs| - 1], current)
    ensures Kept(cs, current) == Kept(cs[..|cs| - 1], current) + [cs[|cs| - 1]]
  {
  }

  lemma SurvivorsKept(cs: seq<Command>, current: u16)
    ensures var kept, stay := Kept(cs, current), Survivors(cs, current);
      |stay| <= |kept| && kept[|kept| - |stay|..] == stay
  {
    hide Ready, Waiting, Kept;
    var n := |cs| - 1;
    if n >= 0 && Waiting(cs[n], current) {
      WaitingIsKept(cs, current);
      if n >= 1 && Waiting(cs[n - 1], current) {
        var front := cs[..n];
        WaitingIsKept(front, current);
        LastTwo(Kept(front[..n - 1], current), cs[n - 1], cs[n]);
      }
    }
  }

  lemma LastTwo<T>(k: seq<T>, x: T, y: T)
    ensures (k + [x] + [y])[|k|..] == [x, y]
  {
  }

  // --- The pass as far as it has come: cs[..k] seen, cs[p..k] ready and not yet spliced. ---

  ghost predicate Passed(cs: seq<Command>, current: u16, p: nat, k: nat, list: seq<Command>, dropped: int) {
    && p <= k <= |cs|
    && (forall i :: 0 <= i < k ==> !Future(cs[i], current))
    && (forall i :: p <= i < k ==> Ready(cs[i], current))
    && list == Kept(cs[..p], current) + cs[p..]
    && dropped == |Kept(cs[..p], current)| - |Survivors(cs[..p], current)|
  }

  lemma {:induction false} ReadyRun(cs: seq<Command>, current: u16, p: nat, k: nat)
    requires p <= k <= |cs| && forall i {:trigger cs[i]} :: p <= i < k ==> Ready(cs[i], current)
    ensures Kept(cs[..k], current) == Kept(cs[..p], current)
    ensures Delivered(cs[..k], current) == Delivered(cs[..p], current) + cs[p..k]
    ensures p < k ==> Survivors(cs[..k], current) == []
    decreases k
  {
    hide *;
    if p == k {
      assert cs[p..k] == [];
    } else {
      ReadyRun(cs, current, p, k - 1);
      ReadyNext(cs[..k - 1], cs[k - 1], current);
      assert cs[..k] == cs[..k - 1] + [cs[k - 1]] && cs[p..k] == cs[p..k - 1] + [cs[k - 1]];
    }
  }

  lemma ReadyNext(cs: seq<Command>, c: Command, current: u16)
    requires Ready(c, current)
    ensures Kept(cs + [c], current) == Kept(cs, current) && Survivors(cs + [c], current) == []
    ensures Delivered(cs + [c], current) == Delivered(cs, current) + [c]
  {
    assert (cs + [c])[..|cs|] == cs;
  }

  lemma Spliced(cs: seq<Command>, current: u16, p: nat, k: nat)
    requires p <= k <= |cs| && forall i :: p <= i < k ==> Ready(cs[i], current)
    ensures var s := |Kept(cs[..p], current)|; var list := Kept(cs[..p], current) + cs[p..];
      list[..s] + list[s + (k - p)..] == Kept(cs[..k], current) + cs[k..]
  {
    ReadyRun(cs, current, p, k);
    hide Kept, Ready;
    assert cs[p..][k - p..] == cs[k..];
  }

  lemma KeptMore(cs: seq<Command>, current: u16, k: nat)
    requires k < |cs| && !Ready(cs[k], current)
    ensures Kept(cs[..k + 1], current) == Kept(cs[..k], current) + [cs[k]]
    ensures Delivered(cs[..k + 1], current) == Delivered(cs[..k], current)
    ensures |Survivors(cs[..k + 1], current)| ==
      if !Waiting(cs[k], current) then 0 else if Survivors(cs[..k], current) != [] then 2 else 1
  {
    assert cs[..k + 1][..k] == cs[..k];
    if k > 0 { assert cs[..k + 1][k - 1] == cs[..k][k - 1]; }
  }

  // A command that stays: what is pending is spliced first, and the drop cursor moves with it.
  lemma PassedKeep(cs: seq<Command>, current: u16, p: nat, k: nat, list: seq<Command>, dropped: int)
    requires Passed(cs, current, p, k, list, dropped) && k < |cs|
    requires !Ready(cs[k], current) && !Future(cs[k], current)
    ensures var s := |Kept(cs[..p], current)|; var list' := list[..s] + list[s + (k - p)..];
      var dropped' :=
        if Stale(cs[k], current) then s + 1 else if p < k then s else if dropped != s then s - 1 else dropped;
      Passed(cs, current, k + 1, k + 1, list', dropped') && |Kept(cs[..k + 1], current)| == s + 1
  {
    hide Kept, Survivors, Ready, Future, Waiting, Delivered;
    Spliced(cs, current, p, k);
    ReadyRun(cs, current, p, k);
    KeptMore(cs, current, k);
    assert cs[k..] == [cs[k]] + cs[k + 1..];
  }

  lemma PassedEnd(cs: seq<Command>, current: u16, p: nat, k: nat, list: seq<Command>, dropped: int)
    requires Passed(cs, current, p, k, list, dropped) && (k == |cs| || Future(cs[k], current))
    ensures k == Front(cs, current) && Delivered(cs[..k], current) == Delivered(cs[..p], current) + cs[p..k]
    ensures var s := |Kept(cs[..p], current)|; var list' := list[..s] + list[s + (k - p)..];
      var dropped' := if p < k then s else dropped;
      0 <= dropped' <= s && list'[dropped'..] == Survivors(cs[..k], current) + cs[k..]
  {
    hide Kept, Survivors, Ready, Future, Delivered, Front;
    Spliced(cs, current, p, k);
    ReadyRun(cs, current, p, k);
    SurvivorsKept(cs[..k], current);
    SurvivorsKept(cs[..p], current);
  }

  // The cursors are where the pass says, in the list itself.
  lemma PassedCursors(cs: seq<Command>, current: u16, p: nat, k: nat, list: seq<Command>, dropped: int)
    requires Passed(cs, current, p, k, list, dropped)
    ensures var s := |Kept(cs[..p], current)|;
      && p <= k <= |cs| && 0 <= dropped <= s && s + (k - p) <= |list| == s + |cs| - p
      && list[s..s + (k - p)] == cs[p..k] && (k < |cs| ==> list[s + (k - p)] == cs[k])
  {
    hide Kept, Survivors, Ready, Future;
    SurvivorsKept(cs[..p], current);
    Behind(Kept(cs[..p], current), cs, p, k);
  }

  lemma Behind(kept: seq<Command>, cs: seq<Command>, p: nat, k: nat)
    requires p <= k <= |cs|
    ensures var list := kept + cs[p..];
      list[|kept|..|kept| + (k - p)] == cs[p..k] && (k < |cs| ==> list[|kept| + (k - p)] == cs[k])
  {
  }

  lemma PassedReady(cs: seq<Command>, current: u16, p: nat, k: nat, list: seq<Command>, dropped: int, old': u16)
    requires Passed(cs, current, p, k, list, dropped) && k < |cs| && Ready(cs[k], current)
    ensures Passed(cs, current, p, k + 1, list, dropped)
    ensures LastDelivered(cs[..k + 1], current, old') ==
      if cs[k].unsequenced then LastDelivered(cs[..k], current, old') else cs[k].unreliable
  {
    assert cs[..k + 1][..k] == cs[..k];
  }

  lemma PassedKept(cs: seq<Command>, current: u16, p: nat, k: nat, list: seq<Command>, dropped: int, old': u16)
    requires Passed(cs, current, p, k, list, dropped) && k < |cs| && !Ready(cs[k], current)
    ensures LastDelivered(cs[..k + 1], current, old') == LastDelivered(cs[..k], current, old')
    ensures Delivered(cs[..k + 1], current) == Delivered(cs[..p], current) + cs[p..k]
  {
    ReadyRun(cs, current, p, k);
    KeptNot(cs, current, k, old');
  }

  lemma KeptNot(cs: seq<Command>, current: u16, k: nat, old': u16)
    requires k < |cs| && !Ready(cs[k], current)
    ensures LastDelivered(cs[..k + 1], current, old') == LastDelivered(cs[..k], current, old')
    ensures Delivered(cs[..k + 1], current) == Delivered(cs[..k], current)
  {
    assert cs[..k + 1][..k] == cs[..k];
  }

  // The same for the nodes of the two lists.
  lemma Parts(a: seq<Node<Command>>, b: seq<Node<Command>>, s: nat, t: nat)
    requires Carrying(a) && Carrying(b) && s <= t <= |a|
    ensures Carrying(a[..s] + a[t..]) && Values(a[..s] + a[t..]) == Values(a)[..s] + Values(a)[t..]
    ensures Carrying(b + a[s..t]) && Values(b + a[s..t]) == Values(b) + Values(a)[s..t]
  {
  }

  // What the pass found: the application's queue, the channel's unreliable number and the peer's flag.
  datatype Before = Before(sent: seq<Command>, unreliable: u16, needs: bool)

  datatype Cursors = Cursors(start: Node<Command>, current: Node<Command>, dropped: Node<Command>)

  // The pass over cs[..k] with cs[p..k] pending, as the nodes a of the channel's list and b of the
  // application's show it, with the cursors at their places in a.
  ghost predicate Stage(cs: seq<Command>, current: u16, before: Before, p: nat, k: nat, d: nat, sentinel: Node<Command>,
                        a: seq<Node<Command>>, b: seq<Node<Command>>, at: Cursors, unreliable: u16, needs: bool) {
    && Carrying(a) && Carrying(b) && Passed(cs, current, p, k, Values(a), d)
    && Values(b) == before.sent + Delivered(cs[..p], current)
    && unreliable == LastDelivered(cs[..k], current, before.unreliable)
    && needs == (before.needs || Delivered(cs[..p], current) != [])
    && at == Cursors(At(sentinel, a, Begin(cs, current, p)), At(sentinel, a, Begin(cs, current, p) + (k - p)),
      At(sentinel, a, d))
  }

  // Where in the list the pending run begins.
  ghost function Begin(cs: seq<Command>, current: u16, p: nat): nat
    requires p <= |cs|
  {
    |Kept(cs[..p], current)|
  }

  lemma StageStart(before: Before, sentinel: Node<Command>, a: seq<Node<Command>>, b: seq<Node<Command>>, current: u16)
    requires Carrying(a) && Carrying(b) && before.sent == Values(b)
    ensures var first := At(sentinel, a, 0);
      Stage(Values(a), current, before, 0, 0, 0, sentinel, a, b, Cursors(first, first, first), before.unreliable,
        before.needs)
  {
    assert Values(a)[..0] == [] && Values(a)[0..] == Values(a);
  }

  lemma StageCurrent(cs: seq<Command>, current: u16, before: Before, p: nat, k: nat, d: nat, sentinel: Node<Command>,
                     a: seq<Node<Command>>, b: seq<Node<Command>>, at: Cursors, unreliable: u16, needs: bool)
    requires Stage(cs, current, before, p, k, d, sentinel, a, b, at, unreliable, needs) && Distinct(sentinel, a)
    ensures p <= k <= |cs| && (at.current == sentinel <==> k == |cs|)
    ensures var t := Begin(cs, current, p) + (k - p);
      k < |cs| ==> t < |a| && at.current == a[t] && |a[t].data| == 1 && a[t].data[0] == cs[k]
  {
    hide Ready, Waiting, Kept, Survivors, Delivered, LastDelivered;
    PassedCursors(cs, current, p, k, Values(a), d);
  }

  lemma StageReady(cs: seq<Command>, current: u16, before: Before, p: nat, k: nat, d: nat, sentinel: Node<Command>,
                   a: seq<Node<Command>>, b: seq<Node<Command>>, at: Cursors, unreliable: u16, needs: bool)
    requires Stage(cs, current, before, p, k, d, sentinel, a, b, at, unreliable, needs) && k < |cs|
    requires Ready(cs[k], current)
    ensures Stage(cs, current, before, p, k + 1, d, sentinel, a, b,
      at.(current := At(sentinel, a, Begin(cs, current, p) + (k - p) + 1)),
                  if cs[k].unsequenced then unreliable else cs[k].unreliable, needs)
  {
    PassedReady(cs, current, p, k, Values(a), d, before.unreliable);
    hide Passed, Ready, Kept, Delivered, LastDelivered, Values, Carrying;
  }

  function DropCursor(stale: bool, s: nat, t: nat, d: nat): int {
    if stale then s + 1 else if s < t then s else if d != s then s - 1 else d
  }

  lemma StagePlaces(cs: seq<Command>, current: u16, before: Before, p: nat, k: nat, d: nat, sentinel: Node<Command>,
                    a: seq<Node<Command>>, b: seq<Node<Command>>, at: Cursors, unreliable: u16, needs: bool)
    requires Stage(cs, current, before, p, k, d, sentinel, a, b, at, unreliable, needs)
    ensures p <= k <= |cs|
    ensures var s := Begin(cs, current, p); var t := s + (k - p);
      && d <= s && t <= |a| && (k < |cs| ==> t < |a|)
      && at == Cursors(At(sentinel, a, s), At(sentinel, a, t), At(sentinel, a, d))
  {
    PassedCursors(cs, current, p, k, Values(a), d);
  }

  lemma StageKeep(cs: seq<Command>, current: u16, before: Before, p: nat, k: nat, d: nat, sentinel: Node<Command>,
                  a: seq<Node<Command>>, b: seq<Node<Command>>, at: Cursors, unreliable: u16, needs: bool, s: nat,
                  t: nat, d': int)
    requires Stage(cs, current, before, p, k, d, sentinel, a, b, at, unreliable, needs)
    requires k < |cs| && !Ready(cs[k], current) && !Future(cs[k], current)
    requires s == Begin(cs, current, p) && t == s + (k - p) < |a| && d' == DropCursor(Stale(cs[k], current), s, t, d)
    ensures 0 <= d' <= s + 1
    ensures var a' := a[..s] + a[t..];
      Stage(cs, current, before, k + 1, k + 1, d', sentinel, a', b + a[s..t],
            Cursors(At(sentinel, a', s + 1), At(sentinel, a', s + 1), At(sentinel, a', d')), unreliable, needs || s < t)
  {
    hide Passed, Delivered, LastDelivered, Kept, Ready, Future, Stale, Waiting, Survivors, Values, Carrying, At;
    PassedCursors(cs, current, p, k, Values(a), d);
    PassedKeep(cs, current, p, k, Values(a), d);
    PassedKept(cs, current, p, k, Values(a), d, before.unreliable);
    Parts(a, b, s, t);
  }

  lemma StageEnd(cs: seq<Command>, current: u16, before: Before, p: nat, k: nat, d: nat, sentinel: Node<Command>,
                 a: seq<Node<Command>>, b: seq<Node<Command>>, at: Cursors, unreliable: u16, needs: bool, s: nat,
                 t: nat, d': nat)
    requires Stage(cs, current, before, p, k, d, sentinel, a, b, at, unreliable, needs)
    requires k == |cs| || Future(cs[k], current)
    requires s == Begin(cs, current, p) && t == s + (k - p) <= |a| && d' == (if s < t then s else d) <= s
    ensures k == Front(cs, current)
    ensures var left := (a[..s] + a[t..])[d'..];
      Carrying(left) && Values(left) == Survivors(cs[..k], current) + cs[k..]
    ensures Carrying(b + a[s..t]) && Values(b + a[s..t]) == before.sent + Delivered(cs[..k], current)
    ensures unreliable == LastDelivered(cs[..k], current, before.unreliable)
    ensures (needs || s < t) == (before.needs || Delivered(cs[..k], current) != [])
  {
    hide Passed, Delivered, LastDelivered, Kept, Ready, Future, Survivors, Front, Carrying, Values, At;
    PassedCursors(cs, current, p, k, Values(a), d);
    PassedEnd(cs, current, p, k, Values(a), d);
    Parts(a, b, s, t);
    Rest(a[..s] + a[t..], d');
  }

  lemma Rest(a: seq<Node<Command>>, d: nat)
    requires Carrying(a) && d <= |a|
    ensures Carrying(a[d..]) && Values(a[d..]) == Values(a)[d..]
  {
  }

  // No node of `now` is new.
  ghost predicate AmongNodes(now: seq<Node<Command>>, was: seq<Node<Command>>) { forall n :: n in now ==> n in was }

  // --- ENetPeer and its channel. ---

  class Inbox {
    const waiting: List<Command>     // incomingUnreliableCommands
    const dispatched: List<Command>  // dispatchedCommands
    var incomingReliable: u16
    var incomingUnreliable: u16
    var needsDispatch: bool
    ghost var repr: set<object>

    ghost predicate Valid()
      reads this, repr
    {
      && this !in repr && {waiting, dispatched, waiting.sentinel, dispatched.sentinel} <= repr
      && (forall n :: n in waiting.nodes ==> n in repr) && (forall n :: n in dispatched.nodes ==> n in repr)
      && waiting.Valid() && dispatched.Valid() && waiting.Apart(dispatched)
    }

    constructor ()
      ensures Valid() && waiting.nodes == [] && dispatched.nodes == []
    {
      waiting := new List();
      dispatched := new List();
      incomingReliable, incomingUnreliable, needsDispatch := 0, 0, false;
      new;
      repr := {waiting, dispatched, waiting.sentinel, dispatched.sentinel};
    }

    // Splices the pending run [start, current) over; nothing when it is empty.
    method Splice(start: Node<Command>, current: Node<Command>, ghost s: nat, ghost t: nat)
      requires Valid() && s <= t <= |waiting.nodes|
      requires start == At(waiting.sentinel, waiting.nodes, s) && current == At(waiting.sentinel, waiting.nodes, t)
      modifies this`needsDispatch, repr
      ensures Valid() && needsDispatch == (old(needsDispatch) || s < t)
      ensures waiting.nodes == old(waiting.nodes[..s]) + old(waiting.nodes[t..])
      ensures dispatched.nodes == old(dispatched.nodes) + old(waiting.nodes[s..t])
      ensures start != current <==> s < t
    {
      if start != current {
        assert Joined(waiting.sentinel, waiting.nodes, t - 1);
        ghost var there := dispatched.nodes;
        waiting.Move(dispatched, dispatched.sentinel, start, current.previous, |dispatched.nodes|, s, t);
        assert there[..|there|] == there && there[|there|..] == [];
        needsDispatch := true;
      }
    }

    // enet_peer_remove_incoming_commands
    method RemoveBefore(end: Node<Command>, ghost d: nat)
      requires waiting.Valid() && d <= |waiting.nodes| && end == At(waiting.sentinel, waiting.nodes, d)
      modifies waiting, waiting.sentinel, waiting.nodes
      ensures waiting.Valid() && waiting.nodes == old(waiting.nodes[d..])
    {
      assert Joined(waiting.sentinel, waiting.nodes, -1);
      var current := waiting.sentinel.next;
      ghost var i: nat := 0;
      while current != end
        invariant i <= d && waiting.Valid() && waiting.nodes == old(waiting.nodes[i..])
        invariant current == At(waiting.sentinel, waiting.nodes, 0)
        decreases d - i
      {
        assert Joined(waiting.sentinel, waiting.nodes, 0);
        var command := current;
        current := current.next;
        waiting.Remove(command, 0);
        i := i + 1;
      }
    }

    ghost predicate Underway(cs: seq<Command>, before: Before, p: nat, k: nat, d: nat, at: Cursors)
      reads this, repr
    {
      && Valid()
      && Stage(cs, incomingReliable, before, p, k, d, waiting.sentinel, waiting.nodes, dispatched.nodes, at,
               incomingUnreliable, needsDispatch)
    }

    lemma Current(cs: seq<Command>, before: Before, p: nat, k: nat, d: nat, at: Cursors)
      requires Underway(cs, before, p, k, d, at)
      ensures p <= k <= |cs| && (at.current == waiting.sentinel <==> k == |cs|)
      ensures k < |cs| ==> |at.current.data| == 1 && at.current.data[0] == cs[k]
    {
      StageCurrent(cs, incomingReliable, before, p, k, d, waiting.sentinel, waiting.nodes, dispatched.nodes, at,
                   incomingUnreliable, needsDispatch);
    }

    // A ready command is left pending.
    method Deliver(ghost cs: seq<Command>, ghost before: Before, ghost p: nat, ghost k: nat, ghost d: nat, at: Cursors)
        returns (at': Cursors)
      requires Underway(cs, before, p, k, d, at) && k < |cs| && Ready(cs[k], incomingReliable)
      modifies this`incomingUnreliable
      ensures Underway(cs, before, p, k + 1, d, at')
    {
      hide Stage, Ready, Passed, Kept;
      StageCurrent(cs, incomingReliable, before, p, k, d, waiting.sentinel, waiting.nodes, dispatched.nodes, at,
                   incomingUnreliable, needsDispatch);
      StageReady(cs, incomingReliable, before, p, k, d, waiting.sentinel, waiting.nodes, dispatched.nodes, at,
                 incomingUnreliable, needsDispatch);
      assert Joined(waiting.sentinel, waiting.nodes, Begin(cs, incomingReliable, p) + (k - p));
      if !at.current.data[0].unsequenced { incomingUnreliable := at.current.data[0].unreliable; }
      at' := at.(current := at.current.next);
    }

    // An incomplete or stale one stays: the run before it goes to the application, and the drop cursor
    // follows.
    method Keep(ghost cs: seq<Command>, ghost before: Before, ghost p: nat, ghost k: nat, ghost d: nat, at: Cursors)
        returns (at': Cursors, ghost d': nat)
      requires Underway(cs, before, p, k, d, at) && k < |cs|
      requires !Ready(cs[k], incomingReliable) && !Future(cs[k], incomingReliable)
      modifies this`needsDispatch, repr
      ensures Underway(cs, before, k + 1, k + 1, d', at') && AmongNodes(waiting.nodes, old(waiting.nodes))
    {
      Current(cs, before, p, k, d, at);
      var stale := at.current.data[0].reliable != incomingReliable;
      ghost var s := Begin(cs, incomingReliable, p);
      ghost var t := s + (k - p);
      StagePlaces(cs, incomingReliable, before, p, k, d, waiting.sentinel, waiting.nodes, dispatched.nodes, at,
                  incomingUnreliable, needsDispatch);
      StageKeep(cs, incomingReliable, before, p, k, d, waiting.sentinel, waiting.nodes, dispatched.nodes, at,
                incomingUnreliable, needsDispatch, s, t, DropCursor(stale, s, t, d));
      d' := DropCursor(stale, s, t, d);
      hide Stage, Ready, Future, Begin, DropCursor, AmongNodes;
      ghost var was := waiting.nodes;
      at' := Hold(at, stale, s, t, d);
      PartsAmong(was, s, t, 0);
    }

    method Hold(at: Cursors, stale: bool, ghost s: nat, ghost t: nat, ghost d: nat) returns (at': Cursors)
      requires Valid() && d <= s <= t < |waiting.nodes|
      requires at == Cursors(At(waiting.sentinel, waiting.nodes, s), waiting.nodes[t],
        At(waiting.sentinel, waiting.nodes, d))
      modifies this`needsDispatch, repr
      ensures Valid() && needsDispatch == (old(needsDispatch) || s < t)
      ensures waiting.nodes == old(waiting.nodes[..s]) + old(waiting.nodes[t..])
      ensures dispatched.nodes == old(dispatched.nodes) + old(waiting.nodes[s..t])
      ensures at'.start == at'.current == At(waiting.sentinel, waiting.nodes, s + 1)
      ensures at'.dropped == At(waiting.sentinel, waiting.nodes, DropCursor(stale, s, t, d))
    {
      var current, dropped := at.current, at.dropped;
      assert Joined(waiting.sentinel, waiting.nodes, t) && Joined(waiting.sentinel, waiting.nodes, t - 1);
      if !stale {
        if at.start != current {
          Splice(at.start, current, s, t);
          dropped := current;
        } else if dropped != current {
          dropped := current.previous;
        }
      } else {
        dropped := current.next;
        Splice(at.start, current, s, t);
      }
      assert Joined(waiting.sentinel, waiting.nodes, s);
      at' := Cursors(current.next, current.next, dropped);
    }

    // What the pass over commands cs comes to: those ready before the first future one are delivered
    // in order, and of the others there the survivors stay.
    ghost predicate Outcome(cs: seq<Command>, before: Before)
      reads this, repr
    {
      var n := Front(cs, incomingReliable);
      && Valid()
      && waiting.Contents() == Survivors(cs[..n], incomingReliable) + cs[n..]
      && dispatched.Contents() == before.sent + Delivered(cs[..n], incomingReliable)
      && incomingUnreliable == LastDelivered(cs[..n], incomingReliable, before.unreliable)
      && needsDispatch == (before.needs || Delivered(cs[..n], incomingReliable) != [])
    }

    // The end of the pass: the last run goes over too, and what is behind the drop cursor is freed.
    method Finish(ghost cs: seq<Command>, ghost before: Before, ghost p: nat, ghost k: nat, ghost d: nat, at: Cursors)
      requires Underway(cs, before, p, k, d, at) && (k == |cs| || Future(cs[k], incomingReliable))
      modifies this`needsDispatch, repr
      ensures Outcome(cs, before) && AmongNodes(waiting.nodes, old(waiting.nodes))
    {
      hide Stage, Begin, Front, Survivors, Delivered, LastDelivered, Values, Future, Ready, Passed, Kept, AmongNodes;
      Current(cs, before, p, k, d, at);
      ghost var s := Begin(cs, incomingReliable, p);
      ghost var t := s + (k - p);
      StagePlaces(cs, incomingReliable, before, p, k, d, waiting.sentinel, waiting.nodes, dispatched.nodes, at,
                  incomingUnreliable, needsDispatch);
      StageEnd(cs, incomingReliable, before, p, k, d, waiting.sentinel, waiting.nodes, dispatched.nodes, at,
               incomingUnreliable, needsDispatch, s, t, if s < t then s else d);
      ghost var was := waiting.nodes;
      Clear(at, s, t, d);
      PartsAmong(was, s, t, if s < t then s else d);
    }

    method Clear(at: Cursors, ghost s: nat, ghost t: nat, ghost d: nat)
      requires Valid() && d <= s <= t <= |waiting.nodes|
      requires at == Cursors(At(waiting.sentinel, waiting.nodes, s), At(waiting.sentinel, waiting.nodes, t),
        At(waiting.sentinel, waiting.nodes, d))
      modifies this`needsDispatch, repr
      ensures Valid() && needsDispatch == (old(needsDispatch) || s < t)
      ensures waiting.nodes == (old(waiting.nodes[..s]) + old(waiting.nodes[t..]))[if s < t then s else d..]
      ensures dispatched.nodes == old(dispatched.nodes) + old(waiting.nodes[s..t])
    {
      var dropped := at.dropped;
      if at.start != at.current { dropped := at.current; }
      Splice(at.start, at.current, s, t);
      RemoveBefore(dropped, if s < t then s else d);
    }

    lemma Begun()
      requires Valid()
      ensures var first := waiting.sentinel.next;
        Underway(waiting.Contents(), Before(dispatched.Contents(), incomingUnreliable, needsDispatch), 0, 0, 0,
          Cursors(first, first, first))
    {
      assert Joined(waiting.sentinel, waiting.nodes, -1);
      StageStart(Before(dispatched.Contents(), incomingUnreliable, needsDispatch), waiting.sentinel, waiting.nodes,
        dispatched.nodes,
                 incomingReliable);
      hide Stage, Passed;
    }

    lemma Lists()
      requires Valid()
      ensures waiting.Valid() && dispatched.Valid() && this !in repr
    {
    }

    // enet_peer_dispatch_incoming_unreliable_commands
    method DispatchUnreliable()
      requires Valid()
      modifies this`needsDispatch, this`incomingUnreliable, repr
      ensures Outcome(old(waiting.Contents()),
        Before(old(dispatched.Contents()), old(incomingUnreliable), old(needsDispatch)))
      ensures AmongNodes(waiting.nodes, old(waiting.nodes))
    {
      hide *;
      Lists();
      ghost var cs, before := waiting.Contents(), Before(dispatched.Contents(), incomingUnreliable, needsDispatch);
      ghost var was := waiting.nodes;
      Begun();
      StillAmong(was, was, was);
      var first := waiting.sentinel.next;
      var at := Cursors(first, first, first);
      ghost var p: nat, k: nat, d: nat := 0, 0, 0;
      while at.current != waiting.sentinel
        invariant Underway(cs, before, p, k, d, at) && AmongNodes(waiting.nodes, was)
        invariant repr == old(repr) && this !in repr
        decreases |cs| - k
      {
        Current(cs, before, p, k, d, at);
        ghost var now := waiting.nodes;
        var command := at.current.data[0];
        if Ready(command, incomingReliable) {
          at := Deliver(cs, before, p, k, d, at);
          k := k + 1;
        } else if Future(command, incomingReliable) {
          break;
        } else {
          at, d := Keep(cs, before, p, k, d, at);
          p, k := k + 1, k + 1;
        }
        StillAmong(waiting.nodes, now, was);
      }
      Current(cs, before, p, k, d, at);
      ghost var now := waiting.nodes;
      Finish(cs, before, p, k, d, at);
      StillAmong(waiting.nodes, now, was);
    }
  }

  lemma PartsAmong(a: seq<Node<Command>>, s: nat, t: nat, d: nat)
    requires s <= t <= |a| && d <= |a[..s] + a[t..]|
    ensures AmongNodes((a[..s] + a[t..])[d..], a) && AmongNodes(a[..s] + a[t..], a)
  {
  }

  lemma StillAmong(a: seq<Node<Command>>, b: seq<Node<Command>>, c: seq<Node<Command>>)
    ensures AmongNodes(a, a) && (AmongNodes(a, b) && AmongNodes(b, c) ==> AmongNodes(a, c))
  {
  }

  // --- What the pass does to the commands. ---

  lemma {:induction false} Sorted(cs: seq<Command>, current: u16)
    requires forall i :: 0 <= i < |cs| ==> !Future(cs[i], current)
    ensures multiset(cs) == multiset(Delivered(cs, current)) + multiset(Kept(cs, current))
    ensures forall c :: c in Delivered(cs, current) ==> Ready(c, current)
    ensures forall c :: c in Kept(cs, current) ==> Waiting(c, current) || Stale(c, current)
  {
    if cs != [] {
      var n := |cs| - 1;
      Sorted(cs[..n], current);
      assert cs == cs[..n] + [cs[n]];
    }
  }

  // What the pass frees: what it keeps no longer and does not deliver.
  function Dropped(cs: seq<Command>, current: u16): (gone: seq<Command>)
    ensures gone + Survivors(cs, current) == Kept(cs, current)
  {
    SurvivorsKept(cs, current);
    Kept(cs, current)[..|Kept(cs, current)| - |Survivors(cs, current)|]
  }

  // No command is duplicated or lost but those freed,
  lemma NothingLost(cs: seq<Command>, current: u16, n: nat)
    requires n == Front(cs, current)
    ensures multiset(cs) == multiset(Delivered(cs[..n], current)) + multiset(Survivors(cs[..n], current) + cs[n..])
                          + multiset(Dropped(cs[..n], current))
  {
    Sorted(cs[..n], current);
    hide *;
    Recount(cs, n, Delivered(cs[..n], current), Kept(cs[..n], current), Dropped(cs[..n], current),
      Survivors(cs[..n], current));
  }

  // and freed are only incomplete fragments and stale commands, delivered only complete ones.
  lemma NothingReadyDropped(ahead: seq<Command>, current: u16)
    requires forall i :: 0 <= i < |ahead| ==> !Future(ahead[i], current)
    ensures forall c :: c in Delivered(ahead, current) ==> Ready(c, current)
    ensures forall c :: c in Dropped(ahead, current) ==> Waiting(c, current) || Stale(c, current)
  {
    Sorted(ahead, current);
    hide *;
    assert forall c :: c in Dropped(ahead, current) ==> c in Dropped(ahead, current) + Survivors(ahead, current);
  }

  lemma Recount(cs: seq<Command>, n: nat, delivered: seq<Command>, kept: seq<Command>, gone: seq<Command>,
                stay: seq<Command>)
    requires n <= |cs| && kept == gone + stay && multiset(cs[..n]) == multiset(delivered) + multiset(kept)
    ensures multiset(cs) == multiset(delivered) + multiset(stay + cs[n..]) + multiset(gone)
  {
    assert cs == cs[..n] + cs[n..];
  }

  // Of a queue whose unsequenced commands all stand before the first future one, none is left.
  lemma NoUnsequencedLeft(cs: seq<Command>, current: u16, n: nat, c: Command)
    requires n == Front(cs, current) && forall i :: n <= i < |cs| ==> !cs[i].unsequenced
    requires c in Survivors(cs[..n], current) + cs[n..]
    ensures !c.unsequenced
  {
    StayStable(cs[..n], current);
    hide Survivors, Front, Future, Delivered;
    var stay := Survivors(cs[..n], current);
    assert c in stay || c in cs[n..];
  }

  // What is left ahead of the first future command is stable: a second pass changes nothing.
  lemma PassIsIdempotent(cs: seq<Command>, current: u16)
    ensures var n := Front(cs, current);
      var stay := Survivors(cs[..n], current);
      && Front(stay + cs[n..], current) == |stay|
      && Delivered(stay, current) == [] && Survivors(stay, current) == stay
  {
    var n := Front(cs, current);
    StayStable(cs[..n], current);
    hide Survivors, Delivered, Front, Future;
    FrontAfter(Survivors(cs[..n], current), cs[n..], current);
  }

  lemma StayStable(ahead: seq<Command>, current: u16)
    requires forall i :: 0 <= i < |ahead| ==> !Future(ahead[i], current)
    ensures var stay := Survivors(ahead, current);
      && (forall i :: 0 <= i < |stay| ==> Waiting(stay[i], current))
      && Delivered(stay, current) == [] && Survivors(stay, current) == stay
  {
    hide Future, Delivered, Waiting;
    var n, stay := |ahead|, Survivors(ahead, current);
    if |stay| == 2 {
      assert stay[0] == ahead[n - 2] && stay[1] == ahead[n - 1] && stay[0..] == stay;
    } else if |stay| == 1 {
      assert stay[0] == ahead[n - 1] && stay[0..] == stay;
    }
    NoneReady(Survivors(ahead, current), current);
  }

  lemma {:induction false} NoneReady(cs: seq<Command>, current: u16)
    requires forall i :: 0 <= i < |cs| ==> Waiting(cs[i], current)
    ensures Delivered(cs, current) == []
  {
    if cs != [] { NoneReady(cs[..|cs| - 1], current); }
  }

  lemma {:induction false} FrontAfter(stay: seq<Command>, rest: seq<Command>, current: u16)
    requires forall i :: 0 <= i < |stay| ==> Waiting(stay[i], current)
    requires rest != [] ==> Future(rest[0], current)
    ensures Front(stay + rest, current) == |stay|
    decreases |stay|
  {
    if stay != [] {
      assert (stay + rest)[0] == stay[0] && (stay + rest)[1..] == stay[1..] + rest;
      FrontAfter(stay[1..], rest, current);
    } else {
      assert stay + rest == rest;
    }
  }

  // --- What happens to incomplete fragments. ---

  // Of three in a row the first is freed, though it may still be completed.
  lemma EarlierFragmentFreed(current: u16)
    ensures var c, d, e :=
        Command(false, current, 1, 1, 0), Command(false, current, 2, 1, 0), Command(false, current, 3, 1, 0);
      && Front([c, d, e], current) == 3
      && Survivors([c, d, e], current) == [d, e] && Dropped([c, d, e], current) == [c]
  {
    var c, d, e := Command(false, current, 1, 1, 0), Command(false, current, 2, 1, 0), Command(false, current, 3, 1, 0);
    var cs := [c, d, e];
    assert cs[1..] == [d, e] && cs[2..] == [e] && cs[..2] == [c, d] && cs[..1] == [c];
    assert Front([e], current) == 1 && Front([d, e], current) == 2;
    assert Kept([c], current) == [c] && Kept([c, d], current) == [c, d] && Kept(cs, current) == cs;
  }

  // Command i of those passed stays in the queue.
  predicate Stays(ahead: seq<Command>, current: u16, i: nat) { i >= |ahead| - |Survivors(ahead, current)| }

  // It is one of the last two, and it and any behind it wait.
  predicate Trailing(ahead: seq<Command>, current: u16, i: nat) {
    i >= |ahead| - 2 && forall j :: i <= j < |ahead| ==> Waiting(ahead[j], current)
  }

  lemma SurvivorsLast(ahead: seq<Command>, current: u16)
    ensures var n, k := |Survivors(ahead, current)|, |ahead|;
      && n <= k && Survivors(ahead, current) == ahead[k - n..]
      && n ==
        if k == 0 || !Waiting(ahead[k - 1], current) then 0
        else if k == 1 || !Waiting(ahead[k - 2], current) then 1 else 2
  {
    hide Waiting;
  }

  lemma StaysWhere(ahead: seq<Command>, current: u16, i: nat)
    requires i < |ahead|
    ensures Stays(ahead, current, i) <==> Trailing(ahead, current, i)
  {
    SurvivorsLast(ahead, current);
    hide Waiting, Survivors;
  }

  // So a pass frees no incomplete fragment if and only if every one it meets is trailing.
  lemma AllFragmentsStay(ahead: seq<Command>, current: u16)
    ensures (forall i: nat :: i < |ahead| && Waiting(ahead[i], current) ==> Stays(ahead, current, i))
      <==> forall i: nat :: i < |ahead| && Waiting(ahead[i], current) ==> Trailing(ahead, current, i)
  {
    forall i: nat | i < |ahead| ensures Stays(ahead, current, i) <==> Trailing(ahead, current, i) {
      StaysWhere(ahead, current, i);
    }
    hide Waiting, Stays, Trailing;
  }
}
