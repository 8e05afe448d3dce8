/** Sharing a host's bandwidth: enet_host_bandwidth_throttle of src/enet/host.c, and the counts of
    connected peers that it rests on, kept by src/enet/peer.c and src/enet/protocol.c. */
module Throttle {
  import opened Words

  const SCALE := 32       // ENET_PEER_PACKET_THROTTLE_SCALE
  const INTERVAL := 1000  // ENET_HOST_BANDWIDTH_THROTTLE_INTERVAL
  const UNLIMITED: u32 := 0xffff_ffff
  const DEFAULT_THROTTLE := 32  // ENET_PEER_DEFAULT_PACKET_THROTTLE

  datatype State =
    | Disconnected | Connecting | AcknowledgingConnect | ConnectionPending | ConnectionSucceeded
    | Connected | DisconnectLater | Disconnecting | AcknowledgingDisconnect | Zombie

  datatype Peer = Peer(
    state: State, incomingBandwidth: u32, outgoingBandwidth: u32,
    outgoingEpoch: u32, incomingEpoch: u32,  // ...BandwidthThrottleEpoch
    incomingData: u32, outgoingData: u32,    // ...DataTotal
    limit: u32, throttle: u32)               // packetThrottleLimit, packetThrottle

  // A bandwidth-limit command to a peer.
  datatype Limits = Limits(peer: nat, incoming: u32, outgoing: u32)

  predicate Live(p: Peer) { p.state.Connected? || p.state.DisconnectLater? }

  // --- Sums over the peers. ---

  function Sum(xs: seq<nat>): nat { if xs == [] then 0 else Sum(xs[..|xs| - 1]) + xs[|xs| - 1] }

  lemma {:induction false} SumUpdate(xs: seq<nat>, i: nat, v: nat)
    requires i < |xs|
    ensures Sum(xs[i := v]) + xs[i] == Sum(xs) + v && xs[i] <= Sum(xs)
    decreases |xs|
  {
    var n := |xs| - 1;
    if i < n {
      SumUpdate(xs[..n], i, v);
      assert xs[i := v][..n] == xs[..n][i := v];
    } else {
      assert xs[i := v][..n] == xs[..n];
    }
  }

  lemma {:induction false} SumZero(xs: seq<nat>)
    requires forall i :: 0 <= i < |xs| ==> xs[i] == 0
    ensures Sum(xs) == 0
  {
    if xs != [] { SumZero(xs[..|xs| - 1]); }
  }

  lemma {:induction false} SumOver(xs: seq<nat>, ys: seq<nat>, k: nat)
    requires |xs| == |ys| && forall i :: 0 <= i < |xs| ==> xs[i] <= k * ys[i]
    ensures Sum(xs) <= k * Sum(ys)
    decreases |xs|
  {
    if xs != [] {
      var n := |xs| - 1;
      SumOver(xs[..n], ys[..n], k);
      assert k * Sum(ys) == k * Sum(ys[..n]) + k * ys[n];
    }
  }

  // Peers not yet settled in this call.
  predicate Open(p: Peer, now: u32) { Live(p) && p.outgoingEpoch != now }

  function Ones(ps: seq<Peer>, now: u32): seq<nat> {
    seq(|ps|, i requires 0 <= i < |ps| => if Open(ps[i], now) then 1 else 0)
  }

  function Loads(ps: seq<Peer>, now: u32): seq<nat> {
    seq(|ps|, i requires 0 <= i < |ps| => if Open(ps[i], now) then ps[i].outgoingData else 0)
  }

  function Count(ps: seq<Peer>, now: u32): nat { Sum(Ones(ps, now)) }
  function Load(ps: seq<Peer>, now: u32): nat { Sum(Loads(ps, now)) }

  // Settling an open peer takes it out of both sums.
  lemma Settle(ps: seq<Peer>, i: nat, p: Peer, now: u32)
    requires i < |ps| && Open(ps[i], now) && !Open(p, now)
    ensures Count(ps[i := p], now) == Count(ps, now) - 1
    ensures Load(ps[i := p], now) == Load(ps, now) - ps[i].outgoingData
  {
    SumUpdate(Ones(ps, now), i, 0);
    SumUpdate(Loads(ps, now), i, 0);
    assert Ones(ps[i := p], now) == Ones(ps, now)[i := 0];
    assert Loads(ps[i := p], now) == Loads(ps, now)[i := 0];
  }

  // --- What a peer may take, and what a round's throttle leaves it. ---

  function PerSecond(bandwidth: u32, elapsed: u32): u32 { bandwidth * elapsed % WORD / 1000 }

  function Share(bandwidth: u32, dataTotal: u32): u32 {
    if dataTotal <= bandwidth then SCALE else bandwidth * SCALE % WORD / dataTotal
  }

  // The peer's own bandwidth is less than what the throttle would send it.
  predicate Exceeds(p: Peer, elapsed: u32, throttle: u32) {
    p.incomingBandwidth != 0 && throttle * p.outgoingData % WORD / SCALE > PerSecond(p.incomingBandwidth, elapsed)
  }

  function OwnLimit(p: Peer, elapsed: u32): u32
    requires p.outgoingData > 0
  {
    PerSecond(p.incomingBandwidth, elapsed) * SCALE % WORD / p.outgoingData
  }

  // --- No 32-bit overflow. ---

  ghost predicate Moderate(p: Peer, elapsed: u32) {
    && p.incomingBandwidth * elapsed < WORD && p.outgoingData * SCALE < WORD
    && PerSecond(p.incomingBandwidth, elapsed) * SCALE < WORD
  }

  // A round never takes more than there is: at a throttle of B0 * SCALE / D0, what the settled peers
  // keep stays below B0 / D0 of what they would have been sent.
  ghost predicate Covered(b0: nat, d0: nat, b: nat, load: nat) {
    d0 > b0 ==> load <= d0 && b <= b0 && d0 * (b0 - b) <= b0 * (d0 - load)
  }

  lemma MayTake(b0: nat, d0: nat, b: nat, d: nat, load: nat, data: nat, own: nat, t: nat)
    requires Covered(b0, d0, b, load) && data <= load <= d && b - d == b0 - d0
    requires t == if d0 <= b0 then SCALE else b0 * SCALE / d0
    requires t * data / SCALE > own
    ensures own < data && own <= b && own <= d
    ensures Covered(b0, d0, b - own, load - data) && load - data <= d - own
  {
    if d0 > b0 {
      TakesLess(b0, d0, data, own, t);
      CoverMore(d0, b0 - b, own, b0, d0 - load, data);
      Beyond(d0, b0 - b + own, b0, d0 - load + data);
    }
  }

  lemma CoverMore(d0: nat, used: nat, own: nat, b0: nat, sent: nat, data: nat)
    requires d0 * used <= b0 * sent && d0 * own <= b0 * data
    ensures d0 * (used + own) <= b0 * (sent + data)
  {
  }

  lemma TakesLess(b0: nat, d0: nat, data: nat, own: nat, t: nat)
    requires d0 > b0 && t == b0 * SCALE / d0 && t * data / SCALE > own
    ensures own < data && d0 * own <= b0 * data
  {
    Cross(t, d0, b0 * SCALE, data, SCALE * (own + 1));
    assert SCALE * (own + 1) * d0 == SCALE * ((own + 1) * d0) && b0 * SCALE * data == SCALE * (b0 * data);
    assert (own + 1) * d0 == d0 * own + d0;
    if own >= data { Exceed(d0, own + 1, b0, data); }
  }

  lemma Cross(t: nat, d0: nat, b: nat, data: nat, c: nat)
    requires t * d0 <= b && t * data >= c
    ensures c * d0 <= b * data
  {
    assert (t * d0) * data <= b * data;
    assert c * d0 <= (t * data) * d0;
    assert (t * d0) * data == (t * data) * d0;
  }

  lemma Exceed(d0: nat, x: nat, b0: nat, y: nat)
    requires d0 > b0 && x > y
    ensures d0 * x > b0 * y
  {
    assert d0 * x >= d0 * (y + 1) == d0 * y + d0;
    assert d0 * y >= b0 * y;
  }

  lemma Above(d0: nat, x: nat, b0: nat, y: nat)
    requires d0 > 0 && y <= d0 && x > b0
    ensures d0 * x > b0 * y
  {
    assert d0 * x >= d0 * (b0 + 1) == d0 * b0 + d0;
    assert b0 * y <= b0 * d0;
  }

  lemma Beyond(d0: nat, x: nat, b0: nat, y: nat)
    requires d0 > 0 && y <= d0 && d0 * x <= b0 * y
    ensures x <= b0
  {
    if x > b0 { Above(d0, x, b0, y); }
  }

  // --- One peer's settlement. ---

  function Lesser(a: u32, b: u32): u32 { if a > b then b else a }

  // A peer that the throttle would send more than its own bandwidth is settled for this call.
  function Limited(p: Peer, now: u32, elapsed: u32): Peer
    requires p.outgoingData > 0
  {
    var limit := if OwnLimit(p, elapsed) == 0 then 1 else OwnLimit(p, elapsed);
    p.(limit := limit, throttle := Lesser(p.throttle, limit), outgoingEpoch := now, incomingData := 0,
      outgoingData := 0)
  }

  // The others get the common share.
  function Sharing(p: Peer, share: u32): Peer {
    p.(limit := share, throttle := Lesser(p.throttle, share), incomingData := 0, outgoingData := 0)
  }

  // What a peer's limit lets through of its data, in units of SCALE; a limit raised from 0 to 1 is not
  // accounted for.
  function Charge(p: Peer, elapsed: u32): nat
    requires p.outgoingData > 0
  {
    OwnLimit(p, elapsed) * p.outgoingData
  }

  lemma ChargeBound(p: Peer, elapsed: u32)
    requires p.outgoingData > 0 && Moderate(p, elapsed)
    ensures Charge(p, elapsed) <= SCALE * PerSecond(p.incomingBandwidth, elapsed)
  {
    hide PerSecond;
    Fits(PerSecond(p.incomingBandwidth, elapsed) * SCALE);
    QuotientTimes(PerSecond(p.incomingBandwidth, elapsed) * SCALE, p.outgoingData);
  }

  lemma QuotientTimes(a: nat, b: nat)
    requires b > 0
    ensures a / b * b <= a
  {
  }

  ghost predicate Settled(p: Peer, q: Peer, charge: nat, now: u32, elapsed: u32) {
    if !Open(p, now) then q == p && charge == 0
    else if Open(q, now) then q == p && charge == 0
    else p.outgoingData > PerSecond(p.incomingBandwidth, elapsed) && p.incomingBandwidth != 0
         && q == Limited(p, now, elapsed) && charge == Charge(p, elapsed)
  }

  // The state of the rounds: ps before the call, qs now; b and d what is left of the budget and of the
  // data total, `remaining` the peers still open.
  ghost predicate Fair(ps: seq<Peer>, qs: seq<Peer>, now: u32, elapsed: u32, capped: bool, total: nat,
                       b: nat, d: nat, remaining: nat, charges: seq<nat>) {
    && |qs| == |ps| == |charges| && remaining == Count(qs, now)
    && (forall i {:trigger qs[i]} :: 0 <= i < |ps| ==> Settled(ps[i], qs[i], charges[i], now, elapsed))
    && if capped then Load(qs, now) <= d && b <= total && Sum(charges) <= SCALE * (total - b) else b == d
  }

  // Within a round that began with b0 and d0.
  ghost predicate InRound(qs: seq<Peer>, now: u32, capped: bool, b0: nat, d0: nat, b: nat, d: nat) {
    capped ==> Covered(b0, d0, b, Load(qs, now)) && b - d == b0 - d0
  }

  ghost predicate NoneExceeds(qs: seq<Peer>, n: nat, now: u32, elapsed: u32, throttle: u32) {
    forall k :: 0 <= k < n <= |qs| && Open(qs[k], now) ==> !Exceeds(qs[k], elapsed, throttle)
  }

  // An open peer that exceeds its bandwidth can be settled: there is enough left.
  lemma Exceeding(qs: seq<Peer>, i: nat, now: u32, elapsed: u32, capped: bool, b0: nat, d0: nat, b: nat, d: nat,
                  throttle: u32)
    requires InRound(qs, now, capped, b0, d0, b, d) && (capped ==> Load(qs, now) <= d)
    requires i < |qs| && Open(qs[i], now) && Exceeds(qs[i], elapsed, throttle) && Moderate(qs[i], elapsed)
    requires throttle == if d0 <= b0 then SCALE else b0 * SCALE / d0
    requires !capped ==> d0 <= b0
    ensures Count(qs, now) > 0
    ensures var data, own := qs[i].outgoingData, PerSecond(qs[i].incomingBandwidth, elapsed);
      && own < data <= Load(qs, now)
      && (capped ==>
        own <= b && own <= d && Covered(b0, d0, b - own, Load(qs, now) - data) && Load(qs, now) - data <= d - own)
  {
    hide Sum, PerSecond, Covered, Exceeds, Moderate;
    SumUpdate(Ones(qs, now), i, 0);
    SumUpdate(Loads(qs, now), i, 0);
    var data, own := qs[i].outgoingData, PerSecond(qs[i].incomingBandwidth, elapsed);
    ThrottleSmall(b0, d0, throttle);
    Unwrapped(qs[i], elapsed, throttle);
    if capped { MayTake(b0, d0, b, d, Load(qs, now), data, own, throttle); }
  }

  lemma Unwrapped(p: Peer, elapsed: u32, throttle: u32)
    requires Exceeds(p, elapsed, throttle) && Moderate(p, elapsed) && throttle <= SCALE
    ensures throttle * p.outgoingData / SCALE > PerSecond(p.incomingBandwidth, elapsed)
    ensures p.outgoingData > PerSecond(p.incomingBandwidth, elapsed)
  {
    hide PerSecond;
    Unscaled(throttle, p.outgoingData);
    Fits(throttle * p.outgoingData);
  }

  lemma Unscaled(throttle: nat, data: nat)
    requires throttle <= SCALE
    ensures throttle * data <= SCALE * data && throttle * data / SCALE <= data
  {
  }

  lemma ThrottleSmall(b0: nat, d0: nat, throttle: nat)
    requires throttle == if d0 <= b0 then SCALE else b0 * SCALE / d0
    ensures throttle <= SCALE
  {
    if d0 > b0 { AtMost(b0 * SCALE, d0, SCALE); }
  }

  lemma AtMost(n: nat, d: nat, k: nat)
    requires d > 0 && n <= d * k
    ensures n / d <= k
  {
    if n / d > k { TooMuch(n, d, k); }
  }

  lemma TooMuch(n: nat, d: nat, k: nat)
    requires d > 0 && n / d >= k + 1
    ensures n > d * k
  {
    assert n >= d * (n / d) >= d * (k + 1) == d * k + d;
  }

  lemma SettleFair(ps: seq<Peer>, qs: seq<Peer>, i: nat, now: u32, elapsed: u32, capped: bool, total: nat,
                   b: nat, d: nat, remaining: nat, charges: seq<nat>, p: Peer, own: nat, b': nat, d': nat)
    requires Fair(ps, qs, now, elapsed, capped, total, b, d, remaining, charges)
    requires i < |qs| && p == qs[i] && Open(p, now) && p.incomingBandwidth != 0 && Moderate(p, elapsed)
    requires own == PerSecond(p.incomingBandwidth, elapsed) < p.outgoingData && remaining > 0
    requires if capped
      then own <= b && own <= d && Load(qs, now) - p.outgoingData <= d - own && b' == b - own && d' == d - own
      else b' == d'
    ensures Fair(ps, qs[i := Limited(p, now, elapsed)], now, elapsed, capped, total, b', d', remaining - 1,
                 charges[i := Charge(p, elapsed)])
  {
    assert Settled(ps[i], qs[i], charges[i], now, elapsed);
    Settle(qs, i, Limited(p, now, elapsed), now);
    SumUpdate(charges, i, Charge(p, elapsed));
    ChargeBound(p, elapsed);
    hide Sum, Charge, PerSecond, OwnLimit, Count, Load;
    assert SCALE * (total - b') == SCALE * (total - b) + SCALE * own || !capped;
  }

  // The common factor of a round: SCALE unless the data exceed the budget.
  lemma ShareIs(bandwidth: u32, dataTotal: u32)
    requires bandwidth * SCALE < WORD || dataTotal <= bandwidth
    ensures Share(bandwidth, dataTotal) == if dataTotal <= bandwidth then SCALE else bandwidth * SCALE / dataTotal
  {
    if dataTotal > bandwidth { Fits(bandwidth * SCALE); }
  }

  lemma Fits(n: nat)
    requires n < WORD
    ensures n % WORD == n
  {
  }

  ghost predicate AllModerate(ps: seq<Peer>, elapsed: u32) {
    forall i :: 0 <= i < |ps| && Live(ps[i]) ==> Moderate(ps[i], elapsed)
  }

  lemma OpenUnchanged(ps: seq<Peer>, qs: seq<Peer>, now: u32, elapsed: u32, capped: bool, total: nat,
                      b: nat, d: nat, remaining: nat, charges: seq<nat>, i: nat)
    requires Fair(ps, qs, now, elapsed, capped, total, b, d, remaining, charges) && i < |qs| && Open(qs[i], now)
    requires AllModerate(ps, elapsed)
    ensures qs[i] == ps[i] && Moderate(qs[i], elapsed)
  {
    assert Settled(ps[i], qs[i], charges[i], now, elapsed);
  }

  // --- ENetHost. ---

  datatype Budget = Budget(remaining: nat, bandwidth: u32, dataTotal: u32)

  // What a round is to keep, and needs to know.
  ghost predicate Ready(ps: seq<Peer>, qs: seq<Peer>, now: u32, elapsed: u32, capped: bool, total: nat, m: Budget,
                        charges: seq<nat>) {
    && Fair(ps, qs, now, elapsed, capped, total, m.bandwidth, m.dataTotal, m.remaining, charges)
    && AllModerate(ps, elapsed) && total * SCALE < WORD
  }

  class Host {
    var peers: seq<Peer>
    var connectedPeers: nat
    var bandwidthLimitedPeers: nat
    var outgoingBandwidth: u32
    var incomingBandwidth: u32
    var epoch: u32         // bandwidthThrottleEpoch
    var recalculate: bool  // recalculateBandwidthLimits

    // One round over the peers at one throttle.
    method OutgoingRound(now: u32, elapsed: u32, throttle: u32, m: Budget,
                         ghost ps: seq<Peer>, ghost capped: bool, ghost total: nat, ghost charges: seq<nat>)
        returns (needsAdjustment: bool, m': Budget, ghost charges': seq<nat>)
      requires Ready(ps, peers, now, elapsed, capped, total, m, charges) && throttle == Share(m.bandwidth, m.dataTotal)
      requires Spent(ps, peers, now, elapsed, capped, total, m)
      modifies this`peers
      ensures Ready(ps, peers, now, elapsed, capped, total, m', charges')
      ensures Spent(ps, peers, now, elapsed, capped, total, m')
      ensures needsAdjustment ==> m'.remaining < m.remaining
      ensures !needsAdjustment ==> m' == m && NoneExceeds(peers, |peers|, now, elapsed, throttle)
    {
      RoundStart(ps, peers, now, elapsed, capped, total, m, charges);
      needsAdjustment, m', charges' := false, m, charges;
      var i: nat := 0;
      while i < |peers|
        invariant i <= |peers| && Ready(ps, peers, now, elapsed, capped, total, m', charges')
        invariant Spent(ps, peers, now, elapsed, capped, total, m')
        invariant InRound(peers, now, capped, m.bandwidth, m.dataTotal, m'.bandwidth, m'.dataTotal)
        invariant if needsAdjustment then m'.remaining < m.remaining
          else m' == m && NoneExceeds(peers, i, now, elapsed, throttle)
      {
        hide Fair, AllModerate, InRound, Exceeds, Limited, Charge, PerSecond, Share, Spent;
        var p := peers[i];
        if Open(p, now) && Exceeds(p, elapsed, throttle) {
          var own := PerSecond(p.incomingBandwidth, elapsed);
          RoundStep(ps, peers, i, now, elapsed, capped, total, m, m', charges', throttle);
          SpentStep(ps, peers, i, now, elapsed, capped, total, m');
          peers := peers[i := Limited(p, now, elapsed)];
          charges' := charges'[i := Charge(p, elapsed)];
          needsAdjustment := true;
          m' := Taken(m', own);
        }
        i := i + 1;
      }
    }

    // The last loop of the outgoing half: the peers still open share what is left.
    method ShareOut(now: u32, share: u32)
      modifies this`peers
      ensures |peers| == |old(peers)|
      ensures forall k {:trigger peers[k]} :: 0 <= k < |peers| ==>
        peers[k] == if Open(old(peers)[k], now) then Sharing(old(peers)[k], share) else old(peers)[k]
    {
      ghost var qs := peers;
      var i: nat := 0;
      while i < |peers|
        invariant i <= |peers| == |qs|
        invariant forall k {:trigger peers[k]} :: 0 <= k < |peers| ==>
          peers[k] == if k < i && Open(qs[k], now) then Sharing(qs[k], share) else qs[k]
      {
        if Open(peers[i], now) { peers := peers[i := Sharing(peers[i], share)]; }
        i := i + 1;
      }
    }

    // The data total of the connected peers.
    method DataTotal() returns (dataTotal: u32)
      ensures dataTotal == Sum(LiveLoads(peers)) % WORD
    {
      dataTotal := 0;
      var i: nat := 0;
      assert LiveLoads(peers)[..0] == [];
      while i < |peers|
        invariant i <= |peers| && dataTotal == Sum(LiveLoads(peers)[..i]) % WORD
      {
        assert LiveLoads(peers)[..i + 1][..i] == LiveLoads(peers)[..i];
        if Live(peers[i]) { dataTotal := (dataTotal + peers[i].outgoingData) % WORD; }
        i := i + 1;
      }
      assert LiveLoads(peers)[..i] == LiveLoads(peers);
    }

    // The counts are those of the peers.
    ghost predicate Counted()
      reads this
    {
      connectedPeers == Sum(LiveOnes(peers)) && bandwidthLimitedPeers == Sum(LimitedOnes(peers))
    }

    // The outgoing half of enet_host_bandwidth_throttle, `elapsed` being the time since the last call.
    method ThrottleOutgoing(now: u32, elapsed: u32) returns (ghost share: u32, ghost charges: seq<nat>)
      requires Counted() && connectedPeers > 0 && AllModerate(peers, elapsed)
      requires forall i :: 0 <= i < |peers| && Live(peers[i]) ==> peers[i].outgoingEpoch != now
      requires outgoingBandwidth * elapsed < WORD && PerSecond(outgoingBandwidth, elapsed) * SCALE < WORD
      requires Sum(LiveLoads(peers)) < WORD
      modifies this`peers
      ensures Shared(old(peers), peers, now, elapsed, share, charges)
      ensures outgoingBandwidth != 0 ==> Sum(charges) <= SCALE * PerSecond(outgoingBandwidth, elapsed)
      ensures outgoingBandwidth == 0 ==> share == SCALE
      ensures outgoingBandwidth != 0 ==>
        GivenOut(old(peers), peers, now, elapsed, PerSecond(outgoingBandwidth, elapsed), share)
      ensures Granted(old(peers), peers, now, elapsed)
    {
      ghost var ps, capped, total := peers, outgoingBandwidth != 0, PerSecond(outgoingBandwidth, elapsed);
      var needsAdjustment := bandwidthLimitedPeers > 0;
      var m := Budget(connectedPeers, UNLIMITED, UNLIMITED);
      if outgoingBandwidth != 0 {
        var dataTotal := DataTotal();
        m := Budget(connectedPeers, PerSecond(outgoingBandwidth, elapsed), dataTotal);
      }
      charges := seq(|ps|, _ => 0);
      AtStart(ps, now, elapsed, capped, total, m, charges);
      NothingSpent(ps, now, elapsed, capped, total, m);
      if !needsAdjustment { NoneLimited(ps, now, elapsed, Share(m.bandwidth, m.dataTotal)); }
      hide Ready, Share, Spent;
      while m.remaining > 0 && needsAdjustment
        invariant Ready(ps, peers, now, elapsed, capped, total, m, charges)
        invariant Spent(ps, peers, now, elapsed, capped, total, m)
        invariant !needsAdjustment ==> NoneExceeds(peers, |peers|, now, elapsed, Share(m.bandwidth, m.dataTotal))
        decreases m.remaining, needsAdjustment
      {
        var throttle := Share(m.bandwidth, m.dataTotal);
        needsAdjustment, m, charges := OutgoingRound(now, elapsed, throttle, m, ps, capped, total, charges);
      }
      share := Share(m.bandwidth, m.dataTotal);
      ghost var qs := peers;
      if m.remaining > 0 {
        ShareOut(now, Share(m.bandwidth, m.dataTotal));
      } else {
        NoneLeft(ps, now, elapsed, capped, total, m, charges);
      }
      SharedOut(ps, qs, peers, now, elapsed, capped, total, m, charges, share);
      charges := Added(charges, Extra(qs, now, share));
      if capped { AllGivenOut(ps, qs, peers, now, elapsed, total, m, share); }
      AllGranted(ps, peers, now, elapsed, share, charges);
    }

    // One round of the incoming half at one share.
    method IncomingRound(now: u32, limit: u32, bandwidth: u32, remaining: nat, ghost ps: seq<Peer>, ghost total: nat)
        returns (needsAdjustment: bool, bandwidth': u32, remaining': nat)
      requires Level(ps, peers, now, limit, total, bandwidth, remaining)
      modifies this`peers
      ensures Level(ps, peers, now, limit, total, bandwidth', remaining')
      ensures needsAdjustment ==> remaining' < remaining
      ensures !needsAdjustment ==>
        bandwidth' == bandwidth && remaining' == remaining && NoneModest(peers, |peers|, now, limit)
    {
      needsAdjustment, bandwidth', remaining' := false, bandwidth, remaining;
      var i: nat := 0;
      while i < |peers|
        invariant i <= |peers| && Level(ps, peers, now, limit, total, bandwidth', remaining')
        invariant if needsAdjustment then remaining' < remaining
          else bandwidth' == bandwidth && remaining' == remaining && NoneModest(peers, i, now, limit)
      {
        hide Level;
        var p := peers[i];
        if Unsettled(p, now) && Modest(p, limit) {
          SettleModest(ps, peers, i, now, limit, total, bandwidth', remaining');
          peers := peers[i := p.(incomingEpoch := now)];
          needsAdjustment, remaining' := true, remaining' - 1;
          bandwidth' := (bandwidth' - p.outgoingBandwidth) % WORD;
        }
        i := i + 1;
      }
    }

    // The share of the incoming bandwidth for the peers that ask for at least as much.
    method ThrottleIncoming(now: u32) returns (limit: u32)
      requires Counted()
      requires forall i :: 0 <= i < |peers| && Live(peers[i]) ==> peers[i].incomingEpoch != now
      modifies this`peers
      ensures incomingBandwidth == 0 ==> limit == 0 && peers == old(peers)
      ensures incomingBandwidth != 0 ==> MaxMin(old(peers), peers, now, limit, incomingBandwidth)
    {
      var remaining, bandwidth, needsAdjustment := connectedPeers, incomingBandwidth, true;
      limit := 0;
      ghost var ps, total := peers, incomingBandwidth as nat;
      LevelAtStart(ps, now, bandwidth, remaining);
      hide *;
      if bandwidth != 0 {
        while remaining > 0 && needsAdjustment
          invariant Level(ps, peers, now, limit, total, bandwidth, remaining)
          invariant needsAdjustment ||
            (remaining > 0 && limit == Portion(bandwidth, remaining) && NoneModest(peers, |peers|, now, limit))
          decreases remaining, needsAdjustment
        {
          var limit' := Portion(bandwidth, remaining);
          Raise(ps, peers, now, limit, limit', total, bandwidth, remaining);
          limit := limit';
          needsAdjustment, bandwidth, remaining := IncomingRound(now, limit, bandwidth, remaining, ps, total);
        }
        LevelAtEnd(ps, peers, now, limit, total, bandwidth, remaining);
      }
    }

    // The commands that tell every connected peer its limits.
    method SendLimits(now: u32, limit: u32) returns (commands: seq<Limits>)
      ensures commands == Limitings(peers, now, limit, outgoingBandwidth)
      ensures Told(commands, peers, now, limit, outgoingBandwidth)
      ensures Sum(Incoming(commands)) == Sum(Assigned(peers, now, limit))
    {
      LimitingsTell(peers, now, limit, outgoingBandwidth);
      LimitingsSum(peers, now, limit, outgoingBandwidth);
      hide Told, Incoming, Assigned, Sum;
      commands := [];
      var i: nat := 0;
      while i < |peers|
        invariant i <= |peers| && commands == Limitings(peers[..i], now, limit, outgoingBandwidth)
      {
        assert peers[..i + 1][..i] == peers[..i];
        if Live(peers[i]) {
          var incoming := if peers[i].incomingEpoch == now then peers[i].outgoingBandwidth else limit;
          commands := commands + [Limits(i, incoming, outgoingBandwidth)];
        }
        i := i + 1;
      }
      assert peers[..i] == peers;
    }

    ghost predicate Fresh(now: u32)
      reads this
    {
      forall i :: 0 <= i < |peers| && Live(peers[i]) ==> peers[i].outgoingEpoch != now && peers[i].incomingEpoch != now
    }

    ghost predicate NoOverflow(elapsed: u32)
      reads this
    {
      && AllModerate(peers, elapsed) && Sum(LiveLoads(peers)) < WORD
      && outgoingBandwidth * elapsed < WORD && PerSecond(outgoingBandwidth, elapsed) * SCALE < WORD
    }

    // enet_host_bandwidth_throttle at the time `now`; `mid` are the peers after the outgoing half.
    method Throttle(now: u32)
        returns (commands: seq<Limits>, ghost mid: seq<Peer>, ghost share: u32, ghost charges: seq<nat>, limit: u32)
      requires Counted()
      requires var elapsed := (now - epoch) % WORD;
        elapsed >= INTERVAL && connectedPeers > 0 ==> Fresh(now) && NoOverflow(elapsed)
      modifies this
      ensures Counted() && connectedPeers == old(connectedPeers) && bandwidthLimitedPeers == old(bandwidthLimitedPeers)
      ensures outgoingBandwidth == old(outgoingBandwidth) && incomingBandwidth == old(incomingBandwidth)
      ensures epoch == if (now - old(epoch)) % WORD < 1000 then old(epoch) else now
      ensures var elapsed := (now - old(epoch)) % WORD;
        if elapsed < 1000 || connectedPeers == 0
          then peers == old(peers) && recalculate == old(recalculate) && commands == []
        else
          && Shared(old(peers), mid, now, elapsed, share, charges)
          && (if outgoingBandwidth == 0 then share == SCALE
            else (
              && Sum(charges) <= SCALE * PerSecond(outgoingBandwidth, elapsed)
              && GivenOut(old(peers), mid, now, elapsed, PerSecond(outgoingBandwidth, elapsed), share)))
          && Granted(old(peers), mid, now, elapsed)
          && !recalculate
          && (!old(recalculate) ==> peers == mid && commands == [])
          && (old(recalculate) ==> commands == Limitings(peers, now, limit, outgoingBandwidth))
          && (old(recalculate) && incomingBandwidth == 0 ==> limit == 0 && peers == mid)
          && (old(recalculate) && incomingBandwidth != 0 ==> MaxMin(mid, peers, now, limit, incomingBandwidth))
    {
      commands, mid, share, charges, limit := [], peers, 0, [], 0;
      var elapsed := (now - epoch) % WORD;
      if elapsed < INTERVAL { return; }
      epoch := now;
      if connectedPeers == 0 { return; }
      share, charges := ThrottleOutgoing(now, elapsed);
      mid := peers;
      SharedKeeps(old(peers), mid, now, elapsed, share, charges);
      if recalculate {
        recalculate := false;
        limit := ThrottleIncoming(now);
        if incomingBandwidth != 0 { LeveledKeeps(mid, peers, now, limit); }
        commands := SendLimits(now, limit);
      }
    }

    // --- The counts of connected peers. ---

    // enet_peer_on_connect, for a peer about to be connected
    method OnConnect(i: nat)
      requires i < |peers|
      modifies this`connectedPeers, this`bandwidthLimitedPeers
      ensures connectedPeers == old(connectedPeers) + (if Live(peers[i]) then 0 else 1)
      ensures bandwidthLimitedPeers == old(bandwidthLimitedPeers)
        + (if Live(peers[i]) || peers[i].incomingBandwidth == 0 then 0 else 1)
    {
      if !Live(peers[i]) {
        if peers[i].incomingBandwidth != 0 { bandwidthLimitedPeers := bandwidthLimitedPeers + 1; }
        connectedPeers := connectedPeers + 1;
      }
    }

    // enet_peer_on_disconnect, for a peer about to be disconnected
    method OnDisconnect(i: nat)
      requires i < |peers| && Counted()
      modifies this`connectedPeers, this`bandwidthLimitedPeers
      ensures connectedPeers == old(connectedPeers) - (if Live(peers[i]) then 1 else 0)
      ensures bandwidthLimitedPeers == old(bandwidthLimitedPeers)
        - (if Live(peers[i]) && peers[i].incomingBandwidth != 0 then 1 else 0)
    {
      CountsUpdate(peers, i, peers[i]);
      if Live(peers[i]) {
        if peers[i].incomingBandwidth != 0 { bandwidthLimitedPeers := bandwidthLimitedPeers - 1; }
        connectedPeers := connectedPeers - 1;
      }
    }

    method ChangeState(i: nat, state: State)
      requires i < |peers| && Counted()
      modifies this`peers, this`connectedPeers, this`bandwidthLimitedPeers
      ensures Counted() && peers == old(peers)[i := old(peers)[i].(state := state)]
    {
      CountsUpdate(peers, i, peers[i].(state := state));
      if state.Connected? || state.DisconnectLater? { OnConnect(i); } else { OnDisconnect(i); }
      peers := peers[i := peers[i].(state := state)];
    }

    // enet_peer_reset
    method Reset(i: nat)
      requires i < |peers| && Counted()
      modifies this`peers, this`connectedPeers, this`bandwidthLimitedPeers
      ensures Counted() && peers == old(peers)[i := Peer(Disconnected, 0, 0, 0, 0, 0, 0, SCALE, DEFAULT_THROTTLE)]
    {
      CountsUpdate(peers, i, Peer(Disconnected, 0, 0, 0, 0, 0, 0, SCALE, DEFAULT_THROTTLE));
      OnDisconnect(i);
      peers := peers[i := Peer(Disconnected, 0, 0, 0, 0, 0, 0, SCALE, DEFAULT_THROTTLE)];
    }

    // A peer not yet connected takes the bandwidths of a connect or verify-connect command uncounted.
    method SetBandwidths(i: nat, incoming: u32, outgoing: u32)
      requires i < |peers| && Counted() && !Live(peers[i])
      modifies this`peers
      ensures Counted()
      ensures peers == old(peers)[i := old(peers)[i].(incomingBandwidth := incoming, outgoingBandwidth := outgoing)]
    {
      CountsUpdate(peers, i, peers[i].(incomingBandwidth := incoming, outgoingBandwidth := outgoing));
      peers := peers[i := peers[i].(incomingBandwidth := incoming, outgoingBandwidth := outgoing)];
    }

    method HandleBandwidthLimit(i: nat, incoming: u32, outgoing: u32) returns (ok: bool)
      requires i < |peers| && Counted()
      modifies this`peers, this`bandwidthLimitedPeers
      ensures Counted() && ok == Live(old(peers)[i])
      ensures peers ==
        if ok then old(peers)[i := old(peers)[i].(incomingBandwidth := incoming, outgoingBandwidth := outgoing)]
        else old(peers)
    {
      if !Live(peers[i]) { return false; }
      CountsUpdate(peers, i, peers[i].(incomingBandwidth := incoming, outgoingBandwidth := outgoing));
      if peers[i].incomingBandwidth != 0 { bandwidthLimitedPeers := bandwidthLimitedPeers - 1; }
      peers := peers[i := peers[i].(incomingBandwidth := incoming, outgoingBandwidth := outgoing)];
      if peers[i].incomingBandwidth != 0 { bandwidthLimitedPeers := bandwidthLimitedPeers + 1; }
      return true;
    }

    lemma NoneLeft(ps: seq<Peer>, now: u32, elapsed: u32, capped: bool, total: nat, m: Budget, charges: seq<nat>)
      requires Ready(ps, peers, now, elapsed, capped, total, m, charges) && m.remaining == 0
      ensures |charges| == |peers| && forall i :: 0 <= i < |peers| ==> !Open(peers[i], now)
    {
      NoneOpen(peers, now);
    }
  }

  function LiveLoads(ps: seq<Peer>): seq<nat> {
    seq(|ps|, i requires 0 <= i < |ps| => if Live(ps[i]) then ps[i].outgoingData else 0)
  }

  function LiveOnes(ps: seq<Peer>): seq<nat> {
    seq(|ps|, i requires 0 <= i < |ps| => if Live(ps[i]) then 1 else 0)
  }

  function LimitedOnes(ps: seq<Peer>): seq<nat> {
    seq(|ps|, i requires 0 <= i < |ps| => if Live(ps[i]) && ps[i].incomingBandwidth != 0 then 1 else 0)
  }

  // What each peer is left with: settled at its own bandwidth, or the common share, which then does not
  // exceed it.
  ghost predicate Shared(ps: seq<Peer>, qs: seq<Peer>, now: u32, elapsed: u32, share: u32, charges: seq<nat>) {
    && |qs| == |ps| == |charges|
    && forall i {:trigger qs[i]} :: 0 <= i < |ps| ==> SharedOne(ps[i], qs[i], now, elapsed, share, charges[i])
  }

  ghost predicate SharedOne(p: Peer, q: Peer, now: u32, elapsed: u32, share: u32, charge: nat) {
    if !Live(p) then q == p && charge == 0
    else if q.outgoingEpoch == now then
      p.outgoingData > PerSecond(p.incomingBandwidth, elapsed) && p.incomingBandwidth != 0
      && q == Limited(p, now, elapsed) && charge == Charge(p, elapsed)
    else q == Sharing(p, share) && !Exceeds(p, elapsed, share) && charge == share * p.outgoingData
  }

  // What is charged is what the limit lets through, but for a limit raised from 0 to 1.
  lemma LimitIsCharged(p: Peer, q: Peer, now: u32, elapsed: u32, share: u32, charge: nat)
    requires SharedOne(p, q, now, elapsed, share, charge) && Live(p)
    ensures q.limit * p.outgoingData == charge
      || (q.limit == 1 && charge == 0 && PerSecond(q.incomingBandwidth, elapsed) < p.outgoingData)
  {
    hide PerSecond;
    if q.outgoingEpoch == now && OwnLimit(p, elapsed) == 0 { assert 0 * p.outgoingData == 0; }
  }

  // A connected peer's throttle goes down to its new limit, if it is above it, and its data are counted anew;
  // the limit is the common one, or a peer's own of at least 1. Nothing else changes but the time of settling.
  lemma SharedIs(p: Peer, q: Peer, now: u32, elapsed: u32, share: u32, charge: nat)
    requires SharedOne(p, q, now, elapsed, share, charge) && Live(p)
    ensures q == p.(limit := q.limit, throttle := q.throttle, outgoingEpoch := q.outgoingEpoch,
                    incomingData := 0, outgoingData := 0)
    ensures q.throttle <= q.limit && (p.throttle <= q.limit ==> q.throttle == p.throttle)
      && (p.throttle > q.limit ==> q.throttle == q.limit)
    ensures if q.outgoingEpoch == now then q.limit >= 1 else q.limit == share && q.outgoingEpoch == p.outgoingEpoch
  {
    hide PerSecond, OwnLimit;
  }

  lemma AtStart(ps: seq<Peer>, now: u32, elapsed: u32, capped: bool, total: nat, m: Budget, charges: seq<nat>)
    requires forall i :: 0 <= i < |ps| && Live(ps[i]) ==> ps[i].outgoingEpoch != now
    requires AllModerate(ps, elapsed) && total * SCALE < WORD && charges == seq(|ps|, _ => 0)
    requires m.remaining == Sum(LiveOnes(ps)) && Sum(LiveLoads(ps)) < WORD
    requires if capped then m.bandwidth == total && m.dataTotal == Sum(LiveLoads(ps)) % WORD
      else m.bandwidth == m.dataTotal
    ensures Ready(ps, ps, now, elapsed, capped, total, m, charges)
  {
    assert Ones(ps, now) == LiveOnes(ps) && Loads(ps, now) == LiveLoads(ps);
    SumZero(charges);
  }

  lemma NoneLimited(ps: seq<Peer>, now: u32, elapsed: u32, throttle: u32)
    requires Sum(LimitedOnes(ps)) == 0
    ensures NoneExceeds(ps, |ps|, now, elapsed, throttle)
  {
    forall i | 0 <= i < |ps| && Live(ps[i]) ensures ps[i].incomingBandwidth == 0 { SumUpdate(LimitedOnes(ps), i, 0); }
  }

  lemma NoneOpen(qs: seq<Peer>, now: u32)
    requires Count(qs, now) == 0
    ensures forall i :: 0 <= i < |qs| ==> !Open(qs[i], now)
  {
    forall i | 0 <= i < |qs| ensures !Open(qs[i], now) { SumUpdate(Ones(qs, now), i, 0); }
  }

  // The charges with those of the peers that share what is left.
  ghost function Extra(qs: seq<Peer>, now: u32, share: u32): seq<nat> {
    seq(|qs|, i requires 0 <= i < |qs| => if Open(qs[i], now) then share * qs[i].outgoingData else 0)
  }

  ghost function Added(xs: seq<nat>, ys: seq<nat>): seq<nat>
    requires |xs| == |ys|
  {
    seq(|xs|, i requires 0 <= i < |xs| => xs[i] + ys[i])
  }

  lemma {:induction false} SumAdded(xs: seq<nat>, ys: seq<nat>)
    requires |xs| == |ys|
    ensures Sum(Added(xs, ys)) == Sum(xs) + Sum(ys)
    decreases |xs|
  {
    if xs != [] {
      var n := |xs| - 1;
      SumAdded(xs[..n], ys[..n]);
      assert Added(xs, ys)[..n] == Added(xs[..n], ys[..n]);
    }
  }

  lemma ShareCovered(b: u32, d: u32, load: nat)
    requires b * SCALE < WORD && load <= d
    ensures Share(b, d) * load <= SCALE * b
  {
    hide Share;
    ShareIs(b, d);
    if d > b {
      QuotientTimes(b * SCALE, d);
      LessTimes(Share(b, d), load, d);
    }
  }

  lemma LessTimes(a: nat, b: nat, c: nat)
    requires b <= c
    ensures a * b <= a * c
  {
    assert a * c == a * b + a * (c - b);
  }

  lemma SharedOut(ps: seq<Peer>, qs: seq<Peer>, rs: seq<Peer>, now: u32, elapsed: u32, capped: bool, total: nat,
                  m: Budget, charges: seq<nat>, share: u32)
    requires Ready(ps, qs, now, elapsed, capped, total, m, charges) && share == Share(m.bandwidth, m.dataTotal)
    requires forall i :: 0 <= i < |ps| && Live(ps[i]) ==> ps[i].outgoingEpoch != now
    requires m.remaining == 0 || NoneExceeds(qs, |qs|, now, elapsed, share)
    requires |rs| == |qs| && forall i {:trigger rs[i]} :: 0 <= i < |qs| ==>
      rs[i] == if Open(qs[i], now) then Sharing(qs[i], share) else qs[i]
    ensures |charges| == |qs| && Shared(ps, rs, now, elapsed, share, Added(charges, Extra(qs, now, share)))
    ensures capped ==> Sum(Added(charges, Extra(qs, now, share))) <= SCALE * total
    ensures !capped ==> share == SCALE
  {
    if m.remaining == 0 { NoneOpen(qs, now); }
    var extra := Extra(qs, now, share);
    SharedEach(ps, qs, rs, now, elapsed, capped, total, m, charges, share);
    if capped {
      SumAdded(charges, extra);
      SumOver(extra, Loads(qs, now), share);
      hide Sum, Share;
      ShareCovered(m.bandwidth, m.dataTotal, Load(qs, now));
      assert SCALE * (total - m.bandwidth) + SCALE * m.bandwidth == SCALE * total;
    }
  }

  lemma SharedEach(ps: seq<Peer>, qs: seq<Peer>, rs: seq<Peer>, now: u32, elapsed: u32, capped: bool, total: nat,
                   m: Budget, charges: seq<nat>, share: u32)
    requires Ready(ps, qs, now, elapsed, capped, total, m, charges)
    requires forall i :: 0 <= i < |ps| && Live(ps[i]) ==> ps[i].outgoingEpoch != now
    requires NoneExceeds(qs, |qs|, now, elapsed, share)
    requires |rs| == |qs| && forall i {:trigger rs[i]} :: 0 <= i < |qs| ==>
      rs[i] == if Open(qs[i], now) then Sharing(qs[i], share) else qs[i]
    ensures |charges| == |qs| && Shared(ps, rs, now, elapsed, share, Added(charges, Extra(qs, now, share)))
  {
    hide Sum, Exceeds, Charge, Moderate;
    var all := Added(charges, Extra(qs, now, share));
    forall i | 0 <= i < |ps| ensures SharedOne(ps[i], rs[i], now, elapsed, share, all[i]) {
      assert Settled(ps[i], qs[i], charges[i], now, elapsed);
    }
  }

  function Taken(m: Budget, own: u32): Budget
    requires m.remaining > 0
  {
    Budget(m.remaining - 1, (m.bandwidth - own) % WORD, (m.dataTotal - own) % WORD)
  }

  lemma RoundStart(ps: seq<Peer>, qs: seq<Peer>, now: u32, elapsed: u32, capped: bool, total: nat, m: Budget,
                   charges: seq<nat>)
    requires Ready(ps, qs, now, elapsed, capped, total, m, charges)
    ensures InRound(qs, now, capped, m.bandwidth, m.dataTotal, m.bandwidth, m.dataTotal)
    ensures |charges| == |qs|
  {
    hide Settled, Covered, Load, Sum, Count, AllModerate;
    if capped { CoveredStart(m.bandwidth, m.dataTotal, Load(qs, now)); }
  }

  lemma CoveredStart(b: nat, d: nat, load: nat)
    requires load <= d
    ensures Covered(b, d, b, load)
  {
    NotNegative(b, d - load);
  }

  lemma NotNegative(a: nat, b: nat)
    ensures 0 <= a * b
  {
  }

  lemma RoundStep(ps: seq<Peer>, qs: seq<Peer>, i: nat, now: u32, elapsed: u32, capped: bool, total: nat, m: Budget,
                  m': Budget, charges: seq<nat>, throttle: u32)
    requires Ready(ps, qs, now, elapsed, capped, total, m', charges)
    requires InRound(qs, now, capped, m.bandwidth, m.dataTotal, m'.bandwidth, m'.dataTotal)
    requires i < |qs| && Open(qs[i], now) && Exceeds(qs[i], elapsed, throttle)
    requires throttle == Share(m.bandwidth, m.dataTotal)
    requires capped ==> m.bandwidth <= total
    requires !capped ==> m.bandwidth == m.dataTotal
    ensures qs[i].outgoingData > 0 && m'.remaining > 0
    ensures capped ==> PerSecond(qs[i].incomingBandwidth, elapsed) <= m'.bandwidth
    ensures capped ==> PerSecond(qs[i].incomingBandwidth, elapsed) <= m'.dataTotal
    ensures var own := PerSecond(qs[i].incomingBandwidth, elapsed);
      && Ready(ps, qs[i := Limited(qs[i], now, elapsed)], now, elapsed, capped, total, Taken(m', own),
               charges[i := Charge(qs[i], elapsed)])
      && InRound(qs[i := Limited(qs[i], now, elapsed)], now, capped, m.bandwidth, m.dataTotal,
                 Taken(m', own).bandwidth, Taken(m', own).dataTotal)
  {
    hide Covered, Moderate, PerSecond, Sum, Share, Count, Load, Settled, Charge, Exceeds, Limited;
    var p, own := qs[i], PerSecond(qs[i].incomingBandwidth, elapsed);
    ShareIs(m.bandwidth, m.dataTotal);
    OpenUnchanged(ps, qs, now, elapsed, capped, total, m'.bandwidth, m'.dataTotal, m'.remaining, charges, i);
    Exceeding(qs, i, now, elapsed, capped, m.bandwidth, m.dataTotal, m'.bandwidth, m'.dataTotal, throttle);
    var q := Limited(p, now, elapsed);
    LimitedCloses(p, now, elapsed);
    Settle(qs, i, q, now);
    TakenIs(m', own);
    var t := Taken(m', own);
    ExceedsLimited(p, elapsed, throttle);
    SettleFair(ps, qs, i, now, elapsed, capped, total, m'.bandwidth, m'.dataTotal, m'.remaining, charges, p, own,
      t.bandwidth, t.dataTotal);
  }

  // --- What is given out. ---

  // The own bandwidths of the peers settled in this call; ps before, qs now.
  ghost function Owns(ps: seq<Peer>, qs: seq<Peer>, now: u32, elapsed: u32): seq<nat>
    requires |qs| == |ps|
  {
    seq(|ps|, i requires 0 <= i < |ps| =>
      if Live(ps[i]) && qs[i].outgoingEpoch == now then PerSecond(ps[i].incomingBandwidth, elapsed) else 0)
  }

  // They have been taken from both the budget and the data total.
  ghost predicate Spent(ps: seq<Peer>, qs: seq<Peer>, now: u32, elapsed: u32, capped: bool, total: nat, m: Budget) {
    && |qs| == |ps| && (forall i {:trigger qs[i]} :: 0 <= i < |ps| && Open(qs[i], now) ==> qs[i] == ps[i])
    && var own := Sum(Owns(ps, qs, now, elapsed));
      capped ==> m.bandwidth + own == total && m.dataTotal + own == Sum(LiveLoads(ps))
  }

  lemma NothingSpent(ps: seq<Peer>, now: u32, elapsed: u32, capped: bool, total: nat, m: Budget)
    requires forall i :: 0 <= i < |ps| && Live(ps[i]) ==> ps[i].outgoingEpoch != now
    requires capped ==> m.bandwidth == total && m.dataTotal == Sum(LiveLoads(ps)) % WORD
    requires Sum(LiveLoads(ps)) < WORD
    ensures Spent(ps, ps, now, elapsed, capped, total, m)
  {
    hide PerSecond;
    SumZero(Owns(ps, ps, now, elapsed));
    Fits(Sum(LiveLoads(ps)));
  }

  lemma SpentStep(ps: seq<Peer>, qs: seq<Peer>, i: nat, now: u32, elapsed: u32, capped: bool, total: nat, m: Budget)
    requires Spent(ps, qs, now, elapsed, capped, total, m)
    requires i < |qs| && Open(qs[i], now) && qs[i].outgoingData > 0 && m.remaining > 0
    requires capped ==> PerSecond(qs[i].incomingBandwidth, elapsed) <= m.bandwidth
    requires capped ==> PerSecond(qs[i].incomingBandwidth, elapsed) <= m.dataTotal
    ensures var own := PerSecond(qs[i].incomingBandwidth, elapsed);
      Spent(ps, qs[i := Limited(qs[i], now, elapsed)], now, elapsed, capped, total, Taken(m, own))
  {
    hide PerSecond, Sum, OwnLimit;
    var own, t := PerSecond(qs[i].incomingBandwidth, elapsed), qs[i := Limited(qs[i], now, elapsed)];
    SumUpdate(Owns(ps, qs, now, elapsed), i, own);
    assert Owns(ps, t, now, elapsed) == Owns(ps, qs, now, elapsed)[i := own];
    TakenIs(m, own);
  }

  // With `total` to give, the common share is the greatest that the data not settled leave room for, or everything.
  ghost predicate GivenOut(ps: seq<Peer>, qs: seq<Peer>, now: u32, elapsed: u32, total: nat, share: u32) {
    && |qs| == |ps|
    && var data, own := Sum(LiveLoads(ps)), Sum(Owns(ps, qs, now, elapsed));
      && own <= total && own <= data
      && if data <= total then share == 32 else (share + 1) * (data - own) > 32 * (total - own)
  }

  lemma AllGivenOut(ps: seq<Peer>, qs: seq<Peer>, rs: seq<Peer>, now: u32, elapsed: u32, total: nat, m: Budget,
                    share: u32)
    requires Spent(ps, qs, now, elapsed, true, total, m) && total * SCALE < WORD
    requires share == Share(m.bandwidth, m.dataTotal)
    requires |rs| == |qs| && forall i {:trigger rs[i]} :: 0 <= i < |qs| ==>
      rs[i] == if Open(qs[i], now) then Sharing(qs[i], share) else qs[i]
    ensures GivenOut(ps, rs, now, elapsed, total, share)
  {
    hide PerSecond, Sum, Share;
    assert Owns(ps, rs, now, elapsed) == Owns(ps, qs, now, elapsed);
    ShareIs(m.bandwidth, m.dataTotal);
    if m.dataTotal > m.bandwidth { NextIsMore(m.bandwidth * SCALE, m.dataTotal); }
  }

  lemma NextIsMore(a: nat, b: nat)
    requires b > 0
    ensures (a / b + 1) * b > a
  {
  }

  // And a settled peer's limit is the greatest that its own bandwidth has room for.
  ghost predicate Granted(ps: seq<Peer>, qs: seq<Peer>, now: u32, elapsed: u32) {
    && |qs| == |ps|
    && forall i {:trigger qs[i]} :: 0 <= i < |ps| && Live(ps[i]) && qs[i].outgoingEpoch == now ==>
      (qs[i].limit + 1) * ps[i].outgoingData > 32 * PerSecond(ps[i].incomingBandwidth, elapsed)
  }

  lemma AllGranted(ps: seq<Peer>, qs: seq<Peer>, now: u32, elapsed: u32, share: u32, charges: seq<nat>)
    requires Shared(ps, qs, now, elapsed, share, charges) && AllModerate(ps, elapsed)
    ensures Granted(ps, qs, now, elapsed)
  {
    hide PerSecond;
    forall i | 0 <= i < |ps| && Live(ps[i]) && qs[i].outgoingEpoch == now
      ensures (qs[i].limit + 1) * ps[i].outgoingData > 32 * PerSecond(ps[i].incomingBandwidth, elapsed)
    {
      assert SharedOne(ps[i], qs[i], now, elapsed, share, charges[i]);
      LimitedGrants(ps[i], now, elapsed);
    }
  }

  lemma LimitedGrants(p: Peer, now: u32, elapsed: u32)
    requires p.outgoingData > 0 && Moderate(p, elapsed)
    ensures (Limited(p, now, elapsed).limit + 1) * p.outgoingData > 32 * PerSecond(p.incomingBandwidth, elapsed)
  {
    hide PerSecond;
    var own := PerSecond(p.incomingBandwidth, elapsed);
    NextIsMore(own * SCALE, p.outgoingData);
    if OwnLimit(p, elapsed) == 0 { assert (1 + 1) * p.outgoingData >= (0 + 1) * p.outgoingData; }
  }

  // What a bandwidth comes to in a time, and when a peer would be sent more than that.
  lemma PerSecondIs(bandwidth: u32, elapsed: u32)
    requires bandwidth * elapsed < WORD
    ensures var b := PerSecond(bandwidth, elapsed); 1000 * b <= bandwidth * elapsed < 1000 * (b + 1)
  {
    Fits(bandwidth * elapsed);
  }

  lemma ExceedsWhere(p: Peer, elapsed: u32, throttle: u32)
    requires Moderate(p, elapsed) && throttle <= 32
    ensures Exceeds(p, elapsed, throttle) <==>
      p.incomingBandwidth != 0 && throttle * p.outgoingData >= 32 * (PerSecond(p.incomingBandwidth, elapsed) + 1)
  {
    hide PerSecond;
    Unscaled(throttle, p.outgoingData);
    Fits(throttle * p.outgoingData);
  }

  lemma LimitedCloses(p: Peer, now: u32, elapsed: u32)
    requires p.outgoingData > 0
    ensures !Open(Limited(p, now, elapsed), now)
  {
  }

  lemma ExceedsLimited(p: Peer, elapsed: u32, throttle: u32)
    requires Exceeds(p, elapsed, throttle)
    ensures p.incomingBandwidth != 0
  {
  }

  lemma TakenIs(m: Budget, own: u32)
    requires m.remaining > 0
    ensures own <= m.bandwidth ==> Taken(m, own).bandwidth == m.bandwidth - own
    ensures own <= m.dataTotal ==> Taken(m, own).dataTotal == m.dataTotal - own
    ensures m.bandwidth == m.dataTotal ==> Taken(m, own).bandwidth == Taken(m, own).dataTotal
  {
  }

  // --- Incoming limits. ---

  predicate Unsettled(p: Peer, now: u32) { Live(p) && p.incomingEpoch != now }

  function Waiting(ps: seq<Peer>, now: u32): seq<nat> {
    seq(|ps|, i requires 0 <= i < |ps| => if Unsettled(ps[i], now) then 1 else 0)
  }

  // What the settled peers are assigned: what they ask for, a peer that asks for nothing counting as 0.
  function Demands(ps: seq<Peer>, now: u32): seq<nat> {
    seq(|ps|, i requires 0 <= i < |ps| =>
      if Live(ps[i]) && ps[i].incomingEpoch == now then ps[i].outgoingBandwidth else 0)
  }

  predicate Modest(p: Peer, limit: u32) { p.outgoingBandwidth == 0 || p.outgoingBandwidth < limit }

  // ps before, qs now: settled peers ask for less than the share so far.
  ghost predicate Leveled(ps: seq<Peer>, qs: seq<Peer>, now: u32, limit: u32) {
    && |qs| == |ps|
    && forall i {:trigger qs[i]} :: 0 <= i < |ps| ==> LeveledOne(ps[i], qs[i], now, limit)
  }

  ghost predicate LeveledOne(p: Peer, q: Peer, now: u32, limit: u32) {
    q == p || (Live(p) && q == p.(incomingEpoch := now) && Modest(p, limit))
  }

  ghost predicate Level(ps: seq<Peer>, qs: seq<Peer>, now: u32, limit: u32, total: nat, bandwidth: nat,
                        remaining: nat) {
    && Leveled(ps, qs, now, limit)
    && remaining == Sum(Waiting(qs, now)) && bandwidth + Sum(Demands(qs, now)) == total
    && remaining * limit <= bandwidth
  }

  function Portion(bandwidth: u32, remaining: nat): u32
    requires remaining > 0
  {
    bandwidth / remaining
  }

  // The share never decreases.
  lemma Raise(ps: seq<Peer>, qs: seq<Peer>, now: u32, limit: u32, limit': u32, total: nat, bandwidth: u32,
              remaining: nat)
    requires Level(ps, qs, now, limit, total, bandwidth, remaining) && remaining > 0
    requires limit' == Portion(bandwidth, remaining)
    ensures limit' >= limit && Level(ps, qs, now, limit', total, bandwidth, remaining)
  {
    hide Sum, Waiting, Demands;
    NotBelow(remaining, limit, limit', bandwidth);
    forall i | 0 <= i < |ps| ensures LeveledOne(ps[i], qs[i], now, limit') {
      assert LeveledOne(ps[i], qs[i], now, limit);
    }
  }

  lemma NotBelow(remaining: nat, limit: nat, limit': nat, bandwidth: nat)
    requires remaining > 0 && remaining * limit <= bandwidth && limit' == bandwidth / remaining
    ensures limit' >= limit && remaining * limit' <= bandwidth
  {
    assert bandwidth == remaining * limit' + bandwidth % remaining;
    if limit > limit' { Multiplied(remaining, limit' + 1, limit); }
  }

  lemma Multiplied(k: nat, x: nat, y: nat)
    requires x <= y
    ensures k * x <= k * y
  {
  }

  lemma SettleModest(ps: seq<Peer>, qs: seq<Peer>, i: nat, now: u32, limit: u32, total: nat, bandwidth: nat,
                     remaining: nat)
    requires Level(ps, qs, now, limit, total, bandwidth, remaining) && i < |qs| && Unsettled(qs[i], now)
    requires Modest(qs[i], limit)
    ensures remaining > 0 && qs[i].outgoingBandwidth <= bandwidth
    ensures Level(ps, qs[i := qs[i].(incomingEpoch := now)], now, limit, total, bandwidth - qs[i].outgoingBandwidth,
      remaining - 1)
  {
    hide Sum;
    SettleSums(qs, i, now);
    SettleLeaves(remaining, limit, bandwidth, qs[i].outgoingBandwidth);
    assert LeveledOne(ps[i], qs[i], now, limit);
    hide Waiting, Demands, Unsettled;
  }

  lemma SettleSums(qs: seq<Peer>, i: nat, now: u32)
    requires i < |qs| && Unsettled(qs[i], now)
    ensures var rs := qs[i := qs[i].(incomingEpoch := now)];
      && Sum(Waiting(qs, now)) > 0 && Sum(Waiting(rs, now)) == Sum(Waiting(qs, now)) - 1
      && Sum(Demands(rs, now)) == Sum(Demands(qs, now)) + qs[i].outgoingBandwidth
  {
    var own := qs[i].outgoingBandwidth;
    var rs := qs[i := qs[i].(incomingEpoch := now)];
    SumUpdate(Waiting(qs, now), i, 0);
    SumUpdate(Demands(qs, now), i, own);
    assert Waiting(rs, now) == Waiting(qs, now)[i := 0];
    assert Demands(rs, now) == Demands(qs, now)[i := own];
  }

  lemma SettleLeaves(remaining: nat, limit: nat, bandwidth: nat, own: nat)
    requires remaining > 0 && remaining * limit <= bandwidth && (own == 0 || own < limit)
    ensures own <= bandwidth && (remaining - 1) * limit <= bandwidth - own
  {
    assert remaining * limit == (remaining - 1) * limit + limit;
    assert (remaining - 1) * limit >= 0;
  }

  ghost predicate NoneModest(qs: seq<Peer>, n: nat, now: u32, limit: u32) {
    forall k :: 0 <= k < n <= |qs| && Unsettled(qs[k], now) ==> !Modest(qs[k], limit)
  }

  lemma LevelAtStart(ps: seq<Peer>, now: u32, bandwidth: nat, remaining: nat)
    requires forall i :: 0 <= i < |ps| && Live(ps[i]) ==> ps[i].incomingEpoch != now
    requires remaining == Sum(LiveOnes(ps))
    ensures Level(ps, ps, now, 0, bandwidth, bandwidth, remaining)
  {
    assert Waiting(ps, now) == LiveOnes(ps);
    SumZero(Demands(ps, now));
  }

  // What the bandwidth-limit commands assign to the peers, a peer that asks for nothing counting as 0.
  function Assigned(qs: seq<Peer>, now: u32, limit: u32): seq<nat> {
    seq(|qs|, i requires 0 <= i < |qs| =>
      if !Live(qs[i]) then 0 else if qs[i].incomingEpoch == now then qs[i].outgoingBandwidth else limit)
  }

  // The settled peers ask for less than the final share, the others for at least as much; what is
  // assigned fits, and if any peer is unsettled one unit more for each of those would not.
  ghost predicate MaxMin(ps: seq<Peer>, qs: seq<Peer>, now: u32, limit: u32, bandwidth: nat) {
    && Leveled(ps, qs, now, limit)
    && (forall k :: 0 <= k < |qs| && Unsettled(qs[k], now) ==>
      0 < qs[k].outgoingBandwidth && limit <= qs[k].outgoingBandwidth)
    && Sum(Assigned(qs, now, limit)) <= bandwidth
    && (Sum(Waiting(qs, now)) > 0 ==> Sum(Assigned(qs, now, limit)) + Sum(Waiting(qs, now)) > bandwidth)
  }

  lemma {:induction false} SumLinear(xs: seq<nat>, ys: seq<nat>, k: nat, zs: seq<nat>)
    requires |xs| == |ys| == |zs| && forall i :: 0 <= i < |xs| ==> zs[i] == xs[i] + k * ys[i]
    ensures Sum(zs) == Sum(xs) + k * Sum(ys)
    decreases |xs|
  {
    if xs != [] {
      var n := |xs| - 1;
      SumLinear(xs[..n], ys[..n], k, zs[..n]);
      Distributes(k, Sum(ys[..n]), ys[n]);
    }
  }

  lemma Distributes(k: nat, a: nat, b: nat)
    ensures k * (a + b) == k * a + k * b
  {
  }

  lemma LevelAtEnd(ps: seq<Peer>, qs: seq<Peer>, now: u32, limit: u32, total: nat, bandwidth: u32, remaining: nat)
    requires Level(ps, qs, now, limit, total, bandwidth, remaining)
    requires remaining == 0 || (limit == Portion(bandwidth, remaining) && NoneModest(qs, |qs|, now, limit))
    ensures MaxMin(ps, qs, now, limit, total)
  {
    hide Sum, Portion, Waiting, Demands, Assigned, Leveled;
    AssignedSum(qs, now, limit, remaining);
    if remaining > 0 { PortionIs(bandwidth, remaining); } else { NoneUnsettled(qs, now); }
  }

  lemma AssignedSum(qs: seq<Peer>, now: u32, limit: u32, remaining: nat)
    requires remaining == Sum(Waiting(qs, now))
    ensures Sum(Assigned(qs, now, limit)) == Sum(Demands(qs, now)) + remaining * limit
  {
    SumLinear(Demands(qs, now), Waiting(qs, now), limit, Assigned(qs, now, limit));
  }

  lemma PortionIs(bandwidth: u32, remaining: nat)
    requires remaining > 0
    ensures var spent := remaining * Portion(bandwidth, remaining);
      spent <= bandwidth < spent + remaining
  {
    assert bandwidth == remaining * (bandwidth / remaining) + bandwidth % remaining;
  }

  lemma NoneUnsettled(qs: seq<Peer>, now: u32)
    requires Sum(Waiting(qs, now)) == 0
    ensures forall i :: 0 <= i < |qs| ==> !Unsettled(qs[i], now)
  {
    forall i | 0 <= i < |qs| ensures !Unsettled(qs[i], now) { SumUpdate(Waiting(qs, now), i, 0); }
  }

  // Max-min fairness: a division of the bandwidth that gives every peer held to the share more than
  // that gives less to a peer that was granted all it asked for.
  lemma Fairest(ps: seq<Peer>, qs: seq<Peer>, now: u32, limit: u32, bandwidth: nat, others: seq<nat>)
    requires MaxMin(ps, qs, now, limit, bandwidth) && |others| == |qs| && Sum(others) <= bandwidth
    requires forall i :: 0 <= i < |ps| && Live(ps[i]) ==> ps[i].incomingEpoch != now
    requires Sum(Waiting(qs, now)) > 0
    requires forall i :: 0 <= i < |qs| && Unsettled(qs[i], now) ==> others[i] > limit
    ensures exists i ::
      0 <= i < |qs| && Live(qs[i]) && qs[i].incomingEpoch == now && others[i] < qs[i].outgoingBandwidth < limit
  {
    var more := Added(Assigned(qs, now, limit), Waiting(qs, now));
    SumAdded(Assigned(qs, now, limit), Waiting(qs, now));
    if forall i :: 0 <= i < |qs| ==> more[i] <= others[i] {
      SumOver(more, others, 1);
    } else {
      var i :| 0 <= i < |qs| && more[i] > others[i];
      assert LeveledOne(ps[i], qs[i], now, limit);
    }
  }

  // The same of one peer: where it gains enough to take the rest of the bandwidth, another one loses.
  lemma FairToEach(ps: seq<Peer>, qs: seq<Peer>, now: u32, limit: u32, bandwidth: nat, others: seq<nat>, i: nat)
    requires MaxMin(ps, qs, now, limit, bandwidth) && |others| == |qs| && Sum(others) <= bandwidth
    requires i < |qs| && Unsettled(qs[i], now) && others[i] >= limit + Sum(Waiting(qs, now))
    ensures exists j :: 0 <= j < |qs| && j != i && Live(qs[j]) && others[j] < Assigned(qs, now, limit)[j]
  {
    var granted := Assigned(qs, now, limit);
    var more := granted[i := limit + Sum(Waiting(qs, now))];
    SumUpdate(Waiting(qs, now), i, 0);
    SumUpdate(granted, i, more[i]);
    hide Sum;
    if forall j :: 0 <= j < |qs| ==> more[j] <= others[j] {
      SumOver(more, others, 1);
    } else {
      var j :| 0 <= j < |qs| && more[j] > others[j];
      assert j != i && others[j] < granted[j];
    }
  }

  // One command for each connected peer, in the order of the peers.
  function Limitings(qs: seq<Peer>, now: u32, limit: u32, outgoing: u32): seq<Limits> {
    if qs == [] then []
    else
      var n, q := |qs| - 1, qs[|qs| - 1];
      Limitings(qs[..n], now, limit, outgoing) +
      if Live(q) then [Limits(n, if q.incomingEpoch == now then q.outgoingBandwidth else limit, outgoing)] else []
  }

  function Incoming(commands: seq<Limits>): seq<nat> {
    seq(|commands|, k requires 0 <= k < |commands| => commands[k].incoming)
  }

  // Each connected peer is told what it is assigned, once and no other peer.
  ghost predicate Told(commands: seq<Limits>, qs: seq<Peer>, now: u32, limit: u32, outgoing: u32) {
    && (forall k, l :: 0 <= k < l < |commands| ==> commands[k].peer < commands[l].peer)
    && (forall k :: 0 <= k < |commands| ==> var c := commands[k];
      c.peer < |qs| && Live(qs[c.peer]) && c.incoming == Assigned(qs, now, limit)[c.peer] && c.outgoing == outgoing)
    && (forall i :: 0 <= i < |qs| && Live(qs[i]) ==> exists k :: 0 <= k < |commands| && commands[k].peer == i)
  }

  lemma {:induction false} LimitingsSum(qs: seq<Peer>, now: u32, limit: u32, outgoing: u32)
    ensures Sum(Incoming(Limitings(qs, now, limit, outgoing))) == Sum(Assigned(qs, now, limit))
    decreases |qs|
  {
    if qs != [] {
      var n := |qs| - 1;
      LimitingsSum(qs[..n], now, limit, outgoing);
      var front, all := Limitings(qs[..n], now, limit, outgoing), Limitings(qs, now, limit, outgoing);
      assert Assigned(qs, now, limit)[..n] == Assigned(qs[..n], now, limit);
      if Live(qs[n]) { assert Incoming(all)[..|front|] == Incoming(front); } else { assert all == front; }
    }
  }

  lemma {:induction false} LimitingsTell(qs: seq<Peer>, now: u32, limit: u32, outgoing: u32)
    ensures Told(Limitings(qs, now, limit, outgoing), qs, now, limit, outgoing)
    decreases |qs|
  {
    if qs != [] {
      var n := |qs| - 1;
      LimitingsTell(qs[..n], now, limit, outgoing);
      assert qs == qs[..n] + [qs[n]];
      TellNext(Limitings(qs[..n], now, limit, outgoing), qs[..n], qs[n], now, limit, outgoing);
    }
  }

  lemma AssignedNext(qs: seq<Peer>, q: Peer, now: u32, limit: u32)
    ensures var incoming := if q.incomingEpoch == now then q.outgoingBandwidth else limit;
      && |Assigned(qs, now, limit)| == |qs|
      && Assigned(qs + [q], now, limit) == Assigned(qs, now, limit) + [if Live(q) then incoming else 0]
  {
  }

  lemma TellNext(front: seq<Limits>, qs: seq<Peer>, q: Peer, now: u32, limit: u32, outgoing: u32)
    requires Told(front, qs, now, limit, outgoing)
    ensures var incoming := if q.incomingEpoch == now then q.outgoingBandwidth else limit;
      Told(front + if Live(q) then [Limits(|qs|, incoming, outgoing)] else [], qs + [q], now, limit, outgoing)
  {
    hide Assigned, Live;
    var incoming := if q.incomingEpoch == now then q.outgoingBandwidth else limit;
    var all := front + if Live(q) then [Limits(|qs|, incoming, outgoing)] else [];
    AssignedNext(qs, q, now, limit);
    forall i | 0 <= i <= |qs| && Live((qs + [q])[i]) ensures exists k :: 0 <= k < |all| && all[k].peer == i {
      if i == |qs| {
        assert all[|front|].peer == i;
      } else {
        var k :| 0 <= k < |front| && front[k].peer == i;
        assert all[k].peer == i;
      }
    }
  }

  // Neither half changes who is connected or limited.
  ghost predicate SameCounts(ps: seq<Peer>, qs: seq<Peer>) {
    LiveOnes(ps) == LiveOnes(qs) && LimitedOnes(ps) == LimitedOnes(qs)
  }

  lemma SharedKeeps(ps: seq<Peer>, qs: seq<Peer>, now: u32, elapsed: u32, share: u32, charges: seq<nat>)
    requires Shared(ps, qs, now, elapsed, share, charges)
    requires forall i :: 0 <= i < |ps| && Live(ps[i]) ==> ps[i].incomingEpoch != now
    ensures SameCounts(ps, qs)
    ensures forall i :: 0 <= i < |qs| && Live(qs[i]) ==> qs[i].incomingEpoch != now
  {
    hide Exceeds, PerSecond, OwnLimit, Charge;
    forall i | 0 <= i < |ps|
      ensures qs[i].state == ps[i].state && qs[i].incomingBandwidth == ps[i].incomingBandwidth
      ensures qs[i].incomingEpoch == ps[i].incomingEpoch
    {
      assert SharedOne(ps[i], qs[i], now, elapsed, share, charges[i]);
    }
  }

  lemma LeveledKeeps(ps: seq<Peer>, qs: seq<Peer>, now: u32, limit: u32)
    requires Leveled(ps, qs, now, limit)
    ensures SameCounts(ps, qs)
  {
    forall i | 0 <= i < |ps| ensures qs[i].state == ps[i].state && qs[i].incomingBandwidth == ps[i].incomingBandwidth {
      assert LeveledOne(ps[i], qs[i], now, limit);
    }
  }

  lemma CountsUpdate(ps: seq<Peer>, i: nat, p: Peer)
    requires i < |ps|
    ensures Sum(LiveOnes(ps[i := p])) + LiveOnes(ps)[i] == Sum(LiveOnes(ps)) + if Live(p) then 1 else 0
    ensures Sum(LimitedOnes(ps[i := p])) + LimitedOnes(ps)[i]
      == Sum(LimitedOnes(ps)) + if Live(p) && p.incomingBandwidth != 0 then 1 else 0
    ensures LiveOnes(ps)[i] <= Sum(LiveOnes(ps)) && LimitedOnes(ps)[i] <= Sum(LimitedOnes(ps))
  {
    SumUpdate(LiveOnes(ps), i, if Live(p) then 1 else 0);
    SumUpdate(LimitedOnes(ps), i, if Live(p) && p.incomingBandwidth != 0 then 1 else 0);
    assert LiveOnes(ps[i := p]) == LiveOnes(ps)[i := if Live(p) then 1 else 0];
    assert LimitedOnes(ps[i := p]) == LimitedOnes(ps)[i := if Live(p) && p.incomingBandwidth != 0 then 1 else 0];
  }
}
