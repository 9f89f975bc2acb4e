/** enet_host_bandwidth_throttle (Externals/enet/host.c): how a host divides its outgoing and its
    incoming bandwidth among its connected peers. */
module BandwidthThrottle {
  const INTERVAL := 1000
  const SCALE := 32
  const WORDS := 0x1_0000_0000

  /** The fields of a peer the division reads and writes; connected covers the two states in
      which the code looks at a peer, told is the incoming limit last sent to it. */
  datatype Peer = Peer(connected: bool, incomingBandwidth: nat, outgoingBandwidth: nat,
                       outgoingEpoch: nat, incomingEpoch: nat, packetThrottle: nat, packetThrottleLimit: nat,
                       incomingData: nat, outgoingData: nat, told: nat)

  // ---- sums over the peers ----

  /** Still to be given a share of the outgoing bandwidth. */
  predicate Open(p: Peer, now: nat) {
    p.connected && p.outgoingEpoch != now
  }

  function OpenData(ps: seq<Peer>, now: nat): nat {
    if ps == [] then 0
    else OpenData(ps[..|ps| - 1], now) + if Open(ps[|ps| - 1], now) then ps[|ps| - 1].outgoingData else 0
  }

  function OpenCount(ps: seq<Peer>, now: nat): nat {
    if ps == [] then 0
    else OpenCount(ps[..|ps| - 1], now) + if Open(ps[|ps| - 1], now) then 1 else 0
  }

  /** A sum over all peers of share times data. */
  function Weighted(ps: seq<Peer>, shares: seq<nat>): nat
    requires |ps| == |shares|
  {
    if ps == [] then 0 else
      var n := |ps| - 1;
      Weighted(ps[..n], shares[..n]) + if ps[n].connected then shares[n] * ps[n].outgoingData else 0
  }

  lemma {:induction false} Close(ps: seq<Peer>, now: nat, i: nat, p: Peer)
    requires i < |ps| && Open(ps[i], now) && !Open(p, now)
    ensures OpenData(ps[i := p], now) == OpenData(ps, now) - ps[i].outgoingData
    ensures OpenCount(ps[i := p], now) == OpenCount(ps, now) - 1
  {
    var n := |ps| - 1;
    if i == n {
      assert ps[i := p][..n] == ps[..n];
    } else {
      Close(ps[..n], now, i, p);
      assert ps[i := p][..n] == ps[..n][i := p];
    }
  }

  lemma {:induction false} OpenHas(ps: seq<Peer>, now: nat, i: nat)
    requires i < |ps| && Open(ps[i], now)
    ensures OpenData(ps, now) >= ps[i].outgoingData && OpenCount(ps, now) >= 1
  {
    if i < |ps| - 1 { OpenHas(ps[..|ps| - 1], now, i); }
  }

  lemma {:induction false} WeightedSet(ps: seq<Peer>, shares: seq<nat>, i: nat, share: nat)
    requires |ps| == |shares| && i < |ps| && ps[i].connected && shares[i] == 0
    ensures Weighted(ps, shares[i := share]) == Weighted(ps, shares) + share * ps[i].outgoingData
  {
    var n := |ps| - 1;
    if i == n {
      assert shares[i := share][..n] == shares[..n];
    } else {
      WeightedSet(ps[..n], shares[..n], i, share);
      assert shares[i := share][..n] == shares[..n][i := share];
    }
  }

  lemma {:induction false} WeightedNone(ps: seq<Peer>, shares: seq<nat>)
    requires |ps| == |shares| && forall i :: 0 <= i < |shares| ==> shares[i] == 0
    ensures Weighted(ps, shares) == 0
  {
    if ps != [] { WeightedNone(ps[..|ps| - 1], shares[..|ps| - 1]); }
  }

  // ---- outgoing bandwidth ----

  /** What a peer can take in during the elapsed time. */
  function Capacity(p: Peer, elapsed: nat): nat {
    p.incomingBandwidth * elapsed / 1000
  }

  /** The share of each byte, in thirty-seconds, when total bytes compete for the bandwidth. */
  function Throttle(total: nat, bandwidth: nat): (t: nat)
    ensures t <= SCALE && t * total <= SCALE * bandwidth
  {
    if total <= bandwidth then SCALE
    else
      ThrottleFits(total, bandwidth);
      bandwidth * SCALE / total
  }

  lemma AtMost(a: nat, b: nat, c: nat)
    requires a <= b
    ensures a * c <= b * c
  {
  }

  lemma ThrottleFits(total: nat, bandwidth: nat)
    requires total > bandwidth
    ensures var t := bandwidth * SCALE / total; t <= SCALE && t * total <= SCALE * bandwidth
  {
    var t := bandwidth * SCALE / total;
    assert t * total + bandwidth * SCALE % total == bandwidth * SCALE;
    if t > SCALE { AtMost(SCALE + 1, t, total); }
  }

  /** The common share of total bytes in a bandwidth: all of them when they fit, and otherwise as
      many thirty-seconds of each as do, with less than one more thirty-second of them left over. */
  ghost predicate CommonShare(t: nat, total: int, bandwidth: int) {
    if total <= bandwidth then t == 32 else t * total <= 32 * bandwidth < (t + 1) * total
  }

  lemma ShareIs(total: nat, bandwidth: nat)
    ensures CommonShare(Throttle(total, bandwidth), total, bandwidth)
  {
    if total > bandwidth {
      var t := Throttle(total, bandwidth);
      assert t * total + bandwidth * SCALE % total == bandwidth * SCALE;
      assert (t + 1) * total == t * total + total;
    }
  }

  /** The products of the division fit thirty-two bits. */
  ghost predicate Fits(ps: seq<Peer>, now: nat, elapsed: nat, outgoingBandwidth: nat) {
    && SCALE * OpenData(ps, now) < WORDS && outgoingBandwidth * elapsed < WORDS
    && forall i :: 0 <= i < |ps| ==> ps[i].incomingBandwidth * elapsed < WORDS
  }

  /** The share of a peer that cannot take what the throttle would send it. */
  function Clipped(p: Peer, elapsed: nat): nat
    requires p.outgoingData > 0
  {
    Capacity(p, elapsed) * SCALE / p.outgoingData
  }

  lemma ClippedFits(p: Peer, elapsed: nat, t: nat)
    requires t <= SCALE && t * p.outgoingData / SCALE > Capacity(p, elapsed)
    ensures p.outgoingData > 0 && Capacity(p, elapsed) < p.outgoingData
    ensures SCALE * Capacity(p, elapsed) <= t * p.outgoingData
    ensures Clipped(p, elapsed) * p.outgoingData <= SCALE * Capacity(p, elapsed) && Clipped(p, elapsed) <= SCALE
  {
    var d, c := p.outgoingData, Capacity(p, elapsed);
    assert t * d <= SCALE * d by { assert (SCALE - t) * d >= 0; }
    ThrottleFits(d, c);
  }

  /** A clipped peer: its limit is set and its counters are cleared. */
  function Clip(p: Peer, now: nat, elapsed: nat): Peer
    requires p.outgoingData > 0
  {
    var limit := if Clipped(p, elapsed) == 0 then 1 else Clipped(p, elapsed);
    p.(packetThrottleLimit := limit, packetThrottle := if p.packetThrottle > limit then limit else p.packetThrottle,
       outgoingEpoch := now, incomingData := 0, outgoingData := 0)
  }

  /** A peer that gets the common share. */
  function Give(p: Peer, t: nat): Peer {
    p.(packetThrottleLimit := t, packetThrottle := if p.packetThrottle > t then t else p.packetThrottle,
       incomingData := 0, outgoingData := 0)
  }

  /** The peers so far: clipped ones and untouched ones. */
  ghost predicate Clipping(ps0: seq<Peer>, ps: seq<Peer>, shares: seq<nat>, now: nat, elapsed: nat) {
    && |ps0| == |ps| == |shares|
    && forall i :: 0 <= i < |ps| ==> ClippedOrNot(ps0[i], ps[i], shares[i], now, elapsed)
  }

  ghost predicate ClippedOrNot(p0: Peer, p: Peer, share: nat, now: nat, elapsed: nat) {
    if Open(p0, now) && p.outgoingEpoch == now then
      && p0.outgoingData > 0 && p0.incomingBandwidth != 0 && Capacity(p0, elapsed) < p0.outgoingData
      && share == Clipped(p0, elapsed) && p == Clip(p0, now, elapsed)
    else p == p0 && share == 0
  }

  /** What the bandwidth left over can bear. */
  ghost predicate Solvent(ps: seq<Peer>, ps0: seq<Peer>, shares: seq<nat>, now: nat, total: int, bandwidth: int,
                          budget: nat) {
    && |ps0| == |shares| && bandwidth >= 0 && total >= OpenData(ps, now)
    && Weighted(ps0, shares) + SCALE * bandwidth <= SCALE * budget
  }

  lemma ClipStep(ps0: seq<Peer>, ps: seq<Peer>, shares: seq<nat>, now: nat, elapsed: nat, i: nat, t: nat,
                 total: int, bandwidth: int, budget: nat)
    requires Clipping(ps0, ps, shares, now, elapsed) && i < |ps| && Open(ps[i], now) && ps[i].incomingBandwidth != 0
    requires Solvent(ps, ps0, shares, now, total, bandwidth, budget) && t <= SCALE
    requires t * OpenData(ps, now) <= SCALE * bandwidth && t * ps[i].outgoingData / SCALE > Capacity(ps[i], elapsed)
    ensures ps[i].outgoingData > 0
    ensures var ps', shares', c := ps[i := Clip(ps[i], now, elapsed)], shares[i := Clipped(ps[i], elapsed)],
      Capacity(ps[i], elapsed);
      && Clipping(ps0, ps', shares', now, elapsed)
      && Solvent(ps', ps0, shares', now, total - c, bandwidth - c, budget)
      && t * OpenData(ps', now) <= SCALE * (bandwidth - c)
      && OpenCount(ps', now) == OpenCount(ps, now) - 1
  {
    hide OpenData, OpenCount, Weighted, Capacity, Clipped;
    assert ClippedOrNot(ps0[i], ps[i], shares[i], now, elapsed);
    ClippedFits(ps[i], elapsed, t);
    Close(ps, now, i, Clip(ps[i], now, elapsed));
    OpenHas(ps, now, i);
    WeightedSet(ps0, shares, i, Clipped(ps[i], elapsed));
    Less(t, OpenData(ps, now), ps[i].outgoingData);
    var ps', shares' := ps[i := Clip(ps[i], now, elapsed)], shares[i := Clipped(ps[i], elapsed)];
    forall k | 0 <= k < |ps'|
      ensures ClippedOrNot(ps0[k], ps'[k], shares'[k], now, elapsed)
    {
      assert ClippedOrNot(ps0[k], ps[k], shares[k], now, elapsed);
    }
  }

  lemma Less(t: nat, r: nat, d: nat)
    requires d <= r
    ensures t * (r - d) == t * r - t * d && t * (r - d) >= 0
  {
  }

  lemma ThrottleLess(t: nat, r: nat, total: nat, bandwidth: nat)
    requires r <= total && t == Throttle(total, bandwidth)
    ensures t * r <= SCALE * bandwidth
  {
    assert t * r <= t * total;
  }

  /** A peer not clipped is content with the common share. */
  ghost predicate Content(ps: seq<Peer>, now: nat, elapsed: nat, t: nat, n: nat) {
    n <= |ps| && forall i :: 0 <= i < n && Open(ps[i], now) && ps[i].incomingBandwidth != 0 ==>
      t * ps[i].outgoingData / SCALE <= Capacity(ps[i], elapsed)
  }

  /** Between two passes. */
  ghost predicate Between(ps0: seq<Peer>, ps: seq<Peer>, shares: seq<nat>, now: nat, elapsed: nat, limited: bool,
                          budget: nat,
                          total: int, bandwidth: int, left: int, more: bool) {
    && Clipping(ps0, ps, shares, now, elapsed) && left == OpenCount(ps, now)
    && 0 <= total < WORDS && 0 <= bandwidth < WORDS
    && (if limited then Solvent(ps, ps0, shares, now, total, bandwidth, budget) else total == bandwidth)
    && (!more ==> Content(ps, now, elapsed, Throttle(total, bandwidth), |ps|))
  }

  /** Within a pass with the share t, before peer i; left peers were open when it began. */
  ghost predicate Pass(ps0: seq<Peer>, ps: seq<Peer>, shares: seq<nat>, now: nat, elapsed: nat, limited: bool,
                       budget: nat,
                       total: int, bandwidth: int, left: int, more: bool, t: nat, before: int, i: nat) {
    && Clipping(ps0, ps, shares, now, elapsed) && left == OpenCount(ps, now)
    && 0 <= total < WORDS && 0 <= bandwidth < WORDS && t <= SCALE
    && (if limited then
          Solvent(ps, ps0, shares, now, total, bandwidth, budget) && t * OpenData(ps, now) <= SCALE * bandwidth
        else total == bandwidth && t == SCALE)
    && i <= |ps|
    && if more then left < before
       else left == before && t == Throttle(total, bandwidth) && Content(ps, now, elapsed, t, i)
  }

  lemma PassStart(ps0: seq<Peer>, ps: seq<Peer>, shares: seq<nat>, now: nat, elapsed: nat, limited: bool, budget: nat,
                  total: nat, bandwidth: nat, left: int, more: bool)
    requires Between(ps0, ps, shares, now, elapsed, limited, budget, total, bandwidth, left, more)
    ensures Pass(ps0, ps, shares, now, elapsed, limited, budget, total, bandwidth, left, false,
                 Throttle(total, bandwidth), left, 0)
  {
    hide OpenData, OpenCount, Weighted, Throttle, Clipping;
    ThrottleIs(total, bandwidth);
    if limited { ThrottleLess(Throttle(total, bandwidth), OpenData(ps, now), total, bandwidth); }
  }

  lemma PassEnd(ps0: seq<Peer>, ps: seq<Peer>, shares: seq<nat>, now: nat, elapsed: nat, limited: bool, budget: nat,
                total: int, bandwidth: int, left: int, more: bool, t: nat, before: int)
    requires Pass(ps0, ps, shares, now, elapsed, limited, budget, total, bandwidth, left, more, t, before, |ps|)
    ensures Between(ps0, ps, shares, now, elapsed, limited, budget, total, bandwidth, left, more)
    ensures more ==> left < before
    ensures !more ==> left == before
  {
  }

  lemma PassSkip(ps0: seq<Peer>, ps: seq<Peer>, shares: seq<nat>, now: nat, elapsed: nat, limited: bool, budget: nat,
                 total: int, bandwidth: int, left: int, more: bool, t: nat, before: int, i: nat)
    requires Pass(ps0, ps, shares, now, elapsed, limited, budget, total, bandwidth, left, more, t, before, i)
      && i < |ps|
    requires Open(ps[i], now) && ps[i].incomingBandwidth != 0 ==>
      t * ps[i].outgoingData / SCALE <= Capacity(ps[i], elapsed)
    ensures Pass(ps0, ps, shares, now, elapsed, limited, budget, total, bandwidth, left, more, t, before, i + 1)
  {
    hide OpenData, OpenCount, Weighted, Throttle, Clipping, Capacity, Solvent;
  }

  lemma PassClip(ps0: seq<Peer>, ps: seq<Peer>, shares: seq<nat>, now: nat, elapsed: nat, limited: bool, budget: nat,
                 total: int, bandwidth: int, left: int, more: bool, t: nat, before: int, i: nat)
    requires Pass(ps0, ps, shares, now, elapsed, limited, budget, total, bandwidth, left, more, t, before, i)
      && i < |ps|
    requires Open(ps[i], now) && ps[i].incomingBandwidth != 0
      && t * ps[i].outgoingData / SCALE > Capacity(ps[i], elapsed)
    ensures ps[i].outgoingData > 0
    ensures var c := Capacity(ps[i], elapsed);
      Pass(ps0, ps[i := Clip(ps[i], now, elapsed)], shares[i := Clipped(ps[i], elapsed)], now, elapsed, limited, budget,
           (total - c) % WORDS, (bandwidth - c) % WORDS, left - 1, true, t, before, i + 1)
      && (limited ==> (total - c) % WORDS == total - c && (bandwidth - c) % WORDS == bandwidth - c)
  {
    hide OpenData, OpenCount, Weighted, Throttle, Clipping, Capacity, Clip, Clipped, Content, Open, Solvent;
    PassFacts(ps0, ps, shares, now, elapsed, limited, budget, total, bandwidth, left, more, t, before, i);
    ClipOne(ps0, ps, shares, now, elapsed, i, t);
    var c, ps', shares' := Capacity(ps[i], elapsed), ps[i := Clip(ps[i], now, elapsed)],
      shares[i := Clipped(ps[i], elapsed)];
    if limited {
      ClipStep(ps0, ps, shares, now, elapsed, i, t, total, bandwidth, budget);
      SolventFacts(ps', ps0, shares', now, total - c, bandwidth - c, budget);
      NoWrap(ps, ps0, shares, now, total, bandwidth, budget, i, c);
    }
  }

  lemma SolventFacts(ps: seq<Peer>, ps0: seq<Peer>, shares: seq<nat>, now: nat, total: int, bandwidth: int, budget: nat)
    requires Solvent(ps, ps0, shares, now, total, bandwidth, budget)
    ensures total >= 0 && bandwidth >= 0
  {
  }

  lemma PassFacts(ps0: seq<Peer>, ps: seq<Peer>, shares: seq<nat>, now: nat, elapsed: nat, limited: bool, budget: nat,
                  total: int, bandwidth: int, left: int, more: bool, t: nat, before: int, i: nat)
    requires Pass(ps0, ps, shares, now, elapsed, limited, budget, total, bandwidth, left, more, t, before, i)
    ensures |ps0| == |ps| == |shares| && total >= 0 && bandwidth >= 0 && left >= 0
      && Clipping(ps0, ps, shares, now, elapsed)
  {
  }

  lemma BetweenFacts(ps0: seq<Peer>, ps: seq<Peer>, shares: seq<nat>, now: nat, elapsed: nat, limited: bool,
                     budget: nat,
                     total: int, bandwidth: int, left: int, more: bool)
    requires Between(ps0, ps, shares, now, elapsed, limited, budget, total, bandwidth, left, more)
    ensures total >= 0 && bandwidth >= 0 && left == OpenCount(ps, now)
    ensures left == 0 || !more ==> Content(ps, now, elapsed, Throttle(total, bandwidth), |ps|)
    ensures Clipping(ps0, ps, shares, now, elapsed)
    ensures if limited then Solvent(ps, ps0, shares, now, total, bandwidth, budget) else total == bandwidth
  {
    if left == 0 { NoneLeft(ps, now); }
  }

  lemma BetweenStart(ps: seq<Peer>, shares: seq<nat>, now: nat, elapsed: nat, limited: bool, total: nat,
                     bandwidth: nat, more: bool)
    requires |ps| == |shares| && forall i :: 0 <= i < |shares| ==> shares[i] == 0
    requires forall i :: 0 <= i < |ps| && ps[i].connected ==> ps[i].outgoingEpoch != now
    requires !more ==> forall i :: 0 <= i < |ps| && ps[i].connected ==> ps[i].incomingBandwidth == 0
    requires total < WORDS && bandwidth < WORDS
    requires if limited then total == OpenData(ps, now) else total == bandwidth
    ensures Between(ps, ps, shares, now, elapsed, limited, bandwidth, total, bandwidth, OpenCount(ps, now), more)
  {
    hide OpenData, OpenCount, Weighted, Throttle;
    ClippingStart(ps, shares, now, elapsed);
    WeightedNone(ps, shares);
  }

  /** What the peers clipped so far can take in. */
  function ClippedCapacity(ps0: seq<Peer>, ps: seq<Peer>, now: nat, elapsed: nat): nat
    requires |ps0| == |ps|
  {
    if ps == [] then 0 else
      var n := |ps| - 1;
      ClippedCapacity(ps0[..n], ps[..n], now, elapsed) + if Open(ps0[n], now) && !Open(ps[n], now) then
          Capacity(ps0[n], elapsed) else 0
  }

  lemma {:induction false} ClippedMore(ps0: seq<Peer>, ps: seq<Peer>, now: nat, elapsed: nat, i: nat, p: Peer)
    requires |ps0| == |ps| && i < |ps| && Open(ps0[i], now) && Open(ps[i], now) && !Open(p, now)
    ensures ClippedCapacity(ps0, ps[i := p], now, elapsed)
      == ClippedCapacity(ps0, ps, now, elapsed) + Capacity(ps0[i], elapsed)
  {
    hide Capacity;
    var n := |ps| - 1;
    if i == n {
      assert ps[i := p][..n] == ps[..n];
    } else {
      ClippedMore(ps0[..n], ps[..n], now, elapsed, i, p);
      assert ps[i := p][..n] == ps[..n][i := p];
    }
  }

  lemma {:induction false} NoneClipped(ps: seq<Peer>, now: nat, elapsed: nat)
    ensures ClippedCapacity(ps, ps, now, elapsed) == 0
  {
    if ps != [] { NoneClipped(ps[..|ps| - 1], now, elapsed); }
  }

  lemma ClipCounts(ps0: seq<Peer>, ps: seq<Peer>, shares: seq<nat>, now: nat, elapsed: nat, i: nat)
    requires Clipping(ps0, ps, shares, now, elapsed) && i < |ps| && Open(ps[i], now) && ps[i].outgoingData > 0
    ensures |ps0| == |ps|
    ensures ClippedCapacity(ps0, ps[i := Clip(ps[i], now, elapsed)], now, elapsed)
      == ClippedCapacity(ps0, ps, now, elapsed) + Capacity(ps[i], elapsed)
  {
    hide Capacity, Clipped;
    assert ClippedOrNot(ps0[i], ps[i], shares[i], now, elapsed);
    ClippedMore(ps0, ps, now, elapsed, i, Clip(ps[i], now, elapsed));
  }

  /** The passes that clip the peers taking in less than their share would be. Without a limit
      of its own the host starts from all ones, and the two counters keep wrapping together. */
  method ClipPeers(peers: array<Peer>, now: nat, elapsed: nat, ghost limited: bool, total0: nat, bandwidth0: nat,
                   connectedPeers: nat, limitedPeers: nat)
    returns (total: int, bandwidth: int, peersRemaining: int, ghost shares: seq<nat>)
    requires forall i :: 0 <= i < peers.Length && peers[i].connected ==> peers[i].outgoingEpoch != now
    requires connectedPeers == OpenCount(peers[..], now)
    requires limitedPeers == 0 ==> forall i :: 0 <= i < peers.Length && peers[i].connected ==>
      peers[i].incomingBandwidth == 0
    requires total0 < WORDS && bandwidth0 < WORDS
    requires if limited then total0 == OpenData(peers[..], now) else total0 == bandwidth0
    modifies peers
    ensures Clipping(old(peers[..]), peers[..], shares, now, elapsed)
    ensures peersRemaining == OpenCount(peers[..], now)
    ensures total >= 0 && bandwidth >= 0
    ensures limited ==> var taken := ClippedCapacity(old(peers[..]), peers[..], now, elapsed);
      total == total0 - taken && bandwidth == bandwidth0 - taken
    ensures if limited then Solvent(peers[..], old(peers[..]), shares, now, total, bandwidth, bandwidth0)
      else total == bandwidth
    ensures Content(peers[..], now, elapsed, Throttle(total, bandwidth), peers.Length)
    ensures AllFair(old(peers[..]), peers[..], now, elapsed, total0, bandwidth0)
  {
    hide OpenData, OpenCount, Weighted, Capacity, Clipped, Clip, Throttle, Pass, Between, Clipping, Solvent, Content,
      ClippedCapacity, AllFair;
    ghost var ps0 := peers[..];
    NoneClipped(ps0, now, elapsed);
    total, bandwidth, peersRemaining := total0, bandwidth0, connectedPeers;
    shares := seq(peers.Length, i => 0);
    var needsAdjustment := limitedPeers > 0;
    BetweenStart(ps0, shares, now, elapsed, limited, total, bandwidth, needsAdjustment);
    FairStart(ps0, now, elapsed, total0, bandwidth0);
    while peersRemaining > 0 && needsAdjustment
      invariant Between(ps0, peers[..], shares, now, elapsed, limited, bandwidth0, total, bandwidth, peersRemaining,
                        needsAdjustment)
      invariant limited ==> total == total0 - ClippedCapacity(ps0, peers[..], now, elapsed)
      invariant limited ==> bandwidth == bandwidth0 - ClippedCapacity(ps0, peers[..], now, elapsed)
      invariant AllFair(ps0, peers[..], now, elapsed, total0, bandwidth0)
      decreases peersRemaining, needsAdjustment
    {
      BetweenFacts(ps0, peers[..], shares, now, elapsed, limited, bandwidth0, total, bandwidth, peersRemaining,
                   needsAdjustment);
      PassStart(ps0, peers[..], shares, now, elapsed, limited, bandwidth0, total, bandwidth, peersRemaining,
                needsAdjustment);
      needsAdjustment := false;
      var throttle := Throttle(total, bandwidth);
      ghost var before, taken := peersRemaining, ClippedCapacity(ps0, peers[..], now, elapsed);
      for i := 0 to peers.Length
        invariant AllFair(ps0, peers[..], now, elapsed, total0, bandwidth0)
        invariant Pass(ps0, peers[..], shares, now, elapsed, limited, bandwidth0, total, bandwidth,
                       peersRemaining, needsAdjustment, throttle, before, i)
        invariant limited ==> total == total0 - ClippedCapacity(ps0, peers[..], now, elapsed)
        invariant limited ==> bandwidth == bandwidth0 - ClippedCapacity(ps0, peers[..], now, elapsed)
      {
        var peer := peers[i];
        ghost var ps := peers[..];
        PassFacts(ps0, ps, shares, now, elapsed, limited, bandwidth0, total, bandwidth, peersRemaining, needsAdjustment,
                  throttle, before, i);
        var peerBandwidth := Capacity(peer, elapsed);
        if !peer.connected || peer.incomingBandwidth == 0 || peer.outgoingEpoch == now
           || throttle * peer.outgoingData / SCALE <= peerBandwidth {
          PassSkip(ps0, ps, shares, now, elapsed, limited, bandwidth0, total, bandwidth, peersRemaining,
                   needsAdjustment, throttle, before, i);
          continue;
        }
        PassClip(ps0, ps, shares, now, elapsed, limited, bandwidth0, total, bandwidth, peersRemaining, needsAdjustment,
                 throttle, before, i);
        ClipIs(peer, now, elapsed);
        ClippedWas(ps0, ps, shares, now, elapsed, i);
        FairOne(peer, Clip(peer, now, elapsed), now, elapsed, total0, bandwidth0, if limited then taken else 0,
                throttle);
        FairStep(ps0, ps, now, elapsed, total0, bandwidth0, i, Clip(peer, now, elapsed));
        ClipCounts(ps0, ps, shares, now, elapsed, i);
        shares := shares[i := Clipped(peer, elapsed)];
        var limit := peerBandwidth * SCALE / peer.outgoingData;
        if limit == 0 { limit := 1; }
        peers[i] := peer.(packetThrottleLimit := limit,
                          packetThrottle := if peer.packetThrottle > limit then limit else peer.packetThrottle,
                          outgoingEpoch := now, incomingData := 0, outgoingData := 0);
        assert peers[..] == ps[i := Clip(peer, now, elapsed)];
        needsAdjustment := true;
        peersRemaining := peersRemaining - 1;
        bandwidth := (bandwidth - peerBandwidth) % WORDS;
        total := (total - peerBandwidth) % WORDS;
      }
      PassEnd(ps0, peers[..], shares, now, elapsed, limited, bandwidth0, total, bandwidth, peersRemaining,
              needsAdjustment, throttle, before);
    }
    BetweenFacts(ps0, peers[..], shares, now, elapsed, limited, bandwidth0, total, bandwidth, peersRemaining,
                 needsAdjustment);
  }

  /** A peer is clipped only when it cannot take in its part of the bandwidth, the one that is to the
      whole as its data is to the total. */
  ghost predicate Fair(p0: Peer, p: Peer, now: nat, elapsed: nat, total: nat, bandwidth: nat) {
    p0.connected && p.outgoingEpoch == now && total > bandwidth ==>
      p0.incomingBandwidth * elapsed / 1000 * total < bandwidth * p0.outgoingData
  }

  ghost predicate AllFair(ps0: seq<Peer>, ps: seq<Peer>, now: nat, elapsed: nat, total: nat, bandwidth: nat) {
    |ps0| == |ps| && forall i :: 0 <= i < |ps| ==> Fair(ps0[i], ps[i], now, elapsed, total, bandwidth)
  }

  lemma FairStart(ps: seq<Peer>, now: nat, elapsed: nat, total: nat, bandwidth: nat)
    requires forall i :: 0 <= i < |ps| && ps[i].connected ==> ps[i].outgoingEpoch != now
    ensures AllFair(ps, ps, now, elapsed, total, bandwidth)
  {
  }

  /** The share of any pass is at most that of the first, so that a peer which cannot take in the
      one cannot take in the other. */
  lemma FairOne(p: Peer, q: Peer, now: nat, elapsed: nat, total: nat, bandwidth: nat, taken: nat, t: nat)
    requires taken <= bandwidth && (total > bandwidth ==> t <= Throttle(total - taken, bandwidth - taken))
    requires t * p.outgoingData / SCALE > Capacity(p, elapsed)
    ensures Fair(p, q, now, elapsed, total, bandwidth)
  {
    hide Throttle, Capacity;
    if total > bandwidth {
      ShareNeverRises(total, bandwidth, taken);
      AtMost(t, Throttle(total, bandwidth), p.outgoingData);
      ThrottleLess(Throttle(total, bandwidth), total, total, bandwidth);
      UnderShare(Capacity(p, elapsed), p.outgoingData, Throttle(total, bandwidth), total, bandwidth);
      CapacityIs(p, elapsed);
    }
  }

  lemma CapacityIs(p: Peer, elapsed: nat)
    ensures Capacity(p, elapsed) == p.incomingBandwidth * elapsed / 1000
  {
  }

  lemma UnderShare(c: nat, d: nat, u: nat, total: nat, bandwidth: nat)
    requires u * d / SCALE > c && u * total <= SCALE * bandwidth && total > 0
    ensures c * total < bandwidth * d
  {
    LessTimes(SCALE * c, u * d, total);
    assert u * d * total == u * total * d;
    AtMost(u * total, SCALE * bandwidth, d);
    assert SCALE * (c * total) < SCALE * (bandwidth * d);
  }

  lemma LessTimes(a: nat, b: nat, c: nat)
    requires a < b && c > 0
    ensures a * c < b * c
  {
  }

  lemma FairStep(ps0: seq<Peer>, ps: seq<Peer>, now: nat, elapsed: nat, total: nat, bandwidth: nat, i: nat, p: Peer)
    requires AllFair(ps0, ps, now, elapsed, total, bandwidth) && i < |ps|
    requires Fair(ps0[i], p, now, elapsed, total, bandwidth)
    ensures AllFair(ps0, ps[i := p], now, elapsed, total, bandwidth)
  {
    hide Fair;
  }

  lemma NoWrap(ps: seq<Peer>, ps0: seq<Peer>, shares: seq<nat>, now: nat, total: int, bandwidth: int, budget: nat,
               i: nat, c: nat)
    requires i < |ps| && Open(ps[i], now) && Solvent(ps, ps0, shares, now, total, bandwidth, budget)
    requires c <= ps[i].outgoingData && total < WORDS && bandwidth < WORDS && bandwidth - c >= 0
    ensures (total - c) % WORDS == total - c && (bandwidth - c) % WORDS == bandwidth - c
  {
    OpenHas(ps, now, i);
  }

  /** Clipping one peer, without a budget to keep. */
  lemma ClipOne(ps0: seq<Peer>, ps: seq<Peer>, shares: seq<nat>, now: nat, elapsed: nat, i: nat, t: nat)
    requires Clipping(ps0, ps, shares, now, elapsed) && i < |ps| && Open(ps[i], now) && ps[i].incomingBandwidth != 0
    requires t <= SCALE && t * ps[i].outgoingData / SCALE > Capacity(ps[i], elapsed)
    ensures ps[i].outgoingData > 0 && Capacity(ps[i], elapsed) < ps[i].outgoingData
    ensures Clipping(ps0, ps[i := Clip(ps[i], now, elapsed)], shares[i := Clipped(ps[i], elapsed)], now, elapsed)
    ensures OpenCount(ps[i := Clip(ps[i], now, elapsed)], now) == OpenCount(ps, now) - 1 >= 0
  {
    hide OpenData, OpenCount, Capacity, Clipped;
    assert ClippedOrNot(ps0[i], ps[i], shares[i], now, elapsed);
    ClippedFits(ps[i], elapsed, t);
    Close(ps, now, i, Clip(ps[i], now, elapsed));
    OpenHas(ps, now, i);
    var ps', shares' := ps[i := Clip(ps[i], now, elapsed)], shares[i := Clipped(ps[i], elapsed)];
    forall k | 0 <= k < |ps'|
      ensures ClippedOrNot(ps0[k], ps'[k], shares'[k], now, elapsed)
    {
      assert ClippedOrNot(ps0[k], ps[k], shares[k], now, elapsed);
    }
  }

  lemma ClipIs(p: Peer, now: nat, elapsed: nat)
    requires p.outgoingData > 0
    ensures Clipped(p, elapsed) == Capacity(p, elapsed) * SCALE / p.outgoingData
    ensures var limit := if Clipped(p, elapsed) == 0 then 1 else Clipped(p, elapsed);
      Clip(p, now, elapsed) == p.(packetThrottleLimit := limit,
        packetThrottle := if p.packetThrottle > limit then limit else p.packetThrottle,
        outgoingEpoch := now, incomingData := 0, outgoingData := 0)
  {
  }

  lemma ClippedWas(ps0: seq<Peer>, ps: seq<Peer>, shares: seq<nat>, now: nat, elapsed: nat, i: nat)
    requires Clipping(ps0, ps, shares, now, elapsed) && i < |ps| && Open(ps[i], now)
    ensures |ps0| == |ps| && ps0[i] == ps[i]
  {
    assert ClippedOrNot(ps0[i], ps[i], shares[i], now, elapsed);
  }

  lemma ClippingStart(ps: seq<Peer>, shares: seq<nat>, now: nat, elapsed: nat)
    requires |ps| == |shares| && forall i :: 0 <= i < |shares| ==> shares[i] == 0
    requires forall i :: 0 <= i < |ps| && ps[i].connected ==> ps[i].outgoingEpoch != now
    ensures Clipping(ps, ps, shares, now, elapsed)
  {
  }

  lemma ThrottleIs(total: nat, bandwidth: nat)
    ensures Throttle(total, bandwidth) <= SCALE && (total == bandwidth ==> Throttle(total, bandwidth) == SCALE)
  {
  }

  lemma NoneLeft(ps: seq<Peer>, now: nat)
    requires OpenCount(ps, now) == 0
    ensures forall i :: 0 <= i < |ps| ==> !Open(ps[i], now)
  {
    forall i | 0 <= i < |ps|
      ensures !Open(ps[i], now)
    {
      if Open(ps[i], now) { OpenHas(ps, now, i); }
    }
  }

  /** A peer before and after the outgoing bandwidth has been divided. */
  ghost predicate Divided(p0: Peer, p: Peer, share: nat, now: nat, elapsed: nat, t: nat) {
    if !p0.connected then p == p0 && share == 0
    else if p.outgoingEpoch == now then
      && p0.outgoingData > 0 && p0.incomingBandwidth != 0 && Capacity(p0, elapsed) < p0.outgoingData
      && share == Clipped(p0, elapsed) && p == Clip(p0, now, elapsed)
    else
      && share == t && p == Give(p0, t)
      && (p0.incomingBandwidth != 0 ==> t * p0.outgoingData / SCALE <= Capacity(p0, elapsed))
  }

  /** The loop that gives the open peers before n their share. */
  ghost predicate Giving(ps0: seq<Peer>, clipped: seq<Peer>, ps: seq<Peer>, shares: seq<nat>, now: nat, elapsed: nat,
                         t: nat, n: nat) {
    && |ps0| == |clipped| == |ps| == |shares| && n <= |ps|
    && (forall i :: 0 <= i < n ==> Divided(ps0[i], ps[i], shares[i], now, elapsed, t))
    && forall i :: n <= i < |ps| ==> ps[i] == clipped[i] && ClippedOrNot(ps0[i], ps[i], shares[i], now, elapsed)
  }

  lemma {:induction false} OpenDataPrefix(ps: seq<Peer>, now: nat, i: nat)
    requires i < |ps|
    ensures OpenData(ps[..i + 1], now) == OpenData(ps[..i], now) + if Open(ps[i], now) then ps[i].outgoingData else 0
  {
    assert ps[..i + 1][..i] == ps[..i];
  }

  lemma GiveStep(ps0: seq<Peer>, clipped: seq<Peer>, ps: seq<Peer>, shares: seq<nat>, now: nat, elapsed: nat, t: nat,
                 i: nat)
    requires Giving(ps0, clipped, ps, shares, now, elapsed, t, i) && i < |ps|
    requires Content(clipped, now, elapsed, t, |clipped|)
    requires forall k :: 0 <= k < |ps0| && ps0[k].connected ==> ps0[k].outgoingEpoch != now
    ensures if Open(ps[i], now) then
        && ps0[i] == ps[i]
        && Giving(ps0, clipped, ps[i := Give(ps[i], t)], shares[i := t], now, elapsed, t, i + 1)
        && Weighted(ps0, shares[i := t]) == Weighted(ps0, shares) + t * ps[i].outgoingData
      else Giving(ps0, clipped, ps, shares, now, elapsed, t, i + 1)
  {
    hide Weighted, Capacity, Clipped, Clip;
    assert ClippedOrNot(ps0[i], ps[i], shares[i], now, elapsed);
    ClipCloses(ps0[i], now, elapsed);
    if Open(ps[i], now) { WeightedSet(ps0, shares, i, t); }
  }

  lemma ClipCloses(p: Peer, now: nat, elapsed: nat)
    ensures p.outgoingData > 0 ==>
      Clip(p, now, elapsed).outgoingEpoch == now && Clip(p, now, elapsed).connected == p.connected
  {
  }

  lemma WithinBudget(ps: seq<Peer>, ps0: seq<Peer>, shares: seq<nat>, now: nat, total: nat, bandwidth: nat, budget: nat)
    requires Solvent(ps, ps0, shares, now, total, bandwidth, budget)
    ensures Weighted(ps0, shares) + Throttle(total, bandwidth) * OpenData(ps, now) <= SCALE * budget
  {
    hide OpenData, Weighted, Throttle;
    ThrottleLess(Throttle(total, bandwidth), OpenData(ps, now), total, bandwidth);
  }

  lemma GivingStart(ps0: seq<Peer>, ps: seq<Peer>, shares: seq<nat>, now: nat, elapsed: nat, t: nat)
    requires Clipping(ps0, ps, shares, now, elapsed)
    ensures Giving(ps0, ps, ps, shares, now, elapsed, t, 0)
  {
  }

  lemma GivingAll(ps0: seq<Peer>, clipped: seq<Peer>, ps: seq<Peer>, shares: seq<nat>, now: nat, elapsed: nat, t: nat)
    requires Giving(ps0, clipped, ps, shares, now, elapsed, t, |ps|)
    ensures |ps0| == |shares| == |ps| && forall i :: 0 <= i < |ps| ==>
      Divided(ps0[i], ps[i], shares[i], now, elapsed, t)
  {
  }

  lemma NoneToGive(ps0: seq<Peer>, ps: seq<Peer>, shares: seq<nat>, now: nat, elapsed: nat, t: nat)
    requires Clipping(ps0, ps, shares, now, elapsed) && OpenCount(ps, now) == 0
    requires forall k :: 0 <= k < |ps0| && ps0[k].connected ==> ps0[k].outgoingEpoch != now
    ensures Giving(ps0, ps, ps, shares, now, elapsed, t, |ps|) && OpenData(ps, now) == 0
  {
    NoneLeft(ps, now);
    NoData(ps, now);
    forall i | 0 <= i < |ps|
      ensures Divided(ps0[i], ps[i], shares[i], now, elapsed, t)
    {
      assert ClippedOrNot(ps0[i], ps[i], shares[i], now, elapsed);
      assert !Open(ps[i], now);
    }
  }

  lemma {:induction false} NoData(ps: seq<Peer>, now: nat)
    requires forall i :: 0 <= i < |ps| ==> !Open(ps[i], now)
    ensures OpenData(ps, now) == 0
  {
    if ps != [] { NoData(ps[..|ps| - 1], now); }
  }

  /** What the division grants a peer. One that is clipped gets what it can take in, as so many
      thirty-seconds of its data, and any other the common share, which it can take in. Its throttle
      limit is its share, for a clipped peer at least one, and its throttle is brought under the
      limit; its data is counted anew and nothing else of it changes. */
  ghost predicate Granted(p0: Peer, p: Peer, share: nat, now: nat, elapsed: nat, common: nat) {
    if !p0.connected then p == p0
    else
      var capacity := p0.incomingBandwidth * elapsed / 1000;
      var clipped := p.outgoingEpoch == now;
      var limit := if clipped && share == 0 then 1 else share;
      && (if clipped then
            && p0.incomingBandwidth != 0 && capacity < p0.outgoingData
            && share * p0.outgoingData <= 32 * capacity < (share + 1) * p0.outgoingData
          else share == common && (p0.incomingBandwidth != 0 ==> share * p0.outgoingData / 32 <= capacity))
      && p == p0.(packetThrottleLimit := limit,
                  packetThrottle := if p0.packetThrottle < limit then p0.packetThrottle else limit,
                  outgoingEpoch := if clipped then now else p0.outgoingEpoch, incomingData := 0, outgoingData := 0)
  }

  lemma GrantedOne(p0: Peer, p: Peer, share: nat, now: nat, elapsed: nat, t: nat)
    requires Divided(p0, p, share, now, elapsed, t) && (p0.connected ==> p0.outgoingEpoch != now)
    ensures Granted(p0, p, share, now, elapsed, t)
  {
    if p0.connected && p.outgoingEpoch == now {
      var c, d := Capacity(p0, elapsed), p0.outgoingData;
      assert share * d + c * SCALE % d == c * SCALE;
      assert (share + 1) * d == share * d + d;
    }
  }

  lemma AllGranted(ps0: seq<Peer>, ps: seq<Peer>, shares: seq<nat>, now: nat, elapsed: nat, t: nat)
    requires |ps0| == |ps| == |shares|
    requires forall i :: 0 <= i < |ps0| && ps0[i].connected ==> ps0[i].outgoingEpoch != now
    requires forall i :: 0 <= i < |ps| ==> Divided(ps0[i], ps[i], shares[i], now, elapsed, t)
    ensures forall i :: 0 <= i < |ps| ==> Granted(ps0[i], ps[i], shares[i], now, elapsed, t)
  {
    hide Divided, Granted;
    forall i | 0 <= i < |ps|
      ensures Granted(ps0[i], ps[i], shares[i], now, elapsed, t)
    {
      GrantedOne(ps0[i], ps[i], shares[i], now, elapsed, t);
    }
  }

  /** Which peers are connected and which are clipped is the same. */
  ghost predicate SameClips(ps: seq<Peer>, qs: seq<Peer>) {
    && |ps| == |qs|
    && forall i :: 0 <= i < |ps| ==> SameClip(ps[i], qs[i])
  }

  ghost predicate SameClip(p: Peer, q: Peer) {
    p.connected == q.connected && p.outgoingEpoch == q.outgoingEpoch
  }

  lemma {:induction false} SameCapacity(ps0: seq<Peer>, ps: seq<Peer>, qs: seq<Peer>, now: nat, elapsed: nat)
    requires |ps0| == |ps| && SameClips(ps, qs)
    ensures ClippedCapacity(ps0, ps, now, elapsed) == ClippedCapacity(ps0, qs, now, elapsed)
  {
    hide Capacity;
    if ps != [] {
      assert SameClip(ps[|ps| - 1], qs[|qs| - 1]);
      SameCapacity(ps0[..|ps| - 1], ps[..|ps| - 1], qs[..|ps| - 1], now, elapsed);
    }
  }

  lemma SameFair(ps0: seq<Peer>, ps: seq<Peer>, qs: seq<Peer>, now: nat, elapsed: nat, total: nat, bandwidth: nat)
    requires AllFair(ps0, ps, now, elapsed, total, bandwidth) && SameClips(ps, qs)
    ensures AllFair(ps0, qs, now, elapsed, total, bandwidth)
  {
    forall i | 0 <= i < |qs|
      ensures Fair(ps0[i], qs[i], now, elapsed, total, bandwidth)
    {
      assert SameClip(ps[i], qs[i]) && Fair(ps0[i], ps[i], now, elapsed, total, bandwidth);
    }
  }

  lemma SameGive(ps: seq<Peer>, qs: seq<Peer>, i: nat, t: nat)
    requires SameClips(ps, qs) && i < |qs|
    ensures SameClips(ps, qs[i := Give(qs[i], t)])
  {
    assert SameClip(ps[i], qs[i]);
  }

  /** The outgoing bandwidth is shared out as it should be: the common share is that of the demand
      in the bandwidth, each less what the clipped peers take in, only peers that cannot take in
      their part are clipped, and together the shares send no more than the bandwidth. */
  ghost predicate Apportioned(ps0: seq<Peer>, ps: seq<Peer>, shares: seq<nat>, now: nat, elapsed: nat,
                              outgoingBandwidth: nat, common: nat)
    requires |ps0| == |ps| == |shares|
  {
    var bandwidth, total, taken := outgoingBandwidth * elapsed / 1000, OpenData(ps0, now),
      ClippedCapacity(ps0, ps, now, elapsed);
    && taken <= bandwidth && taken <= total && CommonShare(common, total - taken, bandwidth - taken)
    && AllFair(ps0, ps, now, elapsed, total, bandwidth) && Weighted(ps0, shares) <= 32 * bandwidth
  }

  lemma SameApportioned(ps0: seq<Peer>, ps: seq<Peer>, qs: seq<Peer>, shares: seq<nat>, now: nat, elapsed: nat,
                        outgoingBandwidth: nat, common: nat)
    requires |ps0| == |ps| == |shares| && SameClips(ps, qs)
    requires Apportioned(ps0, ps, shares, now, elapsed, outgoingBandwidth, common)
    ensures Apportioned(ps0, qs, shares, now, elapsed, outgoingBandwidth, common)
  {
    hide OpenData, ClippedCapacity, Weighted, CommonShare, AllFair;
    SameCapacity(ps0, ps, qs, now, elapsed);
    SameFair(ps0, ps, qs, now, elapsed, OpenData(ps0, now), outgoingBandwidth * elapsed / 1000);
  }

  /** Divides the outgoing bandwidth: nobody is sent more than it can take in, and together the
      peers are sent no more than the host may send. */
  method DivideOutgoing(peers: array<Peer>, now: nat, elapsed: nat, outgoingBandwidth: nat, connectedPeers: nat,
                        limitedPeers: nat)
    returns (ghost shares: seq<nat>, ghost common: nat)
    requires forall i :: 0 <= i < peers.Length && peers[i].connected ==> peers[i].outgoingEpoch != now
    requires connectedPeers == OpenCount(peers[..], now)
    requires limitedPeers == 0 ==> forall i :: 0 <= i < peers.Length && peers[i].connected ==>
      peers[i].incomingBandwidth == 0
    requires Fits(peers[..], now, elapsed, outgoingBandwidth)
    modifies peers
    ensures |shares| == peers.Length
    ensures forall i :: 0 <= i < peers.Length ==> Divided(old(peers[..])[i], peers[i], shares[i], now, elapsed, common)
    ensures forall i :: 0 <= i < peers.Length ==>
      Granted(old(peers[..])[i], peers[i], shares[i], now, elapsed, common)
    ensures if outgoingBandwidth == 0 then common == 32
      else Apportioned(old(peers[..]), peers[..], shares, now, elapsed, outgoingBandwidth, common)
  {
    hide OpenData, OpenCount, Weighted, Capacity, Clipped, Clip, Throttle, Clipping, Solvent, Content, Giving, Divided,
      Granted, SameClips, AllFair, CommonShare, Apportioned, ClippedCapacity;
    ghost var ps0 := peers[..];
    var dataTotal, bandwidth := WORDS - 1, WORDS - 1;
    FitsTotal(ps0, now, elapsed, outgoingBandwidth);
    if outgoingBandwidth != 0 {
      dataTotal := 0;
      bandwidth := outgoingBandwidth * elapsed / 1000;
      NoOpenData(ps0, now);
      for i := 0 to peers.Length
        invariant dataTotal == OpenData(ps0[..i], now) && peers[..] == ps0
      {
        OpenDataPrefix(ps0, now, i);
        if peers[i].connected { dataTotal := dataTotal + peers[i].outgoingData; }
      }
      assert ps0[..peers.Length] == ps0;
    }
    ghost var budget := bandwidth;
    var total, left, remaining;
    total, left, remaining, shares := ClipPeers(peers, now, elapsed, outgoingBandwidth != 0, dataTotal, bandwidth,
                                                connectedPeers, limitedPeers);
    ghost var clipped, clips := peers[..], shares;
    var throttle := Throttle(total, left);
    common := throttle;
    ThrottleIs(total, left);
    ShareIs(total, left);
    SameStart(clipped);
    if outgoingBandwidth != 0 { WithinBudget(clipped, ps0, shares, now, total, left, budget); }
    if remaining > 0 {
      GivingStart(ps0, clipped, shares, now, elapsed, throttle);
      NoOpenData(clipped, now);
      for i := 0 to peers.Length
        invariant |shares| == peers.Length && Giving(ps0, clipped, peers[..], shares, now, elapsed, throttle, i)
        invariant Weighted(ps0, shares) == Weighted(ps0, clips) + throttle * OpenData(clipped[..i], now)
        invariant SameClips(clipped, peers[..])
      {
        ghost var ps := peers[..];
        GiveStep(ps0, clipped, ps, shares, now, elapsed, throttle, i);
        GivingAt(ps0, clipped, ps, shares, now, elapsed, throttle, i);
        OpenDataPrefix(clipped, now, i);
        var peer := peers[i];
        if !peer.connected || peer.outgoingEpoch == now { continue; }
        Spread(throttle, OpenData(clipped[..i], now), peer.outgoingData);
        SameGive(clipped, ps, i, throttle);
        shares := shares[i := throttle];
        peers[i] := peer.(packetThrottleLimit := throttle,
                          packetThrottle := if peer.packetThrottle > throttle then throttle else peer.packetThrottle,
                          incomingData := 0, outgoingData := 0);
        assert peers[..] == ps[i := Give(peer, throttle)];
      }
      assert clipped[..peers.Length] == clipped;
    } else {
      NoneToGive(ps0, clipped, shares, now, elapsed, throttle);
    }
    GivingAll(ps0, clipped, peers[..], shares, now, elapsed, throttle);
    AllGranted(ps0, peers[..], shares, now, elapsed, throttle);
    if outgoingBandwidth != 0 {
      SameApportioned(ps0, clipped, peers[..], shares, now, elapsed, outgoingBandwidth, common) by {
        ApportionedIs(ps0, clipped, shares, now, elapsed, outgoingBandwidth, common, total, left);
      }
    }
  }

  lemma SameStart(ps: seq<Peer>)
    ensures SameClips(ps, ps)
  {
  }

  lemma ApportionedIs(ps0: seq<Peer>, ps: seq<Peer>, shares: seq<nat>, now: nat, elapsed: nat,
                      outgoingBandwidth: nat, common: nat, total: nat, left: nat)
    requires |ps0| == |ps| == |shares|
    requires total == OpenData(ps0, now) - ClippedCapacity(ps0, ps, now, elapsed)
    requires left == outgoingBandwidth * elapsed / 1000 - ClippedCapacity(ps0, ps, now, elapsed)
    requires CommonShare(common, total, left)
    requires AllFair(ps0, ps, now, elapsed, OpenData(ps0, now), outgoingBandwidth * elapsed / 1000)
    requires Weighted(ps0, shares) <= 32 * (outgoingBandwidth * elapsed / 1000)
    ensures Apportioned(ps0, ps, shares, now, elapsed, outgoingBandwidth, common)
  {
    hide OpenData, ClippedCapacity, Weighted, CommonShare, AllFair;
  }

  lemma GivingAt(ps0: seq<Peer>, clipped: seq<Peer>, ps: seq<Peer>, shares: seq<nat>, now: nat, elapsed: nat, t: nat,
                 i: nat)
    requires Giving(ps0, clipped, ps, shares, now, elapsed, t, i) && i < |ps|
    ensures |clipped| == |ps| && clipped[i] == ps[i]
  {
  }

  lemma Spread(t: nat, r: nat, d: nat)
    ensures t * (r + d) == t * r + t * d
  {
  }

  lemma NoOpenData(ps: seq<Peer>, now: nat)
    ensures OpenData(ps[..0], now) == 0
  {
  }

  lemma FitsTotal(ps: seq<Peer>, now: nat, elapsed: nat, outgoingBandwidth: nat)
    requires Fits(ps, now, elapsed, outgoingBandwidth)
    ensures OpenData(ps, now) < WORDS && outgoingBandwidth * elapsed / 1000 < WORDS
  {
  }

  /** No peer with a limit of its own is granted more than it can take in. */
  lemma GrantWithinCapacity(p0: Peer, p: Peer, share: nat, now: nat, elapsed: nat, t: nat)
    requires p0.connected && Divided(p0, p, share, now, elapsed, t) && p0.incomingBandwidth != 0
    ensures share * p0.outgoingData / SCALE <= Capacity(p0, elapsed)
    ensures p.packetThrottleLimit == share || (share == 0 && p.packetThrottleLimit == 1)
    ensures p.packetThrottle <= p.packetThrottleLimit
  {
    hide Capacity;
    if p.outgoingEpoch == now {
      ThrottleFits(p0.outgoingData, Capacity(p0, elapsed));
    }
  }

  /** While demand exceeds the bandwidth, clipping a peer never raises the share of the others:
      the code takes off the total what the peer can take in, not what it wanted to be sent. */
  lemma ShareNeverRises(total: nat, bandwidth: nat, c: nat)
    requires bandwidth < total && c <= bandwidth
    ensures Throttle(total - c, bandwidth - c) <= Throttle(total, bandwidth)
  {
    var t, b := total - c, bandwidth - c;
    var u := Throttle(t, b);
    ThrottleFits(t, b);
    CrossLess(total, bandwidth, c);
    assert u * t * total <= SCALE * b * total by { AtMost(u * t, SCALE * b, total); }
    assert SCALE * b * total <= SCALE * bandwidth * t;
    assert u * total * t == u * t * total;
    if u * total > SCALE * bandwidth { AtMost(SCALE * bandwidth + 1, u * total, t); }
    QuotientAtLeast(u, total, bandwidth * SCALE);
  }

  lemma CrossLess(total: nat, bandwidth: nat, c: nat)
    requires bandwidth < total && c <= bandwidth
    ensures (bandwidth - c) * total <= bandwidth * (total - c)
  {
    assert (bandwidth - c) * total == bandwidth * total - c * total;
    assert bandwidth * (total - c) == bandwidth * total - bandwidth * c;
    assert c * total >= c * bandwidth by { AtMost(bandwidth, total, c); }
  }

  lemma QuotientAtLeast(u: nat, d: nat, n: nat)
    requires d > 0 && u * d <= n
    ensures u <= n / d
  {
    if u > n / d { AtMost(n / d + 1, u, d); }
  }

  // ---- incoming bandwidth ----

  predicate Waiting(p: Peer, now: nat) {
    p.connected && p.incomingEpoch != now
  }

  function WaitingCount(ps: seq<Peer>, now: nat): nat {
    if ps == [] then 0
    else WaitingCount(ps[..|ps| - 1], now) + if Waiting(ps[|ps| - 1], now) then 1 else 0
  }

  /** What the connected peers are told they may send, all together. */
  function Told(ps: seq<Peer>): nat {
    if ps == [] then 0
    else Told(ps[..|ps| - 1]) + if ps[|ps| - 1].connected then ps[|ps| - 1].told else 0
  }

  /** The outgoing bandwidth of the peers no longer waiting. */
  function Settled(ps: seq<Peer>, now: nat): nat {
    if ps == [] then 0 else
      var p := ps[|ps| - 1];
      Settled(ps[..|ps| - 1], now) + if p.connected && p.incomingEpoch == now then p.outgoingBandwidth else 0
  }

  lemma {:induction false} Settle(ps: seq<Peer>, now: nat, i: nat)
    requires i < |ps| && Waiting(ps[i], now)
    ensures WaitingCount(ps, now) >= 1
    ensures WaitingCount(ps[i := ps[i].(incomingEpoch := now)], now) == WaitingCount(ps, now) - 1
    ensures Settled(ps[i := ps[i].(incomingEpoch := now)], now) == Settled(ps, now) + ps[i].outgoingBandwidth
  {
    var n := |ps| - 1;
    var t := ps[i := ps[i].(incomingEpoch := now)];
    if i == n {
      assert t[..n] == ps[..n];
    } else {
      Settle(ps[..n], now, i);
      assert t[..n] == ps[..n][i := ps[i].(incomingEpoch := now)];
    }
  }

  lemma {:induction false} WaitingHas(ps: seq<Peer>, now: nat, i: nat)
    requires i < |ps| && Waiting(ps[i], now)
    ensures WaitingCount(ps, now) >= 1
  {
    if i < |ps| - 1 { WaitingHas(ps[..|ps| - 1], now, i); }
  }

  lemma {:induction false} NoneSettled(ps: seq<Peer>, now: nat)
    requires forall i :: 0 <= i < |ps| && ps[i].connected ==> ps[i].incomingEpoch != now
    ensures Settled(ps, now) == 0
  {
    if ps != [] { NoneSettled(ps[..|ps| - 1], now); }
  }

  /** Under the water level: the peer would not use a share as large as the limit. */
  predicate Under(p: Peer, limit: nat) {
    p.outgoingBandwidth == 0 || p.outgoingBandwidth < limit
  }

  /** Peers before and after some have been settled, each under the limit. */
  ghost predicate Filling(ps0: seq<Peer>, ps: seq<Peer>, now: nat, limit: nat) {
    && |ps0| == |ps|
    && forall i :: 0 <= i < |ps| ==>
         ps[i] == ps0[i] || (ps0[i].connected && Under(ps0[i], limit) && ps[i] == ps0[i].(incomingEpoch := now))
  }

  /** The waiting peers before n use the whole limit. */
  ghost predicate Over(ps: seq<Peer>, now: nat, limit: nat, n: nat) {
    n <= |ps| && forall i :: 0 <= i < n && Waiting(ps[i], now) ==> !Under(ps[i], limit)
  }

  /** Between two passes: what is left over covers the limit for all who wait. */
  ghost predicate Level(ps0: seq<Peer>, ps: seq<Peer>, now: nat, budget: nat, bandwidth: int, left: int, limit: nat,
                        more: bool) {
    && Filling(ps0, ps, now, limit) && left == WaitingCount(ps, now)
    && bandwidth >= limit * left && Settled(ps, now) + bandwidth == budget
    && (!more ==> Over(ps, now, limit, |ps|) && (left > 0 ==> bandwidth < (limit + 1) * left))
  }

  /** Within a pass, before peer i; before peers were waiting when it began. */
  ghost predicate Rise(ps0: seq<Peer>, ps: seq<Peer>, now: nat, budget: nat, bandwidth: int, left: int, limit: nat,
                       more: bool,
                       before: int, i: nat) {
    && Filling(ps0, ps, now, limit) && left == WaitingCount(ps, now) && i <= |ps|
    && bandwidth >= limit * left && Settled(ps, now) + bandwidth == budget
    && if more then left < before
       else left == before && Over(ps, now, limit, i) && (left > 0 ==> bandwidth < (limit + 1) * left)
  }

  lemma RiseStart(ps0: seq<Peer>, ps: seq<Peer>, now: nat, budget: nat, bandwidth: int, left: int, limit: nat,
                  more: bool)
    requires Level(ps0, ps, now, budget, bandwidth, left, limit, more) && left > 0
    ensures bandwidth >= 0 && bandwidth / left >= limit
    ensures Rise(ps0, ps, now, budget, bandwidth, left, bandwidth / left, false, left, 0)
  {
    hide WaitingCount, Settled;
    var next := bandwidth / left;
    assert bandwidth == next * left + bandwidth % left;
    assert (next + 1) * left == next * left + left;
    assert limit * left >= 0;
    QuotientAtLeast(limit, left, bandwidth);
  }

  lemma RiseSkip(ps0: seq<Peer>, ps: seq<Peer>, now: nat, budget: nat, bandwidth: int, left: int, limit: nat,
                 more: bool,
                 before: int, i: nat)
    requires Rise(ps0, ps, now, budget, bandwidth, left, limit, more, before, i) && i < |ps|
    requires Waiting(ps[i], now) ==> !Under(ps[i], limit)
    ensures Rise(ps0, ps, now, budget, bandwidth, left, limit, more, before, i + 1)
  {
    hide WaitingCount, Settled, Filling;
  }

  lemma RiseSettle(ps0: seq<Peer>, ps: seq<Peer>, now: nat, budget: nat, bandwidth: int, left: int, limit: nat,
                   more: bool,
                   before: int, i: nat)
    requires Rise(ps0, ps, now, budget, bandwidth, left, limit, more, before, i) && i < |ps|
    requires Waiting(ps[i], now) && Under(ps[i], limit)
    ensures bandwidth - ps[i].outgoingBandwidth >= 0
    ensures Rise(ps0, ps[i := ps[i].(incomingEpoch := now)], now, budget, bandwidth - ps[i].outgoingBandwidth, left - 1,
                 limit, true,
                 before, i + 1)
  {
    hide WaitingCount, Settled;
    Settle(ps, now, i);
    assert limit * left == limit * (left - 1) + limit;
    assert limit * (left - 1) >= 0;
  }

  lemma RiseEnd(ps0: seq<Peer>, ps: seq<Peer>, now: nat, budget: nat, bandwidth: int, left: int, limit: nat,
                more: bool, before: int)
    requires Rise(ps0, ps, now, budget, bandwidth, left, limit, more, before, |ps|)
    ensures Level(ps0, ps, now, budget, bandwidth, left, limit, more)
    ensures if more then left < before else left == before
  {
  }

  lemma RiseFacts(ps0: seq<Peer>, ps: seq<Peer>, now: nat, budget: nat, bandwidth: int, left: int, limit: nat,
                  more: bool,
                  before: int, i: nat)
    requires Rise(ps0, ps, now, budget, bandwidth, left, limit, more, before, i)
    ensures left >= 0
  {
  }

  lemma LevelStart(ps: seq<Peer>, now: nat, budget: nat)
    requires forall i :: 0 <= i < |ps| && ps[i].connected ==> ps[i].incomingEpoch != now
    ensures Level(ps, ps, now, budget, budget, WaitingCount(ps, now), 0, true)
  {
    hide WaitingCount, Settled;
    NoneSettled(ps, now);
  }

  lemma LevelDone(ps0: seq<Peer>, ps: seq<Peer>, now: nat, budget: nat, bandwidth: int, left: int, limit: nat,
                  more: bool)
    requires Level(ps0, ps, now, budget, bandwidth, left, limit, more) && (left <= 0 || !more)
    requires forall i :: 0 <= i < |ps0| && ps0[i].connected ==> ps0[i].incomingEpoch != now
    ensures |ps0| == |ps| && Settled(ps, now) + limit * WaitingCount(ps, now) <= budget
    ensures WaitingCount(ps, now) > 0 ==>
      budget < Settled(ps, now) + limit * WaitingCount(ps, now) + WaitingCount(ps, now)
    ensures forall i :: 0 <= i < |ps| ==> Leveled(ps0[i], ps[i], now, limit)
  {
    hide Settled;
    forall i | 0 <= i < |ps|
      ensures Leveled(ps0[i], ps[i], now, limit)
    {
      if Waiting(ps[i], now) { WaitingHas(ps, now, i); }
    }
    if left > 0 { assert (limit + 1) * left == limit * left + left; }
  }

  /** A peer is settled exactly when it is under the limit. */
  ghost predicate Leveled(p0: Peer, p: Peer, now: nat, limit: nat) {
    if p0.connected && Under(p0, limit) then p == p0.(incomingEpoch := now) else p == p0
  }

  /** The passes that settle the peers using less than an equal share. */
  method SettlePeers(peers: array<Peer>, now: nat, incomingBandwidth: nat, connectedPeers: nat) returns (limit: nat)
    requires forall i :: 0 <= i < peers.Length && peers[i].connected ==> peers[i].incomingEpoch != now
    requires connectedPeers == WaitingCount(peers[..], now)
    modifies peers
    ensures connectedPeers > 0 ==> limit >= incomingBandwidth / connectedPeers
    ensures forall i :: 0 <= i < peers.Length ==> Leveled(old(peers[..])[i], peers[i], now, limit)
    ensures Settled(peers[..], now) + limit * WaitingCount(peers[..], now) <= incomingBandwidth
    ensures WaitingCount(peers[..], now) > 0 ==>
      incomingBandwidth < Settled(peers[..], now) + limit * WaitingCount(peers[..], now) + WaitingCount(peers[..], now)
  {
    hide WaitingCount, Settled, Level, Rise, Leveled;
    ghost var ps0 := peers[..];
    var bandwidth, peersRemaining, needsAdjustment := incomingBandwidth, connectedPeers as int, true;
    limit := 0;
    LevelStart(ps0, now, incomingBandwidth);
    while peersRemaining > 0 && needsAdjustment
      invariant Level(ps0, peers[..], now, incomingBandwidth, bandwidth, peersRemaining, limit, needsAdjustment)
      invariant (connectedPeers > 0 ==> limit >= incomingBandwidth / connectedPeers)
        || (bandwidth == incomingBandwidth && peersRemaining == connectedPeers && needsAdjustment)
      decreases peersRemaining, needsAdjustment
    {
      RiseStart(ps0, peers[..], now, incomingBandwidth, bandwidth, peersRemaining, limit, needsAdjustment);
      needsAdjustment := false;
      limit := bandwidth / peersRemaining;
      ghost var before := peersRemaining;
      for i := 0 to peers.Length
        invariant Rise(ps0, peers[..], now, incomingBandwidth, bandwidth, peersRemaining, limit, needsAdjustment,
                       before, i)
      {
        var peer := peers[i];
        if !peer.connected || peer.incomingEpoch == now
          || (peer.outgoingBandwidth > 0 && peer.outgoingBandwidth >= limit) {
          RiseSkip(ps0, peers[..], now, incomingBandwidth, bandwidth, peersRemaining, limit, needsAdjustment, before,
                   i);
          continue;
        }
        RiseSettle(ps0, peers[..], now, incomingBandwidth, bandwidth, peersRemaining, limit, needsAdjustment, before,
                   i);
        ghost var ps := peers[..];
        peers[i] := peer.(incomingEpoch := now);
        assert peers[..] == ps[i := peer.(incomingEpoch := now)];
        needsAdjustment := true;
        peersRemaining := peersRemaining - 1;
        bandwidth := bandwidth - peer.outgoingBandwidth;
      }
      RiseFacts(ps0, peers[..], now, incomingBandwidth, bandwidth, peersRemaining, limit, needsAdjustment, before,
                peers.Length);
      RiseEnd(ps0, peers[..], now, incomingBandwidth, bandwidth, peersRemaining, limit, needsAdjustment, before);
    }
    LevelDone(ps0, peers[..], now, incomingBandwidth, bandwidth, peersRemaining, limit, needsAdjustment);
  }

  lemma {:induction false} ToldSum(ps: seq<Peer>, told: seq<Peer>, now: nat, limit: nat)
    requires |ps| == |told|
    requires forall i :: 0 <= i < |ps| ==> told[i].connected == ps[i].connected
    requires forall i :: 0 <= i < |ps| && ps[i].connected ==>
      told[i].told == if ps[i].incomingEpoch == now then ps[i].outgoingBandwidth else limit
    ensures Told(told) == Settled(ps, now) + limit * WaitingCount(ps, now)
  {
    if ps != [] {
      var n := |ps| - 1;
      ToldSum(ps[..n], told[..n], now, limit);
      assert limit * (WaitingCount(ps[..n], now) + 1) == limit * WaitingCount(ps[..n], now) + limit;
    }
  }

  /** Each connected peer is told to send what it can, but at most the limit. */
  ghost predicate IsTold(p0: Peer, p: Peer, limit: nat) {
    && p.(told := p0.told, incomingEpoch := p0.incomingEpoch) == p0
    && (p0.connected ==> p.told == if Under(p0, limit) then p0.outgoingBandwidth else limit)
    && (!p0.connected ==> p == p0)
  }

  /** Divides the incoming bandwidth to a common water level: together the peers are told to
      send no more than the host takes in, and when some are held at the level less than one
      unit for each of them is left over. */
  method DivideIncoming(peers: array<Peer>, now: nat, incomingBandwidth: nat, connectedPeers: nat) returns (limit: nat)
    requires forall i :: 0 <= i < peers.Length && peers[i].connected ==> peers[i].incomingEpoch != now
    requires connectedPeers == WaitingCount(peers[..], now)
    modifies peers
    ensures forall i :: 0 <= i < peers.Length ==> IsTold(old(peers[..])[i], peers[i], limit)
    ensures incomingBandwidth > 0 ==> Told(peers[..]) <= incomingBandwidth
    ensures incomingBandwidth > 0 ==>
      (exists i :: 0 <= i < peers.Length && old(peers[..])[i].connected && !Under(old(peers[..])[i], limit)) ==>
      incomingBandwidth < Told(peers[..]) + connectedPeers
    ensures incomingBandwidth == 0 ==> limit == 0
    ensures connectedPeers > 0 ==> limit >= incomingBandwidth / connectedPeers
    ensures forall i :: 0 <= i < peers.Length && peers[i].connected ==>
      (peers[i].told == 0 <==> peers[i].outgoingBandwidth == 0 || limit == 0)
  {
    hide WaitingCount, Settled, Told;
    ghost var ps0 := peers[..];
    limit := 0;
    if incomingBandwidth != 0 {
      limit := SettlePeers(peers, now, incomingBandwidth, connectedPeers);
    }
    ghost var ps := peers[..];
    for i := 0 to peers.Length
      invariant forall k :: 0 <= k < i ==> peers[k] == ps[k].(told := if ps[k].connected then
        (if ps[k].incomingEpoch == now then ps[k].outgoingBandwidth else limit) else ps[k].told)
      invariant forall k :: i <= k < peers.Length ==> peers[k] == ps[k]
    {
      var peer := peers[i];
      if !peer.connected { continue; }
      if peer.incomingEpoch == now {
        peers[i] := peer.(told := peer.outgoingBandwidth);
      } else {
        peers[i] := peer.(told := limit);
      }
    }
    ToldSum(ps, peers[..], now, limit);
    if i :| 0 <= i < |ps| && ps0[i].connected && !Under(ps0[i], limit) && incomingBandwidth > 0 {
      WaitingHas(ps, now, i);
      FewerWaiting(ps0, ps, now, limit);
    }
  }

  lemma {:induction false} FewerWaiting(ps0: seq<Peer>, ps: seq<Peer>, now: nat, limit: nat)
    requires |ps0| == |ps| && forall i :: 0 <= i < |ps| ==> Leveled(ps0[i], ps[i], now, limit)
    ensures WaitingCount(ps, now) <= WaitingCount(ps0, now)
  {
    if ps != [] { FewerWaiting(ps0[..|ps| - 1], ps[..|ps| - 1], now, limit); }
  }

  // ---- the whole throttle ----

  lemma DividedKeeps(ps0: seq<Peer>, ps: seq<Peer>, shares: seq<nat>, now: nat, elapsed: nat, t: nat)
    requires |ps0| == |ps| == |shares|
    requires forall i :: 0 <= i < |ps| ==> Divided(ps0[i], ps[i], shares[i], now, elapsed, t)
    ensures forall i :: 0 <= i < |ps| ==>
      ps[i].connected == ps0[i].connected && ps[i].incomingEpoch == ps0[i].incomingEpoch && ps[i].told == ps0[i].told
  {
    hide Capacity, Clipped;
  }

  lemma {:induction false} SameCount(ps0: seq<Peer>, ps: seq<Peer>, now: nat)
    requires |ps0| == |ps|
    requires forall i :: 0 <= i < |ps| ==>
      ps[i].connected == ps0[i].connected && ps[i].incomingEpoch == ps0[i].incomingEpoch
    requires forall i :: 0 <= i < |ps| && ps0[i].connected ==>
      ps0[i].outgoingEpoch != now && ps0[i].incomingEpoch != now
    ensures WaitingCount(ps, now) == OpenCount(ps0, now)
  {
    if ps != [] { SameCount(ps0[..|ps| - 1], ps[..|ps| - 1], now); }
  }

  lemma AllGrantedTold(ps0: seq<Peer>, ps1: seq<Peer>, ps: seq<Peer>, shares: seq<nat>, now: nat, elapsed: nat,
                       t: nat)
    requires |ps0| == |ps1| == |ps| == |shares|
    requires forall i :: 0 <= i < |ps| ==> Granted(ps0[i], ps1[i], shares[i], now, elapsed, t)
    requires forall i :: 0 <= i < |ps| ==> SameButTold(ps1[i], ps[i])
    ensures forall i :: 0 <= i < |ps| ==> GrantedTold(ps0[i], ps[i], shares[i], now, elapsed, t)
    ensures SameClips(ps1, ps)
  {
    forall i | 0 <= i < |ps|
      ensures GrantedTold(ps0[i], ps[i], shares[i], now, elapsed, t) && SameClip(ps1[i], ps[i])
    {
      assert SameButTold(ps1[i], ps[i]);
    }
  }

  /** What becomes of a peer whatever it is told. */
  ghost predicate GrantedTold(p0: Peer, p: Peer, share: nat, now: nat, elapsed: nat, common: nat) {
    && Granted(p0, p.(told := p0.told, incomingEpoch := p0.incomingEpoch), share, now, elapsed, common)
    && (!p0.connected ==> p == p0)
  }

  ghost predicate SameButTold(p0: Peer, p: Peer) {
    && p.(told := p0.told, incomingEpoch := p0.incomingEpoch) == p0
    && (!p0.connected ==> p == p0)
  }

  /** Every connected peer is told what it can send, but at most the level, which is no less than an
      equal part of the bandwidth; it adds up to no more than the bandwidth and, when a peer is held
      at the level, to less than one unit a peer under it. */
  ghost predicate AllTold(ps: seq<Peer>, bandwidth: nat, connectedPeers: nat, level: nat) {
    && (forall i :: 0 <= i < |ps| && ps[i].connected ==>
          ps[i].told == if ps[i].outgoingBandwidth < level then ps[i].outgoingBandwidth else level)
    && (connectedPeers > 0 ==> level >= bandwidth / connectedPeers) && (bandwidth == 0 ==> level == 0)
    && (bandwidth > 0 ==> Told(ps) <= bandwidth)
    && (bandwidth > 0 && (exists i :: 0 <= i < |ps| && ps[i].connected && ps[i].outgoingBandwidth > ps[i].told) ==>
          bandwidth < Told(ps) + connectedPeers)
  }

  lemma AllToldIs(ps0: seq<Peer>, ps: seq<Peer>, bandwidth: nat, connectedPeers: nat, level: nat)
    requires |ps0| == |ps| && forall i :: 0 <= i < |ps| ==> IsTold(ps0[i], ps[i], level)
    requires connectedPeers > 0 ==> level >= bandwidth / connectedPeers
    requires bandwidth == 0 ==> level == 0
    requires bandwidth > 0 ==> Told(ps) <= bandwidth
    requires bandwidth > 0 && (exists i :: 0 <= i < |ps| && ps0[i].connected && !Under(ps0[i], level)) ==>
      bandwidth < Told(ps) + connectedPeers
    ensures AllTold(ps, bandwidth, connectedPeers, level)
    ensures forall i :: 0 <= i < |ps| ==> SameButTold(ps0[i], ps[i])
  {
    hide Told;
    forall i | 0 <= i < |ps|
      ensures SameButTold(ps0[i], ps[i])
      ensures ps[i].connected ==>
        ps[i].told == if ps[i].outgoingBandwidth < level then ps[i].outgoingBandwidth else level
    {
      assert IsTold(ps0[i], ps[i], level);
    }
    if i :| 0 <= i < |ps| && ps[i].connected && ps[i].outgoingBandwidth > ps[i].told {
      assert IsTold(ps0[i], ps[i], level) && !Under(ps0[i], level);
    }
  }

  class Host {
    const peers: array<Peer>
    var throttleEpoch: nat
    var connectedPeers: nat
    var bandwidthLimitedPeers: nat
    var outgoingBandwidth: nat
    var incomingBandwidth: nat
    var recalculate: bool

    constructor (peers: array<Peer>)
      ensures this.peers == peers
    {
      this.peers := peers;
    }

    /** The counts of connected and of limited peers are right and no peer was handled at this time. */
    ghost predicate Ready(now: nat)
      reads this, peers
    {
      && (forall i :: 0 <= i < peers.Length && peers[i].connected ==>
            peers[i].outgoingEpoch != now && peers[i].incomingEpoch != now)
      && connectedPeers == OpenCount(peers[..], now)
      && (bandwidthLimitedPeers == 0 ==> forall i :: 0 <= i < peers.Length && peers[i].connected ==>
            peers[i].incomingBandwidth == 0)
    }

    /** enet_host_bandwidth_throttle, given the time. Told is what the peers may send: each what it can,
        but at most a common level, which is no less than an equal part. */
    method Throttle(now: nat) returns (ghost shares: seq<nat>, ghost common: nat, ghost level: nat)
      requires now < WORDS && throttleEpoch < WORDS && Ready(now)
      requires Fits(peers[..], now, (now - throttleEpoch) % WORDS, outgoingBandwidth)
      modifies this`throttleEpoch, this`recalculate, peers
      ensures (now - old(throttleEpoch)) % 0x1_0000_0000 < 1000 ==>
        peers[..] == old(peers[..]) && throttleEpoch == old(throttleEpoch) && recalculate == old(recalculate)
      ensures (now - old(throttleEpoch)) % 0x1_0000_0000 >= 1000 ==> throttleEpoch == now
      ensures (now - old(throttleEpoch)) % 0x1_0000_0000 >= 1000 && connectedPeers == 0 ==>
        peers[..] == old(peers[..]) && recalculate == old(recalculate)
      ensures var elapsed := (now - old(throttleEpoch)) % 0x1_0000_0000;
        elapsed >= 1000 && connectedPeers > 0 ==>
          && !recalculate && |shares| == peers.Length
          && (forall i :: 0 <= i < peers.Length ==>
                GrantedTold(old(peers[..])[i], peers[i], shares[i], now, elapsed, common))
          && (if outgoingBandwidth == 0 then common == 32
              else Apportioned(old(peers[..]), peers[..], shares, now, elapsed, outgoingBandwidth, common))
          && if old(recalculate) then AllTold(peers[..], incomingBandwidth, connectedPeers, level)
             else forall i :: 0 <= i < peers.Length ==> peers[i].told == old(peers[..])[i].told
    {
      hide OpenCount, OpenData, WaitingCount, Weighted, Told, Divided, Capacity, Granted, GrantedTold, Apportioned,
        SameClips, AllTold;
      shares, common, level := [], 0, 0;
      var elapsed := (now - throttleEpoch) % WORDS;
      if elapsed < INTERVAL { return; }
      throttleEpoch := now;
      if connectedPeers == 0 { return; }
      ghost var ps0 := peers[..];
      shares, common := DivideOutgoing(peers, now, elapsed, outgoingBandwidth, connectedPeers, bandwidthLimitedPeers);
      ghost var ps1 := peers[..];
      DividedKeeps(ps0, ps1, shares, now, elapsed, common);
      if recalculate {
        recalculate := false;
        SameCount(ps0, ps1, now);
        level := DivideIncoming(peers, now, incomingBandwidth, connectedPeers);
        AllToldIs(ps1, peers[..], incomingBandwidth, connectedPeers, level);
      }
      AllGrantedTold(ps0, ps1, peers[..], shares, now, elapsed, common);
      if outgoingBandwidth != 0 {
        SameApportioned(ps0, ps1, peers[..], shares, now, elapsed, outgoingBandwidth, common);
      }
    }
  }
}
