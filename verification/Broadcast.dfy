/** A packet sent to several peers at once (enet_host_broadcast in Externals/enet/host.c): the peers
    share it, and its one reference count is the number of commands of all of them that hold it. */
module Broadcast {
  import opened OutgoingChannel
  import opened PeerQueues
  import opened ReliableChannel

  function Sum(h: seq<nat>): nat {
    if h == [] then 0 else Sum(h[..|h| - 1]) + h[|h| - 1]
  }

  lemma {:induction false} SumChanged(h: seq<nat>, i: nat, v: nat)
    requires i < |h|
    ensures Sum(h[i := v]) == Sum(h) - h[i] + v
  {
    var n := |h| - 1;
    if i < n {
      SumChanged(h[..n], i, v);
      assert h[i := v][..n] == h[..n][i := v];
    } else {
      assert h[i := v][..n] == h[..n];
    }
  }

  /** How many commands of each peer hold the packet. */
  ghost function Shares(peers: seq<Channel>, p: SharedPacket): (h: seq<nat>)
    reads peers
    ensures |h| == |peers| && forall i :: 0 <= i < |peers| ==> h[i] == peers[i].Holds(p)
  {
    if peers == [] then [] else Shares(peers[..|peers| - 1], p) + [peers[|peers| - 1].Holds(p)]
  }

  /** The peers of a host: each keeps its accounts, and each packet is counted as often as commands
      of all peers together hold it. */
  ghost predicate Shared(peers: seq<Channel>, packets: set<SharedPacket>)
    reads peers, packets
  {
    && (forall i, j :: 0 <= i < j < |peers| ==> peers[i] != peers[j])
    && (forall i :: 0 <= i < |peers| ==> peers[i].pool <= packets && peers[i].Valid() && peers[i].Accounts())
    && forall p :: p in packets ==> p.referenceCount == Sum(Shares(peers, p))
  }

  /** The peer is connected and takes a packet of this size. */
  predicate Takes(c: Channel, packet: SharedPacket)
    reads c
    requires c.mtu >= MINIMUM_MTU
  {
    && c.connected && |packet.data| <= c.maximumPacketSize
    && (|packet.data| > c.Room() ==> Pieces(Packet(packet.data, c.Room())) <= MAXIMUM_FRAGMENT_COUNT)
  }

  /** The peer has gained just the commands of the packet, if it takes it. */
  twostate predicate Took(c: Channel, packet: SharedPacket)
    reads c
  {
    && c.mtu >= MINIMUM_MTU && Grown(old(c.reliables), c.reliables, packet)
    && Grown(old(c.unreliables), c.unreliables, packet)
    && |c.reliables| + |c.unreliables| == |old(c.reliables)| + |old(c.unreliables)|
         + if old(Takes(c, packet)) then Span(Packet(packet.data, c.Room())) else 0
  }

  lemma RoomToSend(peers: seq<Channel>, packets: set<SharedPacket>)
    requires Shared(peers, packets)
    ensures forall i :: 0 <= i < |peers| ==> peers[i].mtu >= MINIMUM_MTU
    ensures forall i, j :: 0 <= i < j < |peers| ==> peers[i] != peers[j]
  {
  }

  /** The commands a peer gains for a packet it takes. */
  lemma Emits(before: seq<Outgoing>, after: seq<Outgoing>, sent: seq<Packet>, packet: SharedPacket, room: nat)
    requires room > 0 && Emitted(before, after, sent + [Packet(packet.data, room)], packet)
    ensures |after| == |before| + Span(Packet(packet.data, room))
  {
    hide ReliablePart, Span;
  }

  lemma EmitsUnreliably(before: seq<Outgoing>, after: seq<Outgoing>, packet: SharedPacket, room: nat,
                        reliable: Word, unreliable: Word, group: Word)
    requires room > 0 && EmittedUnreliably(before, after, packet, room, reliable, unreliable, group)
    ensures |after| == |before| + Span(Packet(packet.data, room))
  {
    hide UnreliablePart, Span;
  }

  lemma Nothing(q: seq<Outgoing>, packet: SharedPacket)
    ensures Grown(q, q, packet)
  {
  }

  lemma Unconnected(c: Channel, packet: SharedPacket)
    requires c.mtu >= MINIMUM_MTU && !c.connected
    ensures !Takes(c, packet)
  {
  }

  /** enet_peer_send, and what it does to the counts. */
  method SendOne(c: Channel, packet: SharedPacket, ghost packets: set<SharedPacket>)
    requires c.Valid() && c.Accounts() && packet !in c.destroyed && c.pool <= packets && packet in packets
    modifies c, packet`referenceCount
    ensures c.Valid() && c.Accounts() && c.destroyed == old(c.destroyed) && c.pool <= packets && Took(c, packet)
    ensures packet.referenceCount == old(packet.referenceCount) + c.Holds(packet) - old(c.Holds(packet))
    ensures forall p :: p in packets && p != packet ==> c.Holds(p) == old(c.Holds(p))
    ensures c.Holds(packet) - old(c.Holds(packet)) == if old(Takes(c, packet)) then Span(Packet(packet.data, c.Room()))
      else 0
  {
    hide Holding, Grown, Emitted, EmittedUnreliably, Channel.Accounts, Channel.SentReliably, First, Span, Pieces;
    ghost var q, u := c.reliables, c.unreliables;
    ghost var reliably := c.SentReliably(packet);
    var error := c.Send(packet);
    if !error && reliably { Emits(q, c.reliables, old(c.sent), packet, c.Room()); }
    if !error && !reliably {
      EmitsUnreliably(u, c.unreliables, packet, c.Room(), c.outgoingReliable, c.outgoingUnreliable,
                      c.outgoingUnsequencedGroup);
    }
    HoldingMoreAll(q, c.reliables, packet);
    HoldingMoreAll(u, c.unreliables, packet);
    assert packet in c.pool && c.Others(packet) == old(c.Others(packet));
  }

  /** One of the peers takes a packet. */
  method SendTo(peers: seq<Channel>, i: nat, packet: SharedPacket, ghost packets: set<SharedPacket>)
    requires Shared(peers, packets) && packet in packets && i < |peers|
    requires forall j :: 0 <= j < |peers| ==> packet !in peers[j].destroyed
    modifies peers[i], packet`referenceCount
    ensures Shared(peers, packets) && Took(peers[i], packet) && peers[i].destroyed == old(peers[i].destroyed)
    ensures packet.referenceCount == old(packet.referenceCount)
      + if old(Takes(peers[i], packet)) then Span(Packet(packet.data, peers[i].Room())) else 0
  {
    hide Channel.Valid, Channel.Holds, Sum, Span, Takes, Took;
    var c := peers[i];
    RoomToSend(peers, packets);
    SendOne(c, packet, packets);
    forall p | p in packets
      ensures p.referenceCount == Sum(Shares(peers, p))
    {
      var h := old(Shares(peers, p));
      assert forall j :: 0 <= j < |peers| && j != i ==> peers[j].Holds(p) == old(peers[j].Holds(p));
      assert Shares(peers, p) == h[i := c.Holds(p)];
      SumChanged(h, i, c.Holds(p));
    }
  }

  /** enet_host_broadcast: exactly the peers that can take the packet have gained its commands, and it
      is destroyed exactly when nobody holds it. */
  method Broadcast(peers: seq<Channel>, packet: SharedPacket, ghost packets: set<SharedPacket>)
    returns (destroyed: bool)
    requires Shared(peers, packets) && packet in packets
    requires forall i :: 0 <= i < |peers| ==> packet !in peers[i].destroyed
    modifies peers, packet`referenceCount
    ensures Shared(peers, packets) && forall i :: 0 <= i < |peers| ==> Took(peers[i], packet)
    ensures destroyed <==> packet.referenceCount == 0
    ensures destroyed <==>
      old(packet.referenceCount) == 0 && forall i :: 0 <= i < |peers| ==>
        peers[i].mtu >= MINIMUM_MTU && !old(Takes(peers[i], packet))
  {
    hide Shared, Takes, Span, Grown;
    RoomToSend(peers, packets);
    var i := 0;
    while i < |peers|
      invariant i <= |peers| && Shared(peers, packets)
      invariant forall j, k :: 0 <= j < k < |peers| ==> peers[j] != peers[k]
      invariant forall j :: 0 <= j < |peers| ==> packet !in peers[j].destroyed && peers[j].mtu >= MINIMUM_MTU
      invariant forall j :: i <= j < |peers| ==> unchanged(peers[j])
      invariant forall j :: 0 <= j < i ==> Took(peers[j], packet)
      invariant packet.referenceCount == 0 <==>
        old(packet.referenceCount) == 0 && forall j :: 0 <= j < i ==> !old(Takes(peers[j], packet))
    {
      if peers[i].connected {
        SendTo(peers, i, packet, packets);
      } else {
        Unconnected(peers[i], packet);
        Nothing(peers[i].reliables, packet);
        Nothing(peers[i].unreliables, packet);
      }
      i := i + 1;
    }
    destroyed := packet.referenceCount == 0;
  }
}
