/** The sending side of an ENet channel (Externals/enet/peer.c): how a packet becomes commands,
    what sequence numbers they get, and who holds the packet. */
module OutgoingChannel {
  import opened PeerQueues
  import opened IncomingChannel
  import opened ReliableChannel

  const MINIMUM_MTU := 576
  const HEADER_SIZE := 4
  const FRAGMENT_HEADER_SIZE := 24
  const CHECKSUM_SIZE := 4

  datatype Flags = Flags(reliable: bool, unsequenced: bool, unreliableFragment: bool)

  /** An application's packet, shared by the commands that carry its parts. */
  class SharedPacket {
    const data: seq<Byte>
    const flags: Flags
    var referenceCount: nat

    constructor (data: seq<Byte>, flags: Flags)
      ensures this.data == data && this.flags == flags && referenceCount == 0
    {
      this.data, this.flags, referenceCount := data, flags, 0;
    }
  }

  /** A queued command: the part [offset, offset + length) of its packet. */
  datatype Outgoing = Outgoing(kind: Kind, packet: SharedPacket, offset: nat, length: nat,
                               start: Word, count: nat, number: nat, reliable: Word, unreliable: Word, group: Word)

  /** How many commands of the queue hold the packet. */
  function Holding(q: seq<Outgoing>, p: SharedPacket): nat {
    if q == [] then 0 else Holding(q[..|q| - 1], p) + if q[|q| - 1].packet == p then 1 else 0
  }

  lemma {:induction false} HoldingRemoved(q: seq<Outgoing>, i: nat, p: SharedPacket)
    requires i < |q|
    ensures Holding(q, p) == Holding(q[..i] + q[i + 1..], p) + if q[i].packet == p then 1 else 0
  {
    var n := |q| - 1;
    if i < n {
      HoldingRemoved(q[..n], i, p);
      assert (q[..i] + q[i + 1..])[..n - 1] == q[..n][..i] + q[..n][i + 1..];
    } else {
      assert q[..i] + q[i + 1..] == q[..n];
    }
  }

  lemma {:induction false} HoldingAdded(q: seq<Outgoing>, more: seq<Outgoing>, p: SharedPacket, x: SharedPacket)
    requires forall k :: 0 <= k < |more| ==> more[k].packet == x
    ensures Holding(q + more, p) == Holding(q, p) + if p == x then |more| else 0
    decreases |more|
  {
    if more == [] {
      assert q + more == q;
    } else {
      assert (q + more)[..|q + more| - 1] == q + more[..|more| - 1];
      HoldingAdded(q, more[..|more| - 1], p, x);
    }
  }

  /** The fragment a reliable command puts on the wire. */
  function OnWire(x: Outgoing): Piece
    requires x.offset + x.length <= |x.packet.data|
  {
    Piece(x.start, x.number, x.count, x.offset, |x.packet.data|, x.packet.data[x.offset..x.offset + x.length])
  }

  /** Fragment k of a packet, before it has sequence numbers. */
  function FragmentCommand(p: SharedPacket, room: nat, kind: Kind, start: Word, k: nat): Outgoing
    requires 0 < room < |p.data| && k < Pieces(Packet(p.data, room))
  {
    PieceInside(Packet(p.data, room), k);
    var from := k * room;
    Outgoing(kind, p, from, Least(from + room, |p.data|) - from, start, Pieces(Packet(p.data, room)), k, 0, 0, 0)
  }

  lemma FragmentKind(p: SharedPacket, room: nat, kind: Kind, start: Word, k: nat)
    requires 0 < room < |p.data| && k < Pieces(Packet(p.data, room))
    ensures var x := FragmentCommand(p, room, kind, start, k);
      x.kind == kind && x.packet == p && (x.offset == 0 <==> k == 0)
  {
    PieceInside(Packet(p.data, room), k);
    if k > 0 { Monotone(1, k, room); }
  }

  lemma FragmentWire(p: SharedPacket, room: nat, kind: Kind, start: Word, k: nat, reliable: Word, unreliable: Word)
    requires 0 < room < |p.data| && k < Pieces(Packet(p.data, room))
    ensures var x := FragmentCommand(p, room, kind, start, k).(reliable := reliable, unreliable := unreliable);
      x.offset + x.length <= |p.data| && OnWire(x) == FragmentOf(Packet(p.data, room), start, k)
  {
    PieceInside(Packet(p.data, room), k);
  }

  /** x is command k of the last packet sent, as the receiver expects it. */
  ghost predicate ReliablePart(x: Outgoing, sent: seq<Packet>, k: nat, packet: SharedPacket)
    requires AllSendable(sent) && sent != []
  {
    var i := |sent| - 1;
    && x.packet == packet && x.offset + x.length <= |packet.data|
    && if Pieces(sent[i]) == 0 then
         Command(x.kind, x.reliable, x.unreliable, OnWire(x).data, x.count) == WholeCommand(sent, i)
       else
         k < Pieces(sent[i]) && x.kind == Fragment && x.reliable == (First(sent, i) + k) % WORDS
         && OnWire(x) == PieceOf(sent, i, k)
  }

  /** The new commands of a reliable queue are what the receiver expects for the last packet sent. */
  ghost predicate Emitted(before: seq<Outgoing>, after: seq<Outgoing>, sent: seq<Packet>, packet: SharedPacket) {
    && AllSendable(sent) && sent != [] && before <= after && |after| == |before| + Span(sent[|sent| - 1])
    && forall j :: |before| <= j < |after| ==> ReliablePart(after[j], sent, j - |before|, packet)
  }

  /** x is command k of a packet sent unreliably, with the current numbers of the channel. */
  ghost predicate UnreliablePart(x: Outgoing, packet: SharedPacket, room: nat, k: nat, reliable: Word,
                                 unreliable: Word, group: Word)
    requires room > 0
  {
    var p := Packet(packet.data, room);
    && x.packet == packet && x.offset + x.length <= |packet.data|
    && if Pieces(p) == 0 then
         && OnWire(x).data == packet.data
         && if packet.flags.unsequenced then
           x.kind == Unsequenced && x.reliable == 0 && x.unreliable == 0 && x.group == group
            else x.kind == Unreliable && x.reliable == reliable && x.unreliable == unreliable
       else
         && k < Pieces(p) && x.kind == UnreliableFragment && x.reliable == reliable && x.unreliable == unreliable
         && OnWire(x) == FragmentOf(p, unreliable, k)
  }

  /** The new commands of an unreliable queue carry the packet and the current numbers. */
  ghost predicate EmittedUnreliably(before: seq<Outgoing>, after: seq<Outgoing>, packet: SharedPacket, room: nat,
                                    reliable: Word, unreliable: Word, group: Word)
    requires room > 0
  {
    && before <= after && |after| == |before| + Span(Packet(packet.data, room))
    && forall j :: |before| <= j < |after| ==>
         UnreliablePart(after[j], packet, room, j - |before|, reliable, unreliable, group)
  }

  lemma FragmentPart(sent: seq<Packet>, packet: SharedPacket, room: nat, k: nat)
    requires AllSendable(sent) && sent != [] && sent[|sent| - 1] == Packet(packet.data, room)
    requires room < |packet.data| && k < Pieces(Packet(packet.data, room))
    ensures var first := First(sent, |sent| - 1);
      ReliablePart(FragmentCommand(packet, room, Fragment, first % WORDS, k).(reliable := (first + k) % WORDS,
          unreliable := 0),
                   sent, k, packet)
  {
    hide First, Pieces, FragmentCommand, FragmentOf, OnWire;
    var first := First(sent, |sent| - 1);
    FragmentKind(packet, room, Fragment, first % WORDS, k);
    FragmentWire(packet, room, Fragment, first % WORDS, k, (first + k) % WORDS, 0);
  }

  lemma UnreliableFragmentPart(packet: SharedPacket, room: nat, k: nat, reliable: Word, unreliable: Word, group: Word)
    requires 0 < room < |packet.data| && k < Pieces(Packet(packet.data, room))
    ensures UnreliablePart(
      FragmentCommand(packet, room, UnreliableFragment, unreliable, k).(reliable := reliable, unreliable := unreliable),
      packet, room, k, reliable, unreliable, group)
  {
    FragmentWire(packet, room, UnreliableFragment, unreliable, k, reliable, unreliable);
  }

  /** A queue that gained commands of one packet. */
  lemma HoldingMore(before: seq<Outgoing>, after: seq<Outgoing>, packet: SharedPacket, p: SharedPacket)
    requires before <= after && forall k :: |before| <= k < |after| ==> after[k].packet == packet
    ensures Holding(after, p) == Holding(before, p) + if p == packet then |after| - |before| else 0
  {
    assert after == before + after[|before|..];
    HoldingAdded(before, after[|before|..], p, packet);
  }

  lemma FragmentBounds(p: SharedPacket, room: nat, k: nat)
    requires room > 0 && k * room < |p.data| && |p.data| > room
    ensures k < Pieces(Packet(p.data, room))
    ensures k * room + room < |p.data| ==> (k + 1) * room < |p.data|
    ensures k * room + room >= |p.data| ==> k + 1 == Pieces(Packet(p.data, room))
  {
    var q := Packet(p.data, room);
    var n := Pieces(q);
    PieceInside(q, n - 1);
    if n <= k { Monotone(n, k, room); }
    if k + 1 < n { Monotone(k + 1, n - 1, room); }
    assert (k + 1) * room == k * room + room;
  }

  /** Numbers counted on from the first. */
  lemma CountedOn(first: nat, k: nat)
    requires first > 0
    ensures Next((first - 1 + k) % WORDS) == (first + k) % WORDS
  {
    AddWrapped(first - 1 + k, 1);
  }

  /** Taking the first command off a queue. */
  lemma HoldingFirst(q: seq<Outgoing>)
    requires q != []
    ensures forall p :: Holding(q, p) == Holding(q[1..], p) + if q[0].packet == p then 1 else 0
  {
    forall p
      ensures Holding(q, p) == Holding(q[1..], p) + if q[0].packet == p then 1 else 0
    {
      HoldingRemoved(q, 0, p);
      assert q[..0] + q[1..] == q[1..];
    }
  }

  lemma HoldingNone()
    ensures forall p :: Holding([], p) == 0
  {
  }

  /** Only commands of the packet have been added. */
  ghost predicate Grown(before: seq<Outgoing>, after: seq<Outgoing>, packet: SharedPacket) {
    before <= after && forall k :: |before| <= k < |after| ==> after[k].packet == packet
  }

  lemma HoldingMoreAll(before: seq<Outgoing>, after: seq<Outgoing>, packet: SharedPacket)
    requires Grown(before, after, packet)
    ensures forall p :: Holding(after, p) == Holding(before, p) + if p == packet then |after| - |before| else 0
  {
    forall p
      ensures Holding(after, p) == Holding(before, p) + if p == packet then |after| - |before| else 0
    {
      HoldingMore(before, after, packet, p);
    }
  }

  lemma {:induction false} NotHolding(q: seq<Outgoing>, pool: set<SharedPacket>, p: SharedPacket)
    requires forall k :: 0 <= k < |q| ==> q[k].packet in pool
    ensures p !in pool ==> Holding(q, p) == 0
  {
    if q != [] { NotHolding(q[..|q| - 1], pool, p); }
  }

  class Channel {
    const mtu: nat
    const checksum: bool
    const maximumPacketSize: nat
    var connected: bool
    var outgoingReliable: Word
    var outgoingUnreliable: Word
    var outgoingUnsequencedGroup: Word
    var reliables: seq<Outgoing>
    var unreliables: seq<Outgoing>
    /** The packets sent reliably so far. */
    ghost var sent: seq<Packet>
    /** Every packet ever handed over, and those destroyed since. */
    ghost var pool: set<SharedPacket>
    ghost var destroyed: set<SharedPacket>

    constructor (mtu: nat, checksum: bool, maximumPacketSize: nat)
      requires mtu >= MINIMUM_MTU
      ensures Valid() && Accounts() && reliables == [] && unreliables == [] && sent == [] && pool == {}
        && destroyed == {}
    {
      this.mtu, this.checksum, this.maximumPacketSize := mtu, checksum, maximumPacketSize;
      connected, outgoingReliable, outgoingUnreliable, outgoingUnsequencedGroup := true, 0, 0, 0;
      reliables, unreliables, sent, pool, destroyed := [], [], [], {}, {};
    }

    /** Room for packet data in one fragment: the unit without four bytes of header, 24 of the
        fragment's own and four of checksum if there is one. */
    function Room(): (room: nat)
      requires mtu >= MINIMUM_MTU
      ensures room > 0 && room + 4 + 24 + (if checksum then 4 else 0) == mtu
    {
      mtu - HEADER_SIZE - FRAGMENT_HEADER_SIZE - if checksum then CHECKSUM_SIZE else 0
    }

    ghost predicate Valid()
      reads this
    {
      && mtu >= MINIMUM_MTU && AllSendable(sent)
      && outgoingReliable == (First(sent, |sent|) - 1) % WORDS
    }

    /** How many commands of this peer hold the packet. */
    ghost function Holds(p: SharedPacket): nat
      reads this
    {
      Holding(reliables, p) + Holding(unreliables, p)
    }

    /** How many of the packet's references are not of this peer: a broadcast shares a packet. */
    ghost function Others(p: SharedPacket): int
      reads this, p
    {
      p.referenceCount - Holds(p)
    }

    /** Every command of this peer is counted, and the destroyed packets are those nobody holds any more. */
    ghost predicate Accounts()
      reads this, pool
    {
      && (forall p :: p in pool ==> Others(p) >= 0)
      && (forall p :: p in destroyed ==> p in pool && p.referenceCount == 0)
      && (forall k :: 0 <= k < |reliables| ==> reliables[k].packet in pool)
      && (forall k :: 0 <= k < |unreliables| ==> unreliables[k].packet in pool)
    }

    ghost predicate SentReliably(p: SharedPacket)
      reads this
      requires mtu >= MINIMUM_MTU
    {
      if |p.data| > Room() then !(!p.flags.reliable && p.flags.unreliableFragment && outgoingUnreliable < 0xFFFF)
      else (p.flags.reliable || !p.flags.unsequenced) && (p.flags.reliable || outgoingUnreliable >= 0xFFFF)
    }

    /** The packet goes without a number on the channel. */
    predicate Unordered(p: SharedPacket)
      reads this
      requires mtu >= MINIMUM_MTU
    {
      |p.data| <= Room() && p.flags.unsequenced
    }

    /** New commands of one packet, counted, keep the accounts. */
    twostate lemma AccountsGrow(packet: SharedPacket)
      requires old(Accounts()) && packet !in old(destroyed)
      requires pool == old(pool) + {packet} && destroyed == old(destroyed)
      requires Grown(old(reliables), reliables, packet) && Grown(old(unreliables), unreliables, packet)
      requires packet.referenceCount
        == old(packet.referenceCount) + |reliables| - |old(reliables)| + |unreliables| - |old(unreliables)|
      requires forall p :: p in old(pool) && p != packet ==> p.referenceCount == old(p.referenceCount)
      ensures Accounts()
      ensures forall p :: p in pool ==> Others(p) == old(Others(p))
    {
      hide Holding;
      NotHolding(old(reliables), old(pool), packet);
      NotHolding(old(unreliables), old(pool), packet);
      HoldingMoreAll(old(reliables), reliables, packet);
      HoldingMoreAll(old(unreliables), unreliables, packet);
    }

    /** Gives a command its sequence numbers and queues it. */
    method SetupOutgoingCommand(c: Outgoing)
      modifies `outgoingReliable, `outgoingUnreliable, `outgoingUnsequencedGroup, `reliables, `unreliables
      ensures IsReliable(c.kind) ==>
        && outgoingReliable == Next(old(outgoingReliable)) && outgoingUnreliable == 0
        && reliables == old(reliables) + [c.(reliable := outgoingReliable, unreliable := 0)]
        && unreliables == old(unreliables)
        && outgoingUnsequencedGroup == old(outgoingUnsequencedGroup)
      ensures c.kind == Unsequenced ==>
        && outgoingReliable == old(outgoingReliable) && outgoingUnreliable == old(outgoingUnreliable)
        && outgoingUnsequencedGroup == Next(old(outgoingUnsequencedGroup))
        && unreliables == old(unreliables) + [c.(reliable := 0, unreliable := 0, group := outgoingUnsequencedGroup)]
        && reliables == old(reliables)
      ensures c.kind == Unreliable || c.kind == UnreliableFragment ==>
        && outgoingReliable == old(outgoingReliable)
        && outgoingUnreliable == (if c.offset == 0 then Next(old(outgoingUnreliable)) else old(outgoingUnreliable))
        && unreliables == old(unreliables) + [c.(reliable := outgoingReliable, unreliable := outgoingUnreliable)]
        && reliables == old(reliables)
        && outgoingUnsequencedGroup == old(outgoingUnsequencedGroup)
    {
      var x := c;
      if IsReliable(c.kind) {
        outgoingReliable := (outgoingReliable + 1) % WORDS;
        outgoingUnreliable := 0;
        x := x.(reliable := outgoingReliable, unreliable := 0);
      } else if c.kind == Unsequenced {
        outgoingUnsequencedGroup := (outgoingUnsequencedGroup + 1) % WORDS;
        x := x.(reliable := 0, unreliable := 0, group := outgoingUnsequencedGroup);
      } else {
        if c.offset == 0 { outgoingUnreliable := (outgoingUnreliable + 1) % WORDS; }
        x := x.(reliable := outgoingReliable, unreliable := outgoingUnreliable);
      }
      if IsReliable(c.kind) {
        reliables := reliables + [x];
      } else {
        unreliables := unreliables + [x];
      }
    }

    /** Queues the fragments in order. */
    method SetupFragments(fragments: seq<Outgoing>, ghost first: nat)
      requires first > 0 && outgoingReliable == (first - 1) % WORDS
      requires forall k :: 0 <= k < |fragments| ==> fragments[k].kind == Fragment
      modifies `outgoingReliable, `outgoingUnreliable, `outgoingUnsequencedGroup, `reliables, `unreliables
      ensures outgoingReliable == (first - 1 + |fragments|) % WORDS
      ensures fragments != [] ==> outgoingUnreliable == 0
      ensures unreliables == old(unreliables) && outgoingUnsequencedGroup == old(outgoingUnsequencedGroup)
      ensures |reliables| == |old(reliables)| + |fragments| && old(reliables) <= reliables
      ensures forall k :: 0 <= k < |fragments| ==>
        reliables[|old(reliables)| + k] == fragments[k].(reliable := (first + k) % WORDS, unreliable := 0)
    {
      for k := 0 to |fragments|
        invariant outgoingReliable == (first - 1 + k) % WORDS
        invariant k > 0 ==> outgoingUnreliable == 0
        invariant unreliables == old(unreliables) && outgoingUnsequencedGroup == old(outgoingUnsequencedGroup)
        invariant |reliables| == |old(reliables)| + k && old(reliables) <= reliables
        invariant forall l :: 0 <= l < k ==>
          reliables[|old(reliables)| + l] == fragments[l].(reliable := (first + l) % WORDS, unreliable := 0)
      {
        CountedOn(first, k);
        SetupOutgoingCommand(fragments[k]);
      }
    }

    /** Queues the fragments of an unreliable packet: all get the same two numbers. */
    method SetupUnreliableFragments(fragments: seq<Outgoing>)
      requires forall k :: 0 <= k < |fragments| ==> fragments[k].kind == UnreliableFragment
      requires forall k :: 0 <= k < |fragments| ==> (fragments[k].offset == 0 <==> k == 0)
      modifies `outgoingReliable, `outgoingUnreliable, `outgoingUnsequencedGroup, `reliables, `unreliables
      ensures outgoingReliable == old(outgoingReliable) && reliables == old(reliables)
      ensures outgoingUnsequencedGroup == old(outgoingUnsequencedGroup)
      ensures fragments != [] ==> outgoingUnreliable == Next(old(outgoingUnreliable))
      ensures |unreliables| == |old(unreliables)| + |fragments| && old(unreliables) <= unreliables
      ensures forall k :: 0 <= k < |fragments| ==>
        unreliables[|old(unreliables)| + k]
          == fragments[k].(reliable := outgoingReliable, unreliable := Next(old(outgoingUnreliable)))
    {
      for k := 0 to |fragments|
        invariant outgoingReliable == old(outgoingReliable) && reliables == old(reliables)
        invariant outgoingUnsequencedGroup == old(outgoingUnsequencedGroup)
        invariant outgoingUnreliable == if k > 0 then Next(old(outgoingUnreliable)) else old(outgoingUnreliable)
        invariant |unreliables| == |old(unreliables)| + k && old(unreliables) <= unreliables
        invariant forall l :: 0 <= l < k ==>
          unreliables[|old(unreliables)| + l]
            == fragments[l].(reliable := outgoingReliable, unreliable := Next(old(outgoingUnreliable)))
      {
        SetupOutgoingCommand(fragments[k]);
      }
    }

    /** Cuts a packet into fragments. */
    method Cut(packet: SharedPacket, room: nat, kind: Kind, start: Word) returns (fragments: seq<Outgoing>)
      requires 0 < room < |packet.data|
      ensures |fragments| == Pieces(Packet(packet.data, room))
      ensures forall k :: 0 <= k < |fragments| ==> fragments[k] == FragmentCommand(packet, room, kind, start, k)
    {
      var count := (|packet.data| + room - 1) / room;
      var fragmentLength := room;
      var number, offset := 0, 0;
      fragments := [];
      while offset < |packet.data|
        invariant number == |fragments| && 0 <= number <= count
        invariant offset < |packet.data| ==> offset == number * room && fragmentLength == room
        invariant offset >= |packet.data| ==> number == count
        invariant forall k :: 0 <= k < |fragments| ==> fragments[k] == FragmentCommand(packet, room, kind, start, k)
        decreases count - number
      {
        FragmentBounds(packet, room, number);
        assert (number + 1) * room == number * room + room;
        if |packet.data| - offset < fragmentLength {
          fragmentLength := |packet.data| - offset;
        }
        var fragment := Outgoing(kind, packet, offset, fragmentLength, start, count, number, 0, 0, 0);
        fragments := fragments + [fragment];
        number, offset := number + 1, offset + fragmentLength;
      }
    }

    /** Queues the one command of a packet that needs no fragments. */
    method QueueOutgoingCommand(kind: Kind, packet: SharedPacket)
      modifies `outgoingReliable, `outgoingUnreliable, `outgoingUnsequencedGroup, `reliables, `unreliables
      modifies packet`referenceCount
      ensures packet.referenceCount == old(packet.referenceCount) + 1
      ensures IsReliable(kind) ==>
        && outgoingReliable == Next(old(outgoingReliable)) && outgoingUnreliable == 0
        && reliables == old(reliables) + [Outgoing(kind, packet, 0, |packet.data|, 0, 0, 0, outgoingReliable, 0, 0)]
        && unreliables == old(unreliables)
      ensures kind != Unsequenced ==> outgoingUnsequencedGroup == old(outgoingUnsequencedGroup)
      ensures kind == Unsequenced ==> outgoingUnreliable == old(outgoingUnreliable)
      ensures !IsReliable(kind) ==>
        && reliables == old(reliables) && outgoingReliable == old(outgoingReliable)
        && |unreliables| == |old(unreliables)| + 1 && old(unreliables) <= unreliables
        && var x := unreliables[|old(unreliables)|];
          && x.kind == kind && x.packet == packet && x.offset == 0 && x.length == |packet.data|
          && if kind == Unsequenced then
               x.reliable == 0 && x.unreliable == 0
                 && x.group == outgoingUnsequencedGroup == Next(old(outgoingUnsequencedGroup))
             else x.reliable == outgoingReliable && x.unreliable == outgoingUnreliable == Next(old(outgoingUnreliable))
    {
      packet.referenceCount := packet.referenceCount + 1;
      SetupOutgoingCommand(Outgoing(kind, packet, 0, |packet.data|, 0, 0, 0, 0, 0, 0));
    }

    /** Queues a packet to be sent. A packet that goes reliably is queued as exactly the
        commands the receiving side expects for the next packet of the stream. */
    method Send(packet: SharedPacket) returns (error: bool)
      requires Valid() && Accounts() && packet !in destroyed
      modifies `outgoingReliable, `outgoingUnreliable, `outgoingUnsequencedGroup, `reliables, `unreliables, `sent, `pool
      modifies packet`referenceCount
      ensures Valid()
      ensures error == (!connected || |packet.data| > maximumPacketSize
        || (|packet.data| > Room() && Pieces(Packet(packet.data, Room())) > MAXIMUM_FRAGMENT_COUNT))
      ensures error ==>
        && reliables == old(reliables) && unreliables == old(unreliables) && sent == old(sent)
        && outgoingReliable == old(outgoingReliable) && outgoingUnreliable == old(outgoingUnreliable)
        && outgoingUnsequencedGroup == old(outgoingUnsequencedGroup)
      ensures !error && old(SentReliably(packet)) ==>
        && sent == old(sent) + [Packet(packet.data, Room())] && unreliables == old(unreliables)
        && Emitted(old(reliables), reliables, sent, packet)
        && outgoingUnreliable == 0 && outgoingUnsequencedGroup == old(outgoingUnsequencedGroup)
      ensures !error && !old(SentReliably(packet)) ==>
        && sent == old(sent) && reliables == old(reliables) && outgoingReliable == old(outgoingReliable)
        && EmittedUnreliably(old(unreliables), unreliables, packet, Room(),
                             outgoingReliable, outgoingUnreliable, outgoingUnsequencedGroup)
        && if Unordered(packet) then
             outgoingUnreliable == old(outgoingUnreliable)
               && outgoingUnsequencedGroup == Next(old(outgoingUnsequencedGroup))
           else
             outgoingUnreliable == Next(old(outgoingUnreliable))
               && outgoingUnsequencedGroup == old(outgoingUnsequencedGroup)
      ensures !error ==>
        (|sent| > |old(sent)| <==>
          || packet.flags.reliable
          || if |packet.data| > Room() then !packet.flags.unreliableFragment || old(outgoingUnreliable) == 65535
             else !packet.flags.unsequenced && old(outgoingUnreliable) == 65535)
      ensures Accounts() && pool == old(pool) + {packet}
      ensures forall p :: p in pool ==> Others(p) == old(Others(p))
      ensures Grown(old(reliables), reliables, packet) && Grown(old(unreliables), unreliables, packet)
    {
      hide Accounts, Holds, First, Emitted, EmittedUnreliably, AllSendable;
      var fragmentLength := Room();
      pool := pool + {packet};
      AccountsGrow(packet);
      if !connected || |packet.data| > maximumPacketSize { return true; }
      if |packet.data| > fragmentLength {
        var fragmentCount := (|packet.data| + fragmentLength - 1) / fragmentLength;
        if fragmentCount > MAXIMUM_FRAGMENT_COUNT { return true; }
        if !packet.flags.reliable && packet.flags.unreliableFragment && outgoingUnreliable < 0xFFFF {
          SendUnreliableFragments(packet, fragmentLength);
        } else {
          SendFragments(packet, fragmentLength);
        }
      } else if !packet.flags.reliable && packet.flags.unsequenced {
        SendLoose(Unsequenced, packet, fragmentLength);
      } else if packet.flags.reliable || outgoingUnreliable >= 0xFFFF {
        SendWhole(packet, fragmentLength);
      } else {
        SendLoose(Unreliable, packet, fragmentLength);
      }
      AccountsGrow(packet);
      return false;
    }

    /** enet_peer_reset_outgoing_commands: every command of a queue lets go of its packet, and a
        packet is destroyed exactly when its last command, of whatever peer, goes. */
    method ResetOutgoingCommands(queue: seq<Outgoing>)
      requires forall p :: p in pool ==> p.referenceCount >= Holding(queue, p)
      requires forall k :: 0 <= k < |queue| ==> queue[k].packet in pool
      modifies this`destroyed, pool`referenceCount
      ensures forall p :: p in pool ==> p.referenceCount == old(p.referenceCount) - Holding(queue, p)
      ensures forall p :: p in destroyed <==>
        p in old(destroyed) || (p in pool && Holding(queue, p) > 0 && old(p.referenceCount) == Holding(queue, p))
    {
      hide Holding;
      var rest := queue;
      while rest != []
        invariant forall p :: p in pool ==>
          p.referenceCount == old(p.referenceCount) - Holding(queue, p) + Holding(rest, p)
        invariant forall k :: 0 <= k < |rest| ==> rest[k].packet in pool
        invariant forall p :: Holding(rest, p) <= Holding(queue, p)
        invariant forall p :: p in destroyed <==>
          p in old(destroyed) || (p in pool && Holding(rest, p) < Holding(queue, p) && p.referenceCount == 0)
        decreases |rest|
      {
        var packet := rest[0].packet;
        HoldingFirst(rest);
        rest := rest[1..];
        packet.referenceCount := packet.referenceCount - 1;
        if packet.referenceCount == 0 { destroyed := destroyed + {packet}; }
      }
      HoldingNone();
    }

    /** The part of enet_peer_reset_queues about commands still to be sent: afterwards this peer holds
        no packet, and those it held that no other peer holds have been destroyed. */
    method ResetQueues()
      requires Accounts()
      modifies this`reliables, this`unreliables, this`destroyed, pool`referenceCount
      ensures Accounts() && reliables == [] && unreliables == []
      ensures forall p :: p in pool ==> p.referenceCount == old(Others(p)) == Others(p)
      ensures forall p :: p in destroyed <==>
        p in old(destroyed) || (p in pool && old(Holds(p)) > 0 && old(Others(p)) == 0)
    {
      hide Holding;
      ResetOutgoingCommands(reliables);
      reliables := [];
      HoldingNone();
      ResetOutgoingCommands(unreliables);
      unreliables := [];
    }

    method SendUnreliableFragments(packet: SharedPacket, room: nat)
      requires 0 < room < |packet.data|
      modifies `outgoingReliable, `outgoingUnreliable, `outgoingUnsequencedGroup, `reliables, `unreliables
      modifies packet`referenceCount
      ensures reliables == old(reliables) && outgoingReliable == old(outgoingReliable)
      ensures outgoingUnreliable == Next(old(outgoingUnreliable))
        && outgoingUnsequencedGroup == old(outgoingUnsequencedGroup)
      ensures EmittedUnreliably(old(unreliables), unreliables, packet, room,
                                outgoingReliable, outgoingUnreliable, outgoingUnsequencedGroup)
      ensures Grown(old(unreliables), unreliables, packet)
      ensures packet.referenceCount == old(packet.referenceCount) + |unreliables| - |old(unreliables)|
    {
      hide Pieces, UnreliablePart, FragmentCommand;
      var start := (outgoingUnreliable + 1) % WORDS;
      var fragments := Cut(packet, room, UnreliableFragment, start);
      packet.referenceCount := packet.referenceCount + |fragments|;
      forall k | 0 <= k < |fragments|
        ensures fragments[k].kind == UnreliableFragment && (fragments[k].offset == 0 <==> k == 0)
          && fragments[k].packet == packet
      {
        FragmentKind(packet, room, UnreliableFragment, start, k);
      }
      SetupUnreliableFragments(fragments);
      assert |fragments| > 0 by { FragmentBounds(packet, room, 0); }
      forall j | |old(unreliables)| <= j < |unreliables|
        ensures UnreliablePart(unreliables[j], packet, room, j - |old(unreliables)|,
                               outgoingReliable, outgoingUnreliable, outgoingUnsequencedGroup)
        ensures unreliables[j].packet == packet
      {
        var k := j - |old(unreliables)|;
        assert unreliables[|old(unreliables)| + k] == fragments[k].(reliable := outgoingReliable, unreliable := start);
        UnreliableFragmentPart(packet, room, k, outgoingReliable, outgoingUnreliable, outgoingUnsequencedGroup);
      }
    }

    method SendLoose(kind: Kind, packet: SharedPacket, ghost room: nat)
      requires |packet.data| <= room && room > 0 && kind == if packet.flags.unsequenced then Unsequenced else Unreliable
      modifies `outgoingReliable, `outgoingUnreliable, `outgoingUnsequencedGroup, `reliables, `unreliables
      modifies packet`referenceCount
      ensures reliables == old(reliables) && outgoingReliable == old(outgoingReliable)
      ensures if kind == Unsequenced then
          outgoingUnreliable == old(outgoingUnreliable)
            && outgoingUnsequencedGroup == Next(old(outgoingUnsequencedGroup))
        else
          outgoingUnreliable == Next(old(outgoingUnreliable))
            && outgoingUnsequencedGroup == old(outgoingUnsequencedGroup)
      ensures EmittedUnreliably(old(unreliables), unreliables, packet, room,
                                outgoingReliable, outgoingUnreliable, outgoingUnsequencedGroup)
      ensures Grown(old(unreliables), unreliables, packet)
      ensures packet.referenceCount == old(packet.referenceCount) + |unreliables| - |old(unreliables)|
    {
      QueueOutgoingCommand(kind, packet);
    }

    method SendFragments(packet: SharedPacket, room: nat)
      requires Valid() && room == Room() < |packet.data|
      requires Pieces(Packet(packet.data, room)) <= MAXIMUM_FRAGMENT_COUNT
      modifies `outgoingReliable, `outgoingUnreliable, `outgoingUnsequencedGroup, `reliables, `unreliables, `sent
      modifies packet`referenceCount
      ensures Valid() && unreliables == old(unreliables)
      ensures outgoingUnreliable == 0 && outgoingUnsequencedGroup == old(outgoingUnsequencedGroup)
      ensures sent == old(sent) + [Packet(packet.data, room)] && Emitted(old(reliables), reliables, sent, packet)
      ensures Grown(old(reliables), reliables, packet)
      ensures packet.referenceCount == old(packet.referenceCount) + |reliables| - |old(reliables)|
    {
      hide First, Holding, Pieces, ReliablePart, FragmentCommand;
      ghost var first := First(sent, |sent|);
      var start := (outgoingReliable + 1) % WORDS;
      CountedOn(first, 0);
      var fragments := Cut(packet, room, Fragment, start);
      packet.referenceCount := packet.referenceCount + |fragments|;
      forall k | 0 <= k < |fragments|
        ensures fragments[k].kind == Fragment && fragments[k].packet == packet
      {
        FragmentKind(packet, room, Fragment, start, k);
      }
      SetupFragments(fragments, first);
      sent := sent + [Packet(packet.data, room)];
      SentOne(old(sent), Packet(packet.data, room));
      assert |fragments| > 0 by { FragmentBounds(packet, room, 0); }
      forall j | |old(reliables)| <= j < |reliables|
        ensures ReliablePart(reliables[j], sent, j - |old(reliables)|, packet) && reliables[j].packet == packet
      {
        var k := j - |old(reliables)|;
        assert reliables[|old(reliables)| + k] == fragments[k].(reliable := (first + k) % WORDS, unreliable := 0);
        FragmentPart(sent, packet, room, k);
      }
    }

    method SendWhole(packet: SharedPacket, ghost room: nat)
      requires Valid() && |packet.data| <= room == Room()
      modifies `outgoingReliable, `outgoingUnreliable, `outgoingUnsequencedGroup, `reliables, `unreliables, `sent
      modifies packet`referenceCount
      ensures Valid() && unreliables == old(unreliables)
      ensures outgoingUnreliable == 0 && outgoingUnsequencedGroup == old(outgoingUnsequencedGroup)
      ensures sent == old(sent) + [Packet(packet.data, room)] && Emitted(old(reliables), reliables, sent, packet)
      ensures Grown(old(reliables), reliables, packet)
      ensures packet.referenceCount == old(packet.referenceCount) + |reliables| - |old(reliables)|
    {
      hide First, Holding;
      CountedOn(First(sent, |sent|), 0);
      QueueOutgoingCommand(Reliable, packet);
      sent := sent + [Packet(packet.data, room)];
      SentOne(old(sent), Packet(packet.data, room));
    }
  }

  lemma SentOne(sent: seq<Packet>, p: Packet)
    requires AllSendable(sent) && Sendable(p)
    ensures AllSendable(sent + [p])
    ensures First(sent + [p], |sent|) == First(sent, |sent|)
    ensures First(sent + [p], |sent| + 1) == First(sent, |sent|) + Span(p)
  {
    FirstKept(sent, sent + [p], |sent|);
  }
}
