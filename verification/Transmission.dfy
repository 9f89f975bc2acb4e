/** Both ends of an ENet channel joined: what enet_peer_send queues on one side, an unreliable
    network in between, and the queues of the other side up to enet_peer_receive. */
module Transmission {
  import opened PeerQueues
  import opened IncomingChannel
  import opened ReliableChannel
  import opened ChannelRings
  import Waiting = WaitingData
  import Sending = OutgoingChannel

  /** Which packet a command carries, and which fragment of it. */
  datatype Source = Source(packet: nat, piece: nat)

  /** The receiver's view of a command that carries a whole packet. */
  function Arriving(x: Sending.Outgoing): Command
    requires x.offset + x.length <= |x.packet.data|
  {
    Command(x.kind, x.reliable, x.unreliable, Sending.OnWire(x).data, x.count)
  }

  /** The command is the part at.piece of the packet sent as number at.packet. */
  ghost predicate Carries(x: Sending.Outgoing, sent: seq<Packet>, at: Source) {
    && AllSendable(sent) && at.packet < |sent| && x.offset + x.length <= |x.packet.data|
    && if Pieces(sent[at.packet]) == 0 then
         x.kind == Reliable && Arriving(x) == WholeCommand(sent, at.packet)
       else
         x.kind == Fragment && at.piece < Pieces(sent[at.packet])
           && Sending.OnWire(x) == PieceOf(sent, at.packet, at.piece)
  }

  /** All the parts of the packets sent, in order. */
  ghost function Parts(sent: seq<Packet>): seq<Source>
    requires AllSendable(sent)
  {
    if sent == [] then [] else
      var i := |sent| - 1;
      Parts(sent[..i]) + seq(Span(sent[i]), k requires 0 <= k < Span(sent[i]) => Source(i, k))
  }

  /** The commands on the wire carry each part of each packet sent, once and in order. */
  ghost predicate AllCarry(wire: seq<Sending.Outgoing>, sent: seq<Packet>) {
    && AllSendable(sent) && |wire| == |Parts(sent)|
    && forall j :: 0 <= j < |wire| ==> Carries(wire[j], sent, Parts(sent)[j])
  }

  /** What was sent stays what it was when more is sent. */
  lemma CarriesOn(x: Sending.Outgoing, sent: seq<Packet>, more: seq<Packet>, at: Source)
    requires Carries(x, sent, at) && sent <= more && AllSendable(more)
    ensures Carries(x, more, at)
  {
    hide First, Pieces;
    FirstKept(sent, more, at.packet);
  }

  /** The commands Send queues carry the packet it was given. */
  lemma EmittedCarries(before: seq<Sending.Outgoing>, after: seq<Sending.Outgoing>, sent: seq<Packet>,
                       packet: Sending.SharedPacket)
    requires Sending.Emitted(before, after, sent, packet)
    ensures forall j :: |before| <= j < |after| ==> Carries(after[j], sent, Source(|sent| - 1, j - |before|))
  {
    hide First, Pieces;
    forall j | |before| <= j < |after|
      ensures Carries(after[j], sent, Source(|sent| - 1, j - |before|))
    {
      assert Sending.ReliablePart(after[j], sent, j - |before|, packet);
    }
  }

  lemma EmittedMore(before: seq<Sending.Outgoing>, after: seq<Sending.Outgoing>, sent: seq<Packet>,
                    packet: Sending.SharedPacket)
    requires Sending.Emitted(before, after, sent, packet)
    ensures |after| > |before|
  {
    hide Sending.ReliablePart;
  }

  lemma DataGrows(sent: seq<Packet>, p: Packet)
    ensures DataOf(sent + [p]) == DataOf(sent) + [p.data]
  {
  }

  /** The wire after one more packet. */
  lemma WireGrows(wire: seq<Sending.Outgoing>, before: seq<Sending.Outgoing>, after: seq<Sending.Outgoing>,
                  sent: seq<Packet>, p: Packet, packet: Sending.SharedPacket)
    requires AllCarry(wire, sent) && Sending.Emitted(before, after, sent + [p], packet)
    ensures AllCarry(wire + after[|before|..], sent + [p])
  {
    hide Carries, Pieces, First, Sending.ReliablePart;
    var more := sent + [p];
    assert more[..|sent|] == sent;
    EmittedCarries(before, after, more, packet);
    forall j | 0 <= j < |wire|
      ensures Carries(wire[j], more, Parts(sent)[j])
    {
      CarriesOn(wire[j], sent, more, Parts(sent)[j]);
    }
  }

  /** Whatever reliable command arrives, it is a step of the system. */
  lemma ArrivalIsStep(x: Sending.Outgoing, y: System, at: Source, content: seq<Byte>, y': System, maximum: nat,
                      maximumPacketSize: nat)
    requires Carries(x, y.sent, at) && Arrives(y, at.packet) && y'.sent == y.sent
    requires x.kind == Reliable ==>
      y'.channel == if |Arriving(x).data| > maximumPacketSize then y.channel else Queue(y.channel, Arriving(x), maximum)
    requires x.kind == Fragment ==>
      && Settled(y.channel) && |content| == Sending.OnWire(x).total
      && y'.channel == Assemble(y.channel, Sending.OnWire(x), content, maximum, maximumPacketSize)
    ensures Step(y, y', maximum, maximumPacketSize)
  {
    hide Queue, Assemble, First, Pieces, Arrives, Settled;
    if x.kind == Reliable && |Arriving(x).data| > maximumPacketSize {
      assert ReceiveStep(y, y.channel.waiting, y');
    } else if x.kind == Reliable {
      assert WholeStep(y, at.packet, y', maximum);
    } else {
      assert PieceStep(y, at.packet, at.piece, content, y', maximum, maximumPacketSize);
    }
  }

  lemma RunGrows(ys: seq<System>, y: System, maximum: nat, maximumPacketSize: nat)
    requires Run(ys, maximum, maximumPacketSize) && Step(ys[|ys| - 1], y, maximum, maximumPacketSize)
    ensures Run(ys + [y], maximum, maximumPacketSize)
  {
    hide Step;
    var more := ys + [y];
    forall t | 0 <= t < |more| - 1
      ensures Step(more[t], more[t + 1], maximum, maximumPacketSize)
    {
      if t < |ys| - 1 { assert more[t] == ys[t] && more[t + 1] == ys[t + 1]; }
    }
  }

  lemma {:induction false} ReliableDataPrefix(a: seq<Incoming>, b: seq<Incoming>)
    requires a <= b
    ensures ReliableData(a) <= ReliableData(b)
  {
    assert b == a + b[|a|..];
    ReliableDataAppend(a, b[|a|..]);
  }

  lemma SendIsStep(y: System, p: Packet, y': System, maximum: nat, maximumPacketSize: nat)
    requires SendStep(y, p, y')
    ensures Step(y, y', maximum, maximumPacketSize)
  {
  }

  lemma OtherIsStep(y: System, c: Command, y': System, maximum: nat, maximumPacketSize: nat)
    requires OtherStep(y, c, y', maximum) && y'.sent == y.sent
    ensures Step(y, y', maximum, maximumPacketSize)
  {
  }

  lemma ReceiveIsStep(y: System, w: nat, y': System, maximum: nat, maximumPacketSize: nat)
    requires ReceiveStep(y, w, y')
    ensures Step(y, y', maximum, maximumPacketSize)
  {
  }

  lemma RunSettled(ys: seq<System>, maximum: nat, maximumPacketSize: nat)
    requires Run(ys, maximum, maximumPacketSize)
    ensures Settled(ys[|ys| - 1].channel)
  {
    hide Linked;
    RunSafe(ys, maximum, maximumPacketSize, |ys| - 1);
    var y := ys[|ys| - 1];
    var n: nat, ids: seq<nat> :| Linked(y.sent, n, ids, y.channel);
    LinkedSettled(y.sent, n, ids, y.channel);
  }

  /** In every state of every run the next packet, sent whole and not refused, is dispatched at once. */
  lemma NextArrives(ys: seq<System>, x: Sending.Outgoing, at: Source, maximum: nat, maximumPacketSize: nat)
    requires Run(ys, maximum, maximumPacketSize) && Carries(x, ys[|ys| - 1].sent, at) && x.kind == Reliable
    requires var s := ys[|ys| - 1].channel; at.packet == Dispatched(s) && !s.discarding && s.waiting < maximum
    ensures var s := ys[|ys| - 1].channel; Dispatched(Queue(s, Arriving(x), maximum)) > Dispatched(s)
  {
    hide Linked, Queue, Dispatched, First, Pieces;
    RunSafe(ys, maximum, maximumPacketSize, |ys| - 1);
    var y := ys[|ys| - 1];
    var n: nat, ids: seq<nat> :| Linked(y.sent, n, ids, y.channel);
    LinkedCount(y.sent, n, ids, y.channel);
    NextWhole(y.sent, n, ids, y.channel, maximum);
  }

  lemma OneState(y: System, maximum: nat, maximumPacketSize: nat)
    requires y == System([], Initial())
    ensures Run([y], maximum, maximumPacketSize) && Owed(y.channel, 0) && AllCarry([], y.sent)
  {
  }

  /** Running on from the last state. */
  lemma NotEmpty(ys: seq<System>, maximum: nat, maximumPacketSize: nat)
    requires Run(ys, maximum, maximumPacketSize)
    ensures |ys| > 0
  {
  }

  lemma RoomToSend(c: Sending.Channel)
    requires c.Valid()
    ensures c.mtu >= Sending.MINIMUM_MTU && AllSendable(c.sent)
  {
  }

  /** Neither a channel nor a packet is a node of a list. */
  lemma NoNode(c: Channel, sender: Sending.Channel, packet: Sending.SharedPacket)
    ensures forall x: object :: x in c.Nodes() ==> x != sender && x != packet
  {
  }

  lemma LimitsAre(c: Channel)
    requires c.Held()
    ensures c.View().waiting == c.totalWaitingData && c.View().discarding == c.disconnectLater
  {
  }

  lemma HeldIfValid(c: Channel)
    requires c.Valid()
    ensures c.Held()
  {
  }

  /** What a command on the wire is. */
  lemma OnTheWire(wire: seq<Sending.Outgoing>, sent: seq<Packet>, j: nat)
    requires AllCarry(wire, sent) && j < |wire|
    ensures AllSendable(sent) && |Parts(sent)| == |wire| && Carries(wire[j], sent, Parts(sent)[j])
    ensures wire[j].offset + wire[j].length <= |wire[j].packet.data|
    ensures wire[j].kind == Reliable || wire[j].kind == Fragment
  {
  }

  /** A sending and a receiving peer, one channel, and all that was ever put on the wire. */
  class Connection {
    const sender: Sending.Channel
    const receiver: Channel
    /** Every reliable command queued so far. The network may deliver any of them, any number of
        times, in any order, or never. */
    var wire: seq<Sending.Outgoing>
    /** All the states the two channels have been in. */
    ghost var history: seq<System>

    /** Joins two peers that have not begun. */
    constructor (sender: Sending.Channel, receiver: Channel)
      requires sender.Valid() && sender.Accounts() && sender.sent == []
      requires receiver.Valid() && receiver.View() == Initial() && receiver.received == []
      ensures Valid() && this.sender == sender && this.receiver == receiver && wire == []
    {
      hide Rings, Run, Step, Owed, Settled, AllCarry, Channel.View, Channel.Held, Sending.Channel.Accounts,
        Sending.Channel.Valid;
      assert forall x: object :: x in receiver.Nodes() ==> x != sender;
      this.sender, this.receiver, wire := sender, receiver, [];
      history := [System([], Initial())];
      OneState(System([], Initial()), receiver.maximumWaitingData, receiver.maximumPacketSize);
    }

    ghost function Now(): System
      requires receiver.Held()
      reads sender, receiver
    {
      System(sender.sent, receiver.View())
    }

    ghost predicate Valid()
      reads this, sender, sender.pool, receiver, receiver.Nodes()
    {
      && sender.Valid() && sender.Accounts() && receiver.Valid() && Owed(receiver.View(), |receiver.received|)
      && Run(history, receiver.maximumWaitingData, receiver.maximumPacketSize)
      && history[|history| - 1] == Now()
      && AllCarry(wire, sender.sent)
    }

    /** enet_peer_send. */
    method Send(packet: Sending.SharedPacket) returns (error: bool)
      requires Valid() && packet !in sender.destroyed
      modifies this`wire, this`history, sender, packet`referenceCount
      ensures Valid() && receiver.View() == old(receiver.View())
      ensures history == if error || !old(sender.SentReliably(packet)) then old(history) else old(history) + [Now()]
      ensures sender.pool == old(sender.pool) + {packet}
      ensures !error && old(sender.SentReliably(packet)) ==>
        DataOf(sender.sent) == old(DataOf(sender.sent)) + [packet.data] && |wire| > |old(wire)|
      ensures error || !old(sender.SentReliably(packet)) ==> sender.sent == old(sender.sent) && wire == old(wire)
    {
      hide Rings, Run, Step, AllCarry, Parts, Carries, Owed, Queue, Assemble, Arrives, Settled, AllSendable,
        Channel.View, Channel.Held, Channel.Valid, Sending.Channel.Accounts, Sending.Channel.Valid,
        Sending.Channel.SentReliably, Sending.Emitted, Sending.EmittedUnreliably;
      NotEmpty(history, receiver.maximumWaitingData, receiver.maximumPacketSize);
      RoomToSend(sender);
      HeldIfValid(receiver);
      NoNode(receiver, sender, packet);
      var before := sender.reliables;
      ghost var reliably := sender.SentReliably(packet);
      error := sender.Send(packet);
      if !error && reliably {
        EmittedMore(before, sender.reliables, sender.sent, packet);
        DataGrows(old(sender.sent), Packet(packet.data, sender.Room()));
      }
      if !error && |sender.reliables| > |before| {
        WireGrows(wire, before, sender.reliables, old(sender.sent), Packet(packet.data, sender.Room()), packet);
        wire := wire + sender.reliables[|before|..];
        SendIsStep(old(Now()), Packet(packet.data, sender.Room()), Now(), receiver.maximumWaitingData,
                   receiver.maximumPacketSize);
        RunGrows(history, Now(), receiver.maximumWaitingData, receiver.maximumPacketSize);
        history := history + [Now()];
      }
    }

    /** Command j carries the next packet, whole, and there is room for it. */
    ghost predicate Wanted(j: nat)
      requires AllSendable(sender.sent) && |Parts(sender.sent)| == |wire| && j < |wire| && receiver.Held()
      reads this, sender, receiver
    {
      && wire[j].kind == Reliable && Parts(sender.sent)[j].packet == Dispatched(receiver.View())
      && wire[j].length <= receiver.maximumPacketSize
      && !receiver.disconnectLater && receiver.totalWaitingData < receiver.maximumWaitingData
    }

    /** A copy of command j arrives: enet_protocol_handle_send_reliable and
        enet_protocol_handle_send_fragment. */
    method Deliver(j: nat) returns (error: bool, ghost content: seq<Byte>)
      requires Valid() && j < |wire| && Arrives(Now(), Parts(sender.sent)[j].packet)
      modifies this`history, receiver, receiver.Nodes()
      ensures Valid() && forall x :: x in receiver.Nodes() && x !in old(receiver.Nodes()) ==> fresh(x)
      ensures receiver.received == old(receiver.received) && history == old(history) + [Now()]
      ensures wire[j].offset + wire[j].length <= |wire[j].packet.data|
      ensures wire[j].kind == Reliable ==>
        && receiver.View() == (if |Arriving(wire[j]).data| > receiver.maximumPacketSize then old(receiver.View())
                               else Queue(old(receiver.View()), Arriving(wire[j]), receiver.maximumWaitingData))
        && error == (|Arriving(wire[j]).data| > receiver.maximumPacketSize
                     || QueueOutcome(old(receiver.View()), Arriving(wire[j]), receiver.maximumWaitingData).Null?)
      ensures wire[j].kind != Reliable ==>
        && wire[j].kind == Fragment && Settled(old(receiver.View())) && |content| == Sending.OnWire(wire[j]).total
        && receiver.View() == Assemble(old(receiver.View()), Sending.OnWire(wire[j]), content,
                                       receiver.maximumWaitingData, receiver.maximumPacketSize)
        && error == PieceError(old(receiver.View()), Sending.OnWire(wire[j]), content,
                               receiver.maximumWaitingData, receiver.maximumPacketSize)
      ensures old(Wanted(j)) ==> Dispatched(receiver.View()) > old(Dispatched(receiver.View()))
    {
      hide Rings, Run, Step, AllCarry, Parts, Carries, Owed, Queue, Assemble, Arrives, Settled, AllSendable,
        Dispatched, Channel.View, Channel.Held, Channel.Nodes, Sending.Channel.Accounts;
      NotEmpty(history, receiver.maximumWaitingData, receiver.maximumPacketSize);
      LimitsAre(receiver);
      RunSettled(history, receiver.maximumWaitingData, receiver.maximumPacketSize);
      OnTheWire(wire, sender.sent, j);
      var x := wire[j];
      content := [];
      if x.kind == Reliable {
        Waiting.QueueOwed(receiver.View(), Arriving(x), receiver.maximumWaitingData, |receiver.received|);
        if Wanted(j) {
          NextArrives(history, x, Parts(sender.sent)[j], receiver.maximumWaitingData, receiver.maximumPacketSize);
        }
        error := receiver.HandleSendReliable(Arriving(x));
      } else {
        error, content := receiver.HandleSendFragment(Sending.OnWire(x));
        Waiting.AssembleOwed(old(receiver.View()), Sending.OnWire(x), content, receiver.maximumWaitingData,
                             receiver.maximumPacketSize, |receiver.received|);
      }
      ArrivalIsStep(x, old(Now()), Parts(sender.sent)[j], content, Now(), receiver.maximumWaitingData,
                    receiver.maximumPacketSize);
      RunGrows(history, Now(), receiver.maximumWaitingData, receiver.maximumPacketSize);
      history := history + [Now()];
    }

    /** A command that was not sent reliably arrives. */
    method DeliverOther(c: Command) returns (error: bool)
      requires Valid() && !IsReliable(c.kind)
      modifies this`history, receiver, receiver.Nodes()
      ensures Valid() && forall x :: x in receiver.Nodes() && x !in old(receiver.Nodes()) ==> fresh(x)
      ensures receiver.received == old(receiver.received) && history == old(history) + [Now()]
      ensures receiver.View() == Queue(old(receiver.View()), c, receiver.maximumWaitingData)
      ensures error == QueueOutcome(old(receiver.View()), c, receiver.maximumWaitingData).Null?
    {
      hide Rings, Run, Step, AllCarry, Parts, Carries, Owed, Queue, Assemble, Arrives, Settled, AllSendable,
        Channel.View, Channel.Held, Channel.Nodes, Sending.Channel.Accounts;
      NotEmpty(history, receiver.maximumWaitingData, receiver.maximumPacketSize);
      Waiting.QueueOwed(receiver.View(), c, receiver.maximumWaitingData, |receiver.received|);
      var answer, outcome := receiver.QueueIncomingCommand(c);
      error := answer.NullCommand?;
      OtherIsStep(old(Now()), c, Now(), receiver.maximumWaitingData, receiver.maximumPacketSize);
      RunGrows(history, Now(), receiver.maximumWaitingData, receiver.maximumPacketSize);
      history := history + [Now()];
    }

    /** enet_peer_receive. */
    method Receive() returns (taken: bool, packet: seq<Byte>)
      requires Valid()
      modifies this`history, receiver, receiver.Nodes()
      ensures Valid() && receiver.Nodes() <= old(receiver.Nodes()) && history == old(history) + [Now()]
      ensures taken == (old(receiver.dispatched) != [])
      ensures !taken ==> receiver.View() == old(receiver.View()) && receiver.received == old(receiver.received)
      ensures receiver.View().waiting + |packet| == old(receiver.View().waiting)
      ensures receiver.View() == old(receiver.View()).(waiting := receiver.View().waiting)
      ensures receiver.received
        == old(receiver.received) + (if taken then [receiver.View().dispatched[|old(receiver.received)|]] else [])
      ensures taken ==> packet == receiver.received[|old(receiver.received)|].data
    {
      hide Rings, Run, Step, AllCarry, Parts, Carries, Owed, Queue, Assemble, Arrives, Settled, AllSendable,
        Channel.View, Channel.Held, Channel.Nodes, Sending.Channel.Accounts;
      NotEmpty(history, receiver.maximumWaitingData, receiver.maximumPacketSize);
      taken, packet := receiver.Receive();
      ReceiveIsStep(old(Now()), Now().channel.waiting, Now(), receiver.maximumWaitingData, receiver.maximumPacketSize);
      RunGrows(history, Now(), receiver.maximumWaitingData, receiver.maximumPacketSize);
      history := history + [Now()];
    }

    /** After any calls in any order, what the application has received of the reliable packets is
        a prefix of what was given to enet_peer_send. */
    lemma InOrder()
      requires Valid()
      ensures ReliableData(receiver.received) <= DataOf(sender.sent)
    {
      ReliableSafety(history, receiver.maximumWaitingData, receiver.maximumPacketSize, |history| - 1);
      ReliableDataPrefix(receiver.received, receiver.View().dispatched);
    }
  }
}
