/** What Externals/enet/peer.c counts as waiting data: queueing adds the bytes of a packet, taking
    it adds them off, and freeing a command undelivered does not, so those bytes count for ever. */
module WaitingData {
  import opened PeerQueues
  import opened IncomingChannel

  lemma {:induction false} SizeSum(a: seq<Incoming>, b: seq<Incoming>)
    ensures Size(a + b) == Size(a) + Size(b)
    decreases |a|
  {
    if a == [] {
      assert a + b == b;
    } else {
      assert (a + b)[1..] == a[1..] + b;
      SizeSum(a[1..], b);
    }
  }

  lemma SizeCut(q: seq<Incoming>, i: nat)
    requires i <= |q|
    ensures Size(q) == Size(q[..i]) + Size(q[i..])
  {
    assert q == q[..i] + q[i..];
    SizeSum(q[..i], q[i..]);
  }

  lemma SizeInserted(q: seq<Incoming>, i: nat, x: Incoming)
    requires i <= |q|
    ensures Size(InsertAt(q, i, x)) == Size(q) + |x.data|
  {
    SizeCut(q, i);
    SizeSum(q[..i] + [x], q[i..]);
    SizeSum(q[..i], [x]);
    assert Size([x]) == |x.data|;
  }

  lemma SizeChanged(q: seq<Incoming>, i: nat, x: Incoming)
    requires i < |q| && |x.data| == |q[i].data|
    ensures Size(q[i := x]) == Size(q)
  {
    assert q == InsertAt(q[..i] + q[i + 1..], i, q[i]);
    assert q[i := x] == InsertAt(q[..i] + q[i + 1..], i, x);
    SizeInserted(q[..i] + q[i + 1..], i, q[i]);
    SizeInserted(q[..i] + q[i + 1..], i, x);
  }

  lemma {:induction false} SizeDivided(q: seq<Incoming>, current: Word)
    ensures Size(q) == Size(Delivered(q, current)) + Size(Withheld(q, current))
    decreases |q|
  {
    if q != [] {
      var n := |q| - 1;
      SizeDivided(q[..n], current);
      SizeCut(q, n);
      var d, w := Delivered(q[..n], current), Withheld(q[..n], current);
      SizeSum(d, [q[n]]);
      SizeSum(w, [q[n]]);
      assert q[n..] == [q[n]] && d + [] == d && w + [] == w;
    }
  }

  lemma DispatchUnreliableOwed(s: State, taken: nat)
    requires Owed(s, taken)
    ensures Owed(DispatchUnreliable(s), taken)
  {
    hide Size, Delivered, Withheld, Staying, Stop, NumberAfter, Judge;
    var q, n := s.unreliables, Stop(s.unreliables, s.current);
    var scanned := q[..n];
    var stay := Staying(scanned, s.current);
    var d, f := Delivered(scanned, s.current), Withheld(scanned[..n - stay], s.current);
    SizeCut(q, n);
    SizeDivided(scanned, s.current);
    StayingArePartial(scanned, s.current);
    WithheldRun(scanned, s.current, n - stay, n);
    assert scanned[..n] == scanned && scanned[n - stay..n] == scanned[n - stay..];
    SizeSum(f, scanned[n - stay..]);
    SizeSum(s.freed, f);
    SizeSum(scanned[n - stay..], q[n..]);
    assert (s.dispatched + d)[taken..] == s.dispatched[taken..] + d;
    SizeSum(s.dispatched[taken..], d);
  }

  lemma DispatchReliableOwed(s: State, taken: nat)
    requires Owed(s, taken)
    ensures Owed(DispatchReliable(s), taken)
  {
    hide Size, DispatchUnreliable, Ready, Reached;
    var n := Ready(s.reliables, s.current);
    if n > 0 {
      var s' := s.(current := Reached(s.reliables[..n], s.current), unreliable := 0,
                   reliables := s.reliables[n..], dispatched := s.dispatched + s.reliables[..n]);
      SizeCut(s.reliables, n);
      assert s'.dispatched[taken..] == s.dispatched[taken..] + s.reliables[..n];
      SizeSum(s.dispatched[taken..], s.reliables[..n]);
      DispatchUnreliableOwed(s', taken);
    }
  }

  /** A command of any kind and any content. */
  lemma QueueOwed(s: State, c: Command, maximum: nat, taken: nat)
    requires Owed(s, taken)
    ensures Owed(Queue(s, c, maximum), taken)
  {
    hide Size, DispatchReliable, DispatchUnreliable, Unwanted, Refused, Position, InsertAt;
    if !Unwanted(s, c) && !Refused(s, c, maximum) {
      var x := NewIncoming(c);
      if IsReliable(c.kind) {
        SizeInserted(s.reliables, Position(s, c), x);
        DispatchReliableOwed(Place(s, c), taken);
      } else {
        SizeInserted(s.unreliables, Position(s, c), x);
        DispatchUnreliableOwed(Place(s, c), taken);
      }
    }
  }

  lemma PlaceOwed(s: State, c: Command, taken: nat)
    requires Owed(s, taken) && !Unwanted(s, c) && IsReliable(c.kind)
    ensures Owed(Place(s, c), taken)
  {
    hide Size, Unwanted, Position, InsertAt;
    SizeInserted(s.reliables, Position(s, c), NewIncoming(c));
  }

  lemma FillOwed(s: State, i: nat, p: Piece, taken: nat)
    requires Owed(s, taken) && i < |s.reliables| && Belongs(s.reliables[i], p) && Counted(s.reliables[i])
    requires p.number < p.count && p.offset + |p.data| <= p.total
    ensures Owed(FillAt(s, i, p), taken)
  {
    hide Size, DispatchReliable;
    FillPossible(s.reliables[i], p.number);
    SizeChanged(s.reliables, i, Filled(s.reliables[i], p));
    DispatchReliableOwed(s.(reliables := s.reliables[i := Filled(s.reliables[i], p)]), taken);
  }

  /** A fragment of any content. */
  lemma AssembleOwed(s: State, p: Piece, content: seq<Byte>, maximum: nat, maximumPacketSize: nat, taken: nat)
    requires Settled(s) && |content| == p.total && Owed(s, taken)
    ensures Owed(Assemble(s, p, content, maximum, maximumPacketSize), taken)
  {
    hide FillAt, Unwanted, Refused, Place, Counted, Owed, Ready;
    if InWindow(p.start, s.current) && !Malformed(p, maximumPacketSize) {
      var spot := PieceSpot(s, p);
      var c := Opening(p, content);
      if spot.Same? {
        if Belongs(s.reliables[spot.at], p) { FillOwed(s, spot.at, p, taken); }
      } else if QueueOutcome(s, c, maximum).Queued? {
        PlacedPiece(s, p, content);
        PlaceOwed(s, c, taken);
        FillOwed(Place(s, c), spot.at, p, taken);
      }
    }
  }

  // ---- runs ----

  /** A command or a fragment arrives, or the application takes the next packet dispatched. */
  datatype Event = Arrives(arrival: Arrival) | Takes

  /** The channel and how many of the dispatched packets have been taken. */
  datatype Peer = Peer(channel: State, taken: nat)

  ghost predicate Sound(y: Peer) {
    Settled(y.channel) && Owed(y.channel, y.taken)
  }

  /** enet_peer_receive. */
  ghost function Take(y: Peer): (y': Peer)
    requires Sound(y)
    ensures Sound(y')
  {
    if y.taken == |y.channel.dispatched| then y
    else
      var x := y.channel.dispatched[y.taken];
      SizeCut(y.channel.dispatched[y.taken..], 1);
      assert y.channel.dispatched[y.taken..][..1] == [x]
        && y.channel.dispatched[y.taken..][1..] == y.channel.dispatched[y.taken + 1..];
      Peer(y.channel.(waiting := y.channel.waiting - |x.data|), y.taken + 1)
  }

  ghost predicate Proper(events: seq<Event>) {
    forall k :: 0 <= k < |events| && events[k].Arrives? && events[k].arrival.Part? ==>
      |events[k].arrival.content| == events[k].arrival.piece.total
  }

  /** The peer after any events in any order: the waiting data is the size of the packets still
      queued and of those freed, no more and no less. */
  ghost function After(events: seq<Event>, maximum: nat, maximumPacketSize: nat): (y: Peer)
    requires Proper(events)
    ensures Sound(y)
    decreases |events|
  {
    if events == [] then Peer(Initial(), 0)
    else
      var y := After(events[..|events| - 1], maximum, maximumPacketSize);
      match events[|events| - 1]
      case Takes => Take(y)
      case Arrives(Whole(c)) =>
        QueueSettled(y.channel, c, maximum);
        QueueOwed(y.channel, c, maximum, y.taken);
        y.(channel := Queue(y.channel, c, maximum))
      case Arrives(Part(p, content)) =>
        AssembleSettled(y.channel, p, content, maximum, maximumPacketSize);
        AssembleOwed(y.channel, p, content, maximum, maximumPacketSize, y.taken);
        y.(channel := Assemble(y.channel, p, content, maximum, maximumPacketSize))
  }

  /** When the application has taken everything and nothing waits, what is left is the leak: the
      bytes of everything ever freed undelivered. */
  lemma Leak(events: seq<Event>, maximum: nat, maximumPacketSize: nat)
    requires Proper(events)
    ensures var y := After(events, maximum, maximumPacketSize);
      y.taken == |y.channel.dispatched| && y.channel.reliables == [] && y.channel.unreliables == [] ==>
        y.channel.waiting == Size(y.channel.freed)
  {
    hide After;
    var y := After(events, maximum, maximumPacketSize);
    assert Sound(y);
    assert y.taken == |y.channel.dispatched| ==> y.channel.dispatched[y.taken..] == [];
  }

  /** Once the packets freed undelivered add up to the limit, no command is ever accepted again,
      whatever the application takes: the channel is stalled for good. */
  lemma {:induction false} Stalled(events: seq<Event>, more: seq<Event>, maximum: nat, maximumPacketSize: nat)
    requires Proper(events) && Proper(events + more)
    requires Size(After(events, maximum, maximumPacketSize).channel.freed) >= maximum
    ensures var y, y' := After(events, maximum, maximumPacketSize), After(events + more, maximum, maximumPacketSize);
      && Size(y'.channel.freed) >= maximum
      && forall c: Command ::
           !QueueOutcome(y'.channel, c, maximum).Queued? && Queue(y'.channel, c, maximum) == y'.channel
    decreases |more|
  {
    hide Queue, Assemble, After, Size;
    var y' := After(events + more, maximum, maximumPacketSize);
    if more == [] {
      assert events + more == events;
    } else {
      var before := events + more[..|more| - 1];
      assert (events + more)[..|events + more| - 1] == before;
      assert Proper(before) by {
        forall k | 0 <= k < |before| && before[k].Arrives? && before[k].arrival.Part?
          ensures |before[k].arrival.content| == before[k].arrival.piece.total
        {
          assert (events + more)[k] == before[k];
        }
      }
      Stalled(events, more[..|more| - 1], maximum, maximumPacketSize);
      StallKept(events + more, maximum, maximumPacketSize);
    }
    assert Sound(y');
    StallRefuses(y', maximum);
  }

  lemma StallRefuses(y: Peer, maximum: nat)
    requires Sound(y) && Size(y.channel.freed) >= maximum
    ensures forall c: Command ::
      !QueueOutcome(y.channel, c, maximum).Queued? && Queue(y.channel, c, maximum) == y.channel
  {
    hide Unwanted, Settled;
  }

  lemma ReliableFrees(s: State)
    ensures s.freed <= DispatchReliable(s).freed
  {
    hide Withheld, Delivered, Staying, Stop, NumberAfter;
  }

  lemma AssembleFrees(s: State, p: Piece, content: seq<Byte>, maximum: nat, maximumPacketSize: nat)
    requires Settled(s) && |content| == p.total
    ensures s.freed <= Assemble(s, p, content, maximum, maximumPacketSize).freed
  {
    hide DispatchReliable, Unwanted, Refused, Position, NewIncoming, Ready;
    if InWindow(p.start, s.current) && !Malformed(p, maximumPacketSize) {
      var spot := PieceSpot(s, p);
      var c := Opening(p, content);
      if spot.Same? {
        if Belongs(s.reliables[spot.at], p) { FillFrees(s, spot.at, p); }
      } else if QueueOutcome(s, c, maximum).Queued? {
        PlacedPiece(s, p, content);
        FillFrees(Place(s, c), spot.at, p);
      }
    }
  }

  lemma FillFrees(s: State, i: nat, p: Piece)
    requires i < |s.reliables| && Belongs(s.reliables[i], p) && Counted(s.reliables[i])
    requires p.number < p.count && p.offset + |p.data| <= p.total
    ensures s.freed <= FillAt(s, i, p).freed
  {
    hide DispatchReliable, Filled;
    FillPossible(s.reliables[i], p.number);
    ReliableFrees(s.(reliables := s.reliables[i := Filled(s.reliables[i], p)]));
  }

  lemma StallKept(events: seq<Event>, maximum: nat, maximumPacketSize: nat)
    requires Proper(events) && events != []
    requires Size(After(events[..|events| - 1], maximum, maximumPacketSize).channel.freed) >= maximum
    ensures Size(After(events, maximum, maximumPacketSize).channel.freed) >= maximum
  {
    hide Queue, Assemble, Size, Owed, Settled;
    var y := After(events[..|events| - 1], maximum, maximumPacketSize);
    StallRefuses(y, maximum);
    match events[|events| - 1]
    case Takes =>
    case Arrives(Whole(c)) =>
    case Arrives(Part(p, content)) =>
      AssembleFrees(y.channel, p, content, maximum, maximumPacketSize);
      var f, f' := y.channel.freed, After(events, maximum, maximumPacketSize).channel.freed;
      assert f'[..|f|] == f;
      SizeCut(f', |f|);
  }
}
