/** When Externals/enet/peer.c loses waiting data: a scan of the unreliable queue frees bytes
    without taking them off the count exactly when one of the commands it gives up carries data. */
module LeakCondition {
  import opened PeerQueues
  import opened IncomingChannel
  import opened WaitingData
  import UnreliableDispatch

  // ---- one scan ----

  /** A scan of q gives up command k: it is out of date, or it misses fragments and is not one of
      the last two with nothing but such commands behind it. */
  predicate Doomed(q: seq<Incoming>, current: Word, k: nat)
    requires k < |q|
  {
    || Judge(q[k], current) == Stale
    || (Judge(q[k], current) == Partial
        && (k + 2 < |q| || (k + 1 < |q| && Judge(q[k + 1], current) != Partial)))
  }

  /** No command that the scan gives up carries data. */
  ghost predicate Harmless(q: seq<Incoming>, current: Word) {
    forall k :: 0 <= k < Stop(q, current) && Doomed(q[..Stop(q, current)], current, k) ==> q[k].data == []
  }

  lemma {:induction false} WithheldSize(q: seq<Incoming>, current: Word)
    ensures Size(Withheld(q, current)) == 0
      <==> forall k :: 0 <= k < |q| && Judge(q[k], current) != Deliver ==> q[k].data == []
    decreases |q|
  {
    hide Judge, Size;
    if q == [] {
      Empty();
    } else {
      var n := |q| - 1;
      WithheldSize(q[..n], current);
      var w := Withheld(q[..n], current);
      SizeSum(w, [q[n]]);
      OneSize(q[n]);
      assert w + [] == w;
      assert forall k :: 0 <= k < n ==> q[..n][k] == q[k];
      assert (forall k :: 0 <= k < |q| && Judge(q[k], current) != Deliver ==> q[k].data == [])
        <==> (forall k :: 0 <= k < n && Judge(q[..n][k], current) != Deliver ==> q[..n][k].data == [])
             && (Judge(q[n], current) != Deliver ==> q[n].data == []);
    }
  }

  lemma OneSize(x: Incoming)
    ensures Size([x]) == |x.data|
  {
    assert [x][1..] == [];
  }

  lemma DoomedAre(q: seq<Incoming>, current: Word, k: nat)
    requires k < |q| && forall j :: 0 <= j < |q| ==> Judge(q[j], current) != Future
    ensures Doomed(q, current, k) <==> k < |q| - Staying(q, current) && Judge(q[k], current) != Deliver
  {
    hide Judge;
  }

  lemma ScanLeak(q: seq<Incoming>, current: Word)
    requires forall j :: 0 <= j < |q| ==> Judge(q[j], current) != Future
    ensures Size(Withheld(q[..|q| - Staying(q, current)], current)) == 0
      <==> forall k :: 0 <= k < |q| && Doomed(q, current, k) ==> q[k].data == []
  {
    hide Judge, Withheld, Size, Staying, Doomed;
    var keep := |q| - Staying(q, current);
    WithheldSize(q[..keep], current);
    forall k | 0 <= k < |q|
      ensures Doomed(q, current, k) <==> k < keep && Judge(q[..keep][k], current) != Deliver
    {
      DoomedAre(q, current, k);
      assert k < keep ==> q[..keep][k] == q[k];
    }
  }

  /** For every queue and every current number: the scan adds no byte to what is lost if and only
      if nothing it gives up carries data. */
  lemma ScanLosesNothing(s: State)
    ensures Size(DispatchUnreliable(s).freed) == Size(s.freed) <==> Harmless(s.unreliables, s.current)
  {
    hide Judge, Withheld, Delivered, Size, Staying, Doomed, NumberAfter, Stop;
    var n := Stop(s.unreliables, s.current);
    var q := s.unreliables[..n];
    UnreliableDispatch.StopIs(s.unreliables, s.current);
    ScanLeak(q, s.current);
    SizeSum(s.freed, Withheld(q[..n - Staying(q, s.current)], s.current));
  }

  // ---- one call ----

  /** What the dispatch of reliable commands lets the scan give up carries no data. */
  ghost predicate ReliableHarmless(s: State) {
    var n := Ready(s.reliables, s.current);
    n == 0 || Harmless(s.unreliables, Reached(s.reliables[..n], s.current))
  }

  lemma ReliableLosesNothing(s: State)
    ensures Size(DispatchReliable(s).freed) == Size(s.freed) <==> ReliableHarmless(s)
  {
    hide DispatchUnreliable, Reached, Ready, Size, Doomed;
    var n := Ready(s.reliables, s.current);
    if n > 0 && s.unreliables != [] {
      ScanLosesNothing(s.(current := Reached(s.reliables[..n], s.current), unreliable := 0,
                          reliables := s.reliables[n..], dispatched := s.dispatched + s.reliables[..n]));
    }
  }

  /** The command is not accepted, or the scan it causes gives up nothing that carries data. */
  ghost predicate QueueHarmless(s: State, c: Command, maximum: nat) {
    QueueOutcome(s, c, maximum).Queued? ==>
      if IsReliable(c.kind) then ReliableHarmless(Place(s, c)) else Harmless(Place(s, c).unreliables, s.current)
  }

  /** For every command in every state. */
  lemma QueueLosesNothing(s: State, c: Command, maximum: nat)
    ensures Size(Queue(s, c, maximum).freed) == Size(s.freed) <==> QueueHarmless(s, c, maximum)
  {
    hide DispatchReliable, DispatchUnreliable, Size, Harmless, ReliableHarmless, Unwanted, Refused, Position, InsertAt;
    if QueueOutcome(s, c, maximum).Queued? {
      ReliableLosesNothing(Place(s, c));
      ScanLosesNothing(Place(s, c));
    }
  }

  /** The fragment does not complete its group, or what that lets the scan give up carries no data. */
  ghost predicate FillHarmless(s: State, i: nat, p: Piece)
    requires i < |s.reliables| && Belongs(s.reliables[i], p) && Counted(s.reliables[i])
    requires p.number < p.count && p.offset + |p.data| <= p.total
  {
    FillPossible(s.reliables[i], p.number);
    var x := s.reliables[i];
    !x.got[p.number] && x.remaining == 1 ==> ReliableHarmless(s.(reliables := s.reliables[i := Filled(x, p)]))
  }

  lemma FillLosesNothing(s: State, i: nat, p: Piece)
    requires i < |s.reliables| && Belongs(s.reliables[i], p) && Counted(s.reliables[i])
    requires p.number < p.count && p.offset + |p.data| <= p.total
    ensures Size(FillAt(s, i, p).freed) == Size(s.freed) <==> FillHarmless(s, i, p)
  {
    hide DispatchReliable, ReliableHarmless, Filled, Size;
    FillPossible(s.reliables[i], p.number);
    ReliableLosesNothing(s.(reliables := s.reliables[i := Filled(s.reliables[i], p)]));
  }

  /** The fragment is ignored or an error, or it finds or opens a group and is harmless there. */
  ghost predicate AssembleHarmless(s: State, p: Piece, content: seq<Byte>, maximum: nat, maximumPacketSize: nat)
    requires Settled(s) && |content| == p.total
  {
    InWindow(p.start, s.current) && !Malformed(p, maximumPacketSize) ==>
      var spot, c := PieceSpot(s, p), Opening(p, content);
      if spot.Same? then
        Belongs(s.reliables[spot.at], p) ==> FillHarmless(s, spot.at, p)
      else
        QueueOutcome(s, c, maximum).Queued? ==> (PlacedPiece(s, p, content); FillHarmless(Place(s, c), spot.at, p))
  }

  /** For every fragment in every settled state. */
  lemma AssembleLosesNothing(s: State, p: Piece, content: seq<Byte>, maximum: nat, maximumPacketSize: nat)
    requires Settled(s) && |content| == p.total
    ensures Size(Assemble(s, p, content, maximum, maximumPacketSize).freed) == Size(s.freed)
      <==> AssembleHarmless(s, p, content, maximum, maximumPacketSize)
  {
    hide FillAt, FillHarmless, Unwanted, Refused, Position, InsertAt, Counted, Ready, Size;
    if InWindow(p.start, s.current) && !Malformed(p, maximumPacketSize) {
      var spot, c := PieceSpot(s, p), Opening(p, content);
      if spot.Same? {
        if Belongs(s.reliables[spot.at], p) { FillLosesNothing(s, spot.at, p); }
      } else if QueueOutcome(s, c, maximum).Queued? {
        PlacedPiece(s, p, content);
        FillLosesNothing(Place(s, c), spot.at, p);
      }
    }
  }

  // ---- runs ----

  ghost predicate EventHarmless(y: Peer, e: Event, maximum: nat, maximumPacketSize: nat)
    requires Settled(y.channel)
    requires e.Arrives? && e.arrival.Part? ==> |e.arrival.content| == e.arrival.piece.total
  {
    match e
    case Takes => true
    case Arrives(Whole(c)) => QueueHarmless(y.channel, c, maximum)
    case Arrives(Part(p, content)) => AssembleHarmless(y.channel, p, content, maximum, maximumPacketSize)
  }

  /** Each event is harmless in the state it meets. */
  ghost predicate RunHarmless(events: seq<Event>, maximum: nat, maximumPacketSize: nat)
    requires Proper(events)
    decreases |events|
  {
    events != [] ==>
      var before := events[..|events| - 1];
      && RunHarmless(before, maximum, maximumPacketSize)
      && EventHarmless(After(before, maximum, maximumPacketSize), events[|events| - 1], maximum, maximumPacketSize)
  }

  lemma QueueFrees(s: State, c: Command, maximum: nat)
    ensures s.freed <= Queue(s, c, maximum).freed
  {
    hide DispatchReliable, Withheld, Delivered, Staying, Stop, NumberAfter, Unwanted, Refused, Position;
    if !Unwanted(s, c) { ReliableFrees(Place(s, c)); }
  }

  lemma SizeGrows(q: seq<Incoming>, more: seq<Incoming>)
    requires q <= more
    ensures Size(q) <= Size(more)
  {
    SizeCut(more, |q|);
    assert more[..|q|] == q;
  }

  /** After every run: nothing has been lost if and only if every event met a state in which it was
      harmless. */
  lemma {:induction false} RunLosesNothing(events: seq<Event>, maximum: nat, maximumPacketSize: nat)
    requires Proper(events)
    ensures Size(After(events, maximum, maximumPacketSize).channel.freed) == 0 <==>
      RunHarmless(events, maximum, maximumPacketSize)
    decreases |events|
  {
    hide Queue, Assemble, QueueHarmless, AssembleHarmless, Settled, Owed, Size, Take;
    if events == [] {
      Empty();
    } else {
      var before := events[..|events| - 1];
      RunLosesNothing(before, maximum, maximumPacketSize);
      var y := After(before, maximum, maximumPacketSize);
      var f, f' := y.channel.freed, After(events, maximum, maximumPacketSize).channel.freed;
      match events[|events| - 1]
      case Takes => TakeFrees(y);
      case Arrives(Whole(c)) =>
        QueueLosesNothing(y.channel, c, maximum);
        QueueFrees(y.channel, c, maximum);
        SizeGrows(f, f');
      case Arrives(Part(p, content)) =>
        AssembleLosesNothing(y.channel, p, content, maximum, maximumPacketSize);
        AssembleFrees(y.channel, p, content, maximum, maximumPacketSize);
        SizeGrows(f, f');
    }
  }

  lemma Empty()
    ensures Size([]) == 0 && Size(Initial().freed) == 0
  {
  }

  lemma TakeFrees(y: Peer)
    requires Sound(y)
    ensures Take(y).channel.freed == y.channel.freed
  {
    hide Owed, Settled;
  }

  /** The waiting data counts just the packets still in a queue, dispatched or not, if and only if
      every event was harmless where it came. */
  lemma CountExact(events: seq<Event>, maximum: nat, maximumPacketSize: nat)
    requires Proper(events)
    ensures var y := After(events, maximum, maximumPacketSize); var s := y.channel;
      && y.taken <= |s.dispatched|
      && (s.waiting == Size(s.dispatched[y.taken..]) + Size(s.reliables) + Size(s.unreliables)
          <==> RunHarmless(events, maximum, maximumPacketSize))
  {
    hide After, RunHarmless, Size, Settled;
    RunLosesNothing(events, maximum, maximumPacketSize);
    assert Sound(After(events, maximum, maximumPacketSize));
  }

  // ---- runs that lose data ----

  /** A packet comes late: reliable commands 2 and 1, and between them an unreliable one sent after
      command 1. */
  function LateEvents(data: seq<Byte>): seq<Event> {
    [Arrives(Whole(Command(Reliable, 2, 0, [], 0))), Arrives(Whole(Command(Unreliable, 1, 1, data, 0))),
     Arrives(Whole(Command(Reliable, 1, 0, [], 0))), Takes, Takes]
  }

  /** The peer after the events one by one. */
  lemma AfterNext(events: seq<Event>, e: Event, maximum: nat, maximumPacketSize: nat)
    requires Proper(events) && (e.Arrives? && e.arrival.Part? ==> |e.arrival.content| == e.arrival.piece.total)
    ensures Proper(events + [e])
    ensures var y, y' := After(events, maximum, maximumPacketSize), After(events + [e], maximum, maximumPacketSize);
      match e
      case Takes => y' == Take(y)
      case Arrives(Whole(c)) => y' == y.(channel := Queue(y.channel, c, maximum))
      case Arrives(Part(p, content)) => y' == y.(channel := Assemble(y.channel, p, content, maximum, maximumPacketSize))
  {
    hide Queue, Assemble, Take, Settled, Owed;
    assert (events + [e])[..|events + [e]| - 1] == events;
  }

  lemma LateProper(data: seq<Byte>)
    ensures Proper(LateEvents(data))
  {
  }

  /** Nothing waits and everything has been taken, and the bytes of the late packet still count. */
  lemma LateLeaks(data: seq<Byte>, maximum: nat, maximumPacketSize: nat)
    requires 0 < |data| < maximum
    ensures Proper(LateEvents(data))
    ensures var y := After(LateEvents(data), maximum, maximumPacketSize);
      && y.channel.reliables == [] && y.channel.unreliables == [] && y.taken == |y.channel.dispatched| == 2
      && y.channel.freed == [Incoming(Unreliable, 1, 1, 0, 0, [], data)] && y.channel.waiting == |data| > 0
  {
    hide After, Take, Queue, Settled, Owed;
    var e := LateEvents(data);
    LateProper(data);
    Nothing(maximum, maximumPacketSize);
    AfterNext([], e[0], maximum, maximumPacketSize);
    AfterNext(e[..1], e[1], maximum, maximumPacketSize);
    AfterNext(e[..2], e[2], maximum, maximumPacketSize);
    AfterNext(e[..3], Takes, maximum, maximumPacketSize);
    AfterNext(e[..4], Takes, maximum, maximumPacketSize);
    assert [] + [e[0]] == e[..1] && e[..1] + [e[1]] == e[..2] && e[..2] + [e[2]] == e[..3];
    assert e[..3] + [Takes] == e[..4] && e[..4] + [Takes] == e;
    LateSecond(maximum);
    LateThird(data, maximum);
    LateFourth(data, maximum);
    LateTaken(data);
  }

  lemma Nothing(maximum: nat, maximumPacketSize: nat)
    ensures Proper([]) && After([], maximum, maximumPacketSize) == Peer(Initial(), 0)
  {
    hide Queue, Assemble, Take, Settled, Owed;
  }

  function Got(kind: Kind, reliable: Word, unreliable: Word, data: seq<Byte>): Incoming {
    Incoming(kind, reliable, unreliable, 0, 0, [], data)
  }

  lemma LateSecond(maximum: nat)
    requires maximum > 0
    ensures Queue(Initial(), Command(Reliable, 2, 0, [], 0), maximum)
      == State(0, 0, [Got(Reliable, 2, 0, [])], [], [], [], 0, false)
  {
    assert NewIncoming(Command(Reliable, 2, 0, [], 0)) == Got(Reliable, 2, 0, []);
  }

  lemma LateThird(data: seq<Byte>, maximum: nat)
    requires maximum > 0
    ensures Queue(State(0, 0, [Got(Reliable, 2, 0, [])], [], [], [], 0, false), Command(Unreliable, 1, 1, data, 0),
                  maximum)
      == State(0, 0, [Got(Reliable, 2, 0, [])], [Got(Unreliable, 1, 1, data)], [], [], |data|, false)
  {
    var s := State(0, 0, [Got(Reliable, 2, 0, [])], [], [], [], 0, false);
    var c, x := Command(Unreliable, 1, 1, data, 0), Got(Unreliable, 1, 1, data);
    assert NewIncoming(c) == x;
    assert Judge(x, 0) == Future;
    assert !Unwanted(s, c) && Position(s, c) == 0;
    assert Place(s, c) == s.(unreliables := [x], waiting := |data|);
    assert Queue(s, c, maximum) == DispatchUnreliable(Place(s, c));
    UnreliableDispatch.Idle(Place(s, c));
  }

  lemma LateFourth(data: seq<Byte>, maximum: nat)
    requires |data| < maximum
    ensures Queue(State(0, 0, [Got(Reliable, 2, 0, [])], [Got(Unreliable, 1, 1, data)], [], [], |data|, false),
                  Command(Reliable, 1, 0, [], 0), maximum)
      == State(2, 0, [], [], [Got(Reliable, 1, 0, []), Got(Reliable, 2, 0, [])], [Got(Unreliable, 1, 1, data)], |data|,
               false)
  {
    hide DispatchUnreliable;
    var s := State(0, 0, [Got(Reliable, 2, 0, [])], [Got(Unreliable, 1, 1, data)], [], [], |data|, false);
    var c, x := Command(Reliable, 1, 0, [], 0), Got(Unreliable, 1, 1, data);
    assert NewIncoming(c) == Got(Reliable, 1, 0, []);
    assert ReliableSpot(s.reliables, 0, 1, 1) == Insert(0);
    var q := [Got(Reliable, 1, 0, []), Got(Reliable, 2, 0, [])];
    assert Place(s, c) == s.(reliables := q);
    assert q[1..] == [Got(Reliable, 2, 0, [])] && q[1..][1..] == [] && q[..2] == q && q[2..] == [];
    assert Ready(q[1..], 1) == 1;
    assert Ready(q, 0) == 2 && Reached(q, 0) == 2;
    var t := s.(current := 2, reliables := [], dispatched := q);
    assert t == s.(current := 2, unreliable := 0, reliables := q[2..], dispatched := s.dispatched + q[..2]);
    GivenUp(t, x);
  }

  /** A lone command that is out of date. */
  lemma GivenUp(s: State, x: Incoming)
    requires s.unreliables == [x] && Judge(x, s.current) == Stale
    ensures DispatchUnreliable(s) == s.(unreliables := [], freed := s.freed + [x])
  {
    hide Judge, Stop, Withheld, Delivered, Staying, NumberAfter;
    ScanOne(x, s.current, s.unreliable);
    assert [x][..1] == [x] && [x][1..] + [x][1..] == [] && s.dispatched + [] == s.dispatched;
  }

  lemma ScanOne(x: Incoming, current: Word, number: Word)
    requires Judge(x, current) == Stale
    ensures Stop([x], current) == 1 && Withheld([x], current) == [x] && Delivered([x], current) == []
    ensures Staying([x], current) == 0 && NumberAfter([x], current, number) == number
  {
    hide Judge, Stop, Withheld, Delivered, Staying, NumberAfter;
    var q := [x];
    assert q[0] == x;
    UnreliableDispatch.StopIs([x], current);
    EmptyScan([x], current, number);
    WithheldRun([x], current, 0, 1);
    assert [x][..1] == [x] && [x][0..1] == [x] && [x][..0] == [];
    NumberOne(x, current, number);
    assert [x] == [] + [x];
  }

  lemma NumberOne(x: Incoming, current: Word, number: Word)
    requires Judge(x, current) == Stale
    ensures NumberAfter([x], current, number) == number && Withheld([], current) == [] && Staying([x], current) == 0
  {
    hide Judge;
    assert [x][..0] == [];
  }

  lemma LateTaken(data: seq<Byte>)
    ensures var d := [Got(Reliable, 1, 0, []), Got(Reliable, 2, 0, [])];
      var s := State(2, 0, [], [], d, [Got(Unreliable, 1, 1, data)], |data|, false);
      && Sound(Peer(s, 0)) && Take(Peer(s, 0)) == Peer(s, 1) && Sound(Peer(s, 1)) && Take(Peer(s, 1)) == Peer(s, 2)
  {
    hide Size;
    var d := [Got(Reliable, 1, 0, []), Got(Reliable, 2, 0, [])];
    OneSize(Got(Unreliable, 1, 1, data));
    OneSize(d[0]);
    OneSize(d[1]);
    SizeSum([d[0]], [d[1]]);
    Empty();
    assert d == [d[0]] + [d[1]] && d[0..] == d && d[1..] == [d[1]] && d[2..] == [];
  }

  // ---- a run that stalls ----

  /** The fragments of the next reliable packet, and between them an unreliable packet of data. */
  function StallEvents(data: seq<Byte>): seq<Event> {
    [Arrives(Part(Piece(1, 0, 2, 0, 1, []), [0])), Arrives(Whole(Command(UnreliableFragment, 1, 1, data, 1))),
     Arrives(Part(Piece(1, 1, 2, 0, 1, []), [0]))]
  }

  function Halves(got: seq<bool>, remaining: nat): Incoming {
    Incoming(Fragment, 1, 0, 2, remaining, got, [0])
  }

  function Unfinished(data: seq<Byte>): Incoming {
    Incoming(UnreliableFragment, 1, 1, 1, 1, [false], data)
  }

  /** Three arrivals after which no command is ever accepted again, whatever follows: a packet as
      large as the limit on waiting data is lost. */
  lemma StallHappens(data: seq<Byte>, more: seq<Event>, maximum: nat, maximumPacketSize: nat)
    requires 1 < maximum <= |data| && maximumPacketSize > 0 && Proper(StallEvents(data) + more)
    ensures var y := After(StallEvents(data) + more, maximum, maximumPacketSize);
      forall c: Command :: !QueueOutcome(y.channel, c, maximum).Queued?
  {
    hide After, Size, Queue, QueueOutcome;
    StallLoses(data, maximum, maximumPacketSize);
    OneSize(Unfinished(data));
    Stalled(StallEvents(data), more, maximum, maximumPacketSize);
  }

  lemma StallLoses(data: seq<Byte>, maximum: nat, maximumPacketSize: nat)
    requires maximum > 1 && maximumPacketSize > 0
    ensures Proper(StallEvents(data))
    ensures After(StallEvents(data), maximum, maximumPacketSize).channel.freed == [Unfinished(data)]
  {
    hide After, Queue, Assemble, Settled, Owed;
    var e := StallEvents(data);
    StallProper(data);
    Nothing(maximum, maximumPacketSize);
    AfterNext([], e[0], maximum, maximumPacketSize);
    AfterNext(e[..1], e[1], maximum, maximumPacketSize);
    AfterNext(e[..2], e[2], maximum, maximumPacketSize);
    assert [] + [e[0]] == e[..1] && e[..1] + [e[1]] == e[..2] && e[..2] + [e[2]] == e;
    StallFirst(maximum, maximumPacketSize);
    StallSecond(data, maximum);
    StallThird(data, maximum, maximumPacketSize);
  }

  lemma StallProper(data: seq<Byte>)
    ensures Proper(StallEvents(data)) && Proper(StallEvents(data)[..1]) && Proper(StallEvents(data)[..2])
  {
  }

  lemma StallFirst(maximum: nat, maximumPacketSize: nat)
    requires maximum > 1 && maximumPacketSize > 0
    ensures Settled(Initial())
    ensures Assemble(Initial(), Piece(1, 0, 2, 0, 1, []), [0], maximum, maximumPacketSize)
      == State(0, 0, [Halves([true, false], 1)], [], [], [], 1, false)
  {
    var s, p := Initial(), Piece(1, 0, 2, 0, 1, []);
    var c := Opening(p, [0]);
    assert NewIncoming(c) == Halves([false, false], 2);
    assert !Unwanted(s, c) && PieceSpot(s, p) == Insert(0);
    PlacedPiece(s, p, [0]);
    assert Place(s, c) == s.(reliables := [Halves([false, false], 2)], waiting := 1);
    assert [false, false][0 := true] == [true, false] && [0][..0] + [] + [0][0..] == [0];
    assert Filled(Halves([false, false], 2), p) == Halves([true, false], 1);
  }

  lemma StallSecond(data: seq<Byte>, maximum: nat)
    requires maximum > 1
    ensures Queue(State(0, 0, [Halves([true, false], 1)], [], [], [], 1, false),
                  Command(UnreliableFragment, 1, 1, data, 1), maximum)
      == State(0, 0, [Halves([true, false], 1)], [Unfinished(data)], [], [], 1 + |data|, false)
  {
    var s := State(0, 0, [Halves([true, false], 1)], [], [], [], 1, false);
    var c, x := Command(UnreliableFragment, 1, 1, data, 1), Unfinished(data);
    assert NewIncoming(c) == x;
    assert Judge(x, 0) == Future;
    assert !Unwanted(s, c) && Position(s, c) == 0;
    assert Place(s, c) == s.(unreliables := [x], waiting := 1 + |data|);
    UnreliableDispatch.Idle(Place(s, c));
  }

  lemma StallThird(data: seq<Byte>, maximum: nat, maximumPacketSize: nat)
    requires maximumPacketSize > 0
    ensures var s := State(0, 0, [Halves([true, false], 1)], [Unfinished(data)], [], [], 1 + |data|, false);
      && Settled(s)
      && Assemble(s, Piece(1, 1, 2, 0, 1, []), [0], maximum, maximumPacketSize).freed == [Unfinished(data)]
  {
    hide DispatchUnreliable;
    var s := State(0, 0, [Halves([true, false], 1)], [Unfinished(data)], [], [], 1 + |data|, false);
    var p, x := Piece(1, 1, 2, 0, 1, []), Halves([true, true], 0);
    assert Missing([true, false]) == 1 by { assert [true, false][..1] == [true] && [true][..0] == []; }
    assert PieceSpot(s, p) == Same(0);
    assert [true, false][1 := true] == [true, true] && [0][..0] + [] + [0][0..] == [0];
    assert Filled(s.reliables[0], p) == x;
    assert s.reliables[0 := x] == [x];
    Completes(s.(reliables := [x]), x);
    GivenUp(s.(current := 2, reliables := [], dispatched := [x]), Unfinished(data));
  }

  lemma Completes(s: State, x: Incoming)
    requires s.current == 0 && s.unreliable == 0 && s.reliables == [x] && x == Halves([true, true], 0)
    requires s.dispatched == [] && s.unreliables != []
    ensures DispatchReliable(s) == DispatchUnreliable(s.(current := 2, reliables := [], dispatched := [x]))
  {
    hide DispatchUnreliable;
    assert [x][1..] == [] && [x][..1] == [x];
    assert Ready([x], 0) == 1 && Reached([x], 0) == 2 && s.dispatched + [x] == [x];
    assert s.(current := 2, reliables := [], dispatched := [x])
      == s.(current := 2, unreliable := 0, reliables := [x][1..], dispatched := s.dispatched + [x][..1]);
  }
}
