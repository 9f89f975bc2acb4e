/** The receiving side of one ENet channel as the object it is: linked rings and numbers that
    every operation of Externals/enet/peer.c and the fragment handler of protocol.c update in
    place, each proved to have the effect PeerQueues describes and to leave the rings whole. */
module IncomingChannel {
  import opened PeerQueues
  import opened RingList
  import opened ChannelRings

  /** The fragments still missing. */
  function Missing(got: seq<bool>): (n: nat)
    ensures n <= |got|
  {
    if got == [] then 0 else Missing(got[..|got| - 1]) + if got[|got| - 1] then 0 else 1
  }

  lemma {:induction false} MissingSet(got: seq<bool>, k: nat)
    requires k < |got| && !got[k]
    ensures Missing(got) > 0 && Missing(got[k := true]) == Missing(got) - 1
  {
    var n := |got| - 1;
    var set' := got[k := true];
    if k < n {
      assert set'[..n] == got[..n][k := true];
      MissingSet(got[..n], k);
    } else {
      assert set'[..n] == got[..n];
    }
  }

  lemma {:induction false} MissingNone(got: seq<bool>, k: nat)
    requires k < |got| && Missing(got) == 0
    ensures got[k]
  {
    if k < |got| - 1 { MissingNone(got[..|got| - 1], k); }
  }

  lemma {:induction false} MissingAll(n: nat)
    ensures Missing(seq(n, i => false)) == n
  {
    if n > 0 {
      assert seq(n, i => false)[..n - 1] == seq(n - 1, i => false);
      MissingAll(n - 1);
    }
  }

  ghost predicate Counted(x: Incoming) {
    |x.got| == x.count && x.remaining == Missing(x.got)
  }

  /** Between calls every command ready to be dispatched has been, and bitmaps and counters agree. */
  ghost predicate Settled(s: State) {
    && Ready(s.reliables, s.current) == 0
    && forall i :: 0 <= i < |s.reliables| ==> Counted(s.reliables[i])
  }

  // ---- fragments ----

  datatype Piece = Piece(start: Word, number: nat, count: nat, offset: nat, total: nat, data: seq<Byte>)

  predicate Malformed(p: Piece, maximumPacketSize: nat) {
    || p.count > MAXIMUM_FRAGMENT_COUNT || p.number >= p.count || p.total > maximumPacketSize
    || p.offset >= p.total || |p.data| > p.total - p.offset
  }

  predicate Belongs(x: Incoming, p: Piece) {
    x.kind == Fragment && |x.data| == p.total && x.count == p.count
  }

  /** The queued command after a fragment has been copied into it. */
  function Filled(x: Incoming, p: Piece): Incoming
    requires Belongs(x, p) && |x.got| == x.count && p.number < p.count && p.offset + |p.data| <= p.total
    requires x.remaining > 0 || x.got[p.number]
  {
    if x.got[p.number] then x else
      x.(remaining := x.remaining - 1, got := x.got[p.number := true],
         data := x.data[..p.offset] + p.data + x.data[p.offset + |p.data|..])
  }

  /** Whether the fragment's group can be found in the queue or put there. */
  function PieceSpot(s: State, p: Piece): Spot {
    ReliableSpot(s.reliables, s.current, p.start, |s.reliables|)
  }

  function Opening(p: Piece, content: seq<Byte>): Command {
    Command(Fragment, p.start, 0, content, p.count)
  }

  /** The channel after a fragment arrives; content is what a new packet's memory holds. */
  ghost function Assemble(s: State, p: Piece, content: seq<Byte>, maximum: nat, maximumPacketSize: nat): State
    requires Settled(s) && |content| == p.total
  {
    if !InWindow(p.start, s.current) || Malformed(p, maximumPacketSize) then s
    else
      var spot := PieceSpot(s, p);
      if spot.Same? then
        if Belongs(s.reliables[spot.at], p) then FillAt(s, spot.at, p) else s
      else
        var c := Opening(p, content);
        if QueueOutcome(s, c, maximum).Queued? then
          PlacedPiece(s, p, content);
          FillAt(Place(s, c), spot.at, p)
        else s
  }

  ghost function FillAt(s: State, i: nat, p: Piece): State
    requires i < |s.reliables| && Belongs(s.reliables[i], p) && Counted(s.reliables[i])
    requires p.number < p.count && p.offset + |p.data| <= p.total
  {
    FillPossible(s.reliables[i], p.number);
    var x := s.reliables[i];
    var s' := s.(reliables := s.reliables[i := Filled(x, p)]);
    if !x.got[p.number] && x.remaining == 1 then DispatchReliable(s') else s'
  }

  /** The fragment is too large, or it is malformed, names a command that is not its group, or opens a group that the
      queue does not accept. */
  predicate PieceError(s: State, p: Piece, content: seq<Byte>, maximum: nat, maximumPacketSize: nat) {
    || |p.data| > maximumPacketSize
    || (InWindow(p.start, s.current)
        && (Malformed(p, maximumPacketSize)
            || if PieceSpot(s, p).Same? then !Belongs(s.reliables[PieceSpot(s, p).at], p)
               else !QueueOutcome(s, Opening(p, content), maximum).Queued?))
  }

  lemma FillPossible(x: Incoming, k: nat)
    requires Counted(x) && k < x.count
    ensures x.remaining > 0 || x.got[k]
  {
    if !x.got[k] { MissingSet(x.got, k); }
  }

  lemma PlacedPiece(s: State, p: Piece, content: seq<Byte>)
    requires Settled(s) && |content| == p.total && p.count > 0
    requires !Unwanted(s, Opening(p, content)) && PieceSpot(s, p).Insert?
    ensures Position(s, Opening(p, content)) == PieceSpot(s, p).at
    ensures var s' := Place(s, Opening(p, content));
            && PieceSpot(s, p).at < |s'.reliables| && Belongs(s'.reliables[PieceSpot(s, p).at], p)
            && Settled(s')
  {
    var c := Opening(p, content);
    MissingAll(p.count);
    var i := Position(s, c);
    var q := InsertAt(s.reliables, i, NewIncoming(c));
    assert q[i] == NewIncoming(c);
    assert Counted(NewIncoming(c));
    assert i > 0 ==> q[0] == s.reliables[0];
    forall k | 0 <= k < |q|
      ensures Counted(q[k])
    {
      assert q[k] == if k < i then s.reliables[k] else if k == i then NewIncoming(c) else s.reliables[k - 1];
    }
  }

  /** Queueing the first fragment of a group dispatches nothing. */
  lemma Opens(s: State, p: Piece, content: seq<Byte>, maximum: nat)
    requires Settled(s) && |content| == p.total && p.count > 0 && PieceSpot(s, p).Insert?
    ensures var c := Opening(p, content);
      if QueueOutcome(s, c, maximum).Queued? then
        !Unwanted(s, c) && QueueOutcome(s, c, maximum) == Queued(PieceSpot(s, p).at)
        && Queue(s, c, maximum) == Place(s, c)
        && PieceSpot(s, p).at < |Place(s, c).reliables| && Belongs(Place(s, c).reliables[PieceSpot(s, p).at], p)
        && Settled(Place(s, c))
      else Queue(s, c, maximum) == s
  {
    if QueueOutcome(s, Opening(p, content), maximum).Queued? {
      PlacedPiece(s, p, content);
    }
  }

  lemma FillReady(s: State, i: nat, p: Piece)
    requires Settled(s) && i < |s.reliables| && Belongs(s.reliables[i], p) && p.number < p.count
    ensures |s.reliables[i].got| == p.count && Counted(s.reliables[i])
    ensures s.reliables[i].remaining > 0 || s.reliables[i].got[p.number]
  {
    FillPossible(s.reliables[i], p.number);
  }

  // ---- what holds between calls ----

  lemma {:induction false} NoneReady(q: seq<Incoming>, current: Word)
    ensures Ready(q[Ready(q, current)..], Reached(q[..Ready(q, current)], current)) == 0
    decreases |q|
  {
    if q != [] && IsNext(q[0], current) {
      var n := Ready(q[1..], LastNumber(q[0]));
      NoneReady(q[1..], LastNumber(q[0]));
      assert q[1..][n..] == q[n + 1..];
      assert q[..n + 1][1..] == q[1..][..n];
    }
  }

  lemma DispatchSettles(s: State)
    requires forall i :: 0 <= i < |s.reliables| ==> Counted(s.reliables[i])
    ensures Settled(DispatchReliable(s))
  {
    hide Counted;
    NoneReady(s.reliables, s.current);
  }

  /** A command of any kind and any content leaves the channel settled. */
  lemma QueueSettled(s: State, c: Command, maximum: nat)
    requires Settled(s)
    ensures Settled(Queue(s, c, maximum))
  {
    if !Unwanted(s, c) && !Refused(s, c, maximum) && IsReliable(c.kind) {
      MissingAll(c.count);
      assert Counted(NewIncoming(c));
      Inserted(s.reliables, Position(s, c), NewIncoming(c));
      DispatchSettles(Place(s, c));
    }
  }

  lemma Inserted(q: seq<Incoming>, i: nat, x: Incoming)
    requires i <= |q| && Counted(x) && forall k :: 0 <= k < |q| ==> Counted(q[k])
    ensures forall k :: 0 <= k < |InsertAt(q, i, x)| ==> Counted(InsertAt(q, i, x)[k])
  {
    hide Counted;
  }

  lemma FillSettled(s: State, i: nat, p: Piece)
    requires Settled(s) && i < |s.reliables| && Belongs(s.reliables[i], p)
    requires p.number < p.count && p.offset + |p.data| <= p.total
    ensures Settled(FillAt(s, i, p))
  {
    var x := s.reliables[i];
    FillPossible(x, p.number);
    var s' := s.(reliables := s.reliables[i := Filled(x, p)]);
    if x.got[p.number] {
      assert s' == s;
    } else {
      MissingSet(x.got, p.number);
      assert Counted(Filled(x, p));
      if x.remaining == 1 { DispatchSettles(s'); }
    }
  }

  /** So does a fragment of any content, malformed or not. */
  lemma AssembleSettled(s: State, p: Piece, content: seq<Byte>, maximum: nat, maximumPacketSize: nat)
    requires Settled(s) && |content| == p.total
    ensures Settled(Assemble(s, p, content, maximum, maximumPacketSize))
  {
    if InWindow(p.start, s.current) && !Malformed(p, maximumPacketSize) {
      var spot := PieceSpot(s, p);
      var c := Opening(p, content);
      if spot.Same? {
        if Belongs(s.reliables[spot.at], p) { FillSettled(s, spot.at, p); }
      } else if QueueOutcome(s, c, maximum).Queued? {
        PlacedPiece(s, p, content);
        FillSettled(Place(s, c), spot.at, p);
      }
    }
  }

  datatype Arrival = Whole(command: Command) | Part(piece: Piece, content: seq<Byte>)

  /** The channel after any arrivals in any order: always settled. */
  ghost function Received(arrivals: seq<Arrival>, maximum: nat, maximumPacketSize: nat): (s: State)
    requires forall k :: 0 <= k < |arrivals| && arrivals[k].Part? ==> |arrivals[k].content| == arrivals[k].piece.total
    ensures Settled(s)
    decreases |arrivals|
  {
    if arrivals == [] then Initial()
    else
      var s := Received(arrivals[..|arrivals| - 1], maximum, maximumPacketSize);
      match arrivals[|arrivals| - 1]
      case Whole(c) => QueueSettled(s, c, maximum); Queue(s, c, maximum)
      case Part(p, content) => AssembleSettled(s, p, content, maximum, maximumPacketSize);
                               Assemble(s, p, content, maximum, maximumPacketSize)
  }

  // ---- what the dispatch loops compute ----

  lemma {:induction false} StopFound(q: seq<Incoming>, current: Word, i: nat)
    requires i <= |q| && (forall k :: 0 <= k < i ==> Judge(q[k], current) != Future)
    requires i < |q| ==> Judge(q[i], current) == Future
    ensures Stop(q, current) == i
  {
    if i > 0 { StopFound(q[1..], current, i - 1); }
  }

  lemma {:induction false} ReadyStep(q: seq<Incoming>, current: Word, i: nat)
    requires i < |q|
    requires Ready(q, current) == i + Ready(q[i..], Reached(q[..i], current))
    ensures IsNext(q[i], Reached(q[..i], current)) ==>
      Ready(q, current) == i + 1 + Ready(q[i + 1..], LastNumber(q[i]))
    ensures !IsNext(q[i], Reached(q[..i], current)) ==> Ready(q, current) == i
  {
    assert q[i..][1..] == q[i + 1..];
  }

  lemma {:induction false} ReachedStep(q: seq<Incoming>, current: Word, i: nat)
    requires i < |q|
    ensures Reached(q[..i + 1], current) == LastNumber(q[i])
  {
    if i == 0 {
      assert q[..1][1..] == [];
    } else {
      ReachedStep(q[1..], LastNumber(q[0]), i - 1);
      assert q[..i + 1][1..] == q[1..][..i];
    }
  }

  lemma RunStep(q: seq<Incoming>, current: Word, j: nat)
    requires 0 < j <= |q|
    ensures Delivered(q[..j], current) == Delivered(q[..j - 1], current) + if Judge(q[j - 1], current) == Deliver then
        [q[j - 1]] else []
    ensures Withheld(q[..j], current) == Withheld(q[..j - 1], current) + if Judge(q[j - 1], current) == Deliver then []
      else [q[j - 1]]
  {
    assert q[..j][..j - 1] == q[..j - 1];
  }

  /** A run of commands to deliver at the end of the scan. */
  lemma {:induction false} DeliveredRun(q: seq<Incoming>, current: Word, i: nat, j: nat)
    requires i <= j <= |q| && forall k :: i <= k < j ==> Judge(q[k], current) == Deliver
    ensures Delivered(q[..j], current) == Delivered(q[..i], current) + q[i..j]
    ensures Withheld(q[..j], current) == Withheld(q[..i], current)
    decreases j
  {
    hide Withheld, Delivered, Judge;
    if i < j {
      DeliveredRun(q, current, i, j - 1);
      RunStep(q, current, j);
      assert q[i..j] == q[i..j - 1] + [q[j - 1]];
    } else {
      assert q[i..j] == [];
    }
  }

  /** Commands that are not delivered at the end of the scan. */
  lemma {:induction false} WithheldRun(q: seq<Incoming>, current: Word, i: nat, j: nat)
    requires i <= j <= |q| && forall k :: i <= k < j ==> Judge(q[k], current) != Deliver
    ensures Withheld(q[..j], current) == Withheld(q[..i], current) + q[i..j]
    ensures Delivered(q[..j], current) == Delivered(q[..i], current)
    decreases j
  {
    hide Withheld, Delivered, Judge;
    if i < j {
      WithheldRun(q, current, i, j - 1);
      RunStep(q, current, j);
      assert q[i..j] == q[i..j - 1] + [q[j - 1]];
    } else {
      assert q[i..j] == [];
    }
  }

  lemma StayingArePartial(q: seq<Incoming>, current: Word)
    ensures forall k :: |q| - Staying(q, current) <= k < |q| ==> Judge(q[k], current) == Partial
  {
  }

  /** The state of the scan of the unreliable queue q: j commands settled, then a run up to i. */
  ghost predicate Scanned(q: seq<Incoming>, current: Word, i: nat, list: seq<Incoming>, start: nat, at: nat,
                          dropped: nat) {
    && dropped <= start <= at <= |list| && at - start <= i <= |q|
    && (forall k :: 0 <= k < i ==> Judge(q[k], current) != Future)
    && list[at..] == q[i..]
    && var j := i - (at - start);
      && (forall k :: j <= k < i ==> Judge(q[k], current) == Deliver)
      && list[start..at] == q[j..i]
      && list[..start] == Withheld(q[..j], current)
      && start - dropped == Staying(q[..j], current)
  }

  lemma ScanEnd(q: seq<Incoming>, current: Word, i: nat, list: seq<Incoming>, start: nat, at: nat, dropped: nat)
    requires Scanned(q, current, i, list, start, at, dropped)
    ensures list[..start] == Withheld(q[..i], current)
    ensures Delivered(q[..i], current) == Delivered(q[..i - (at - start)], current) + list[start..at]
    ensures start == at ==>
      && dropped == at - Staying(q[..i], current)
      && list[..dropped] == Withheld(q[..i - Staying(q[..i], current)], current)
      && list[dropped..at] == q[i - Staying(q[..i], current)..i]
    ensures start < at ==> Staying(q[..i], current) == 0
  {
    var j := i - (at - start);
    DeliveredRun(q, current, j, i);
    if start == at {
      var stay := Staying(q[..i], current);
      StayingArePartial(q[..i], current);
      WithheldRun(q, current, i - stay, i);
      assert list[..start] == list[..dropped] + list[dropped..start];
    }
  }

  lemma ScanFacts(q: seq<Incoming>, current: Word, i: nat, list: seq<Incoming>, start: nat, at: nat, dropped: nat)
    requires Scanned(q, current, i, list, start, at, dropped)
    ensures dropped <= start <= at <= |list| && at - start <= i <= |q| && |list| - at == |q| - i
    ensures at < |list| ==> i < |q| && list[at] == q[i]
    ensures i < |q| || at == |list|
    ensures forall k :: 0 <= k < i ==> Judge(q[k], current) != Future
  {
    assert at < |list| ==> list[at] == list[at..][0];
  }

  lemma EmptyScan(q: seq<Incoming>, current: Word, number: Word)
    ensures Scanned(q, current, 0, q, 0, 0, 0)
    ensures Delivered(q[..0], current) == [] && NumberAfter(q[..0], current, number) == number
  {
  }

  /** What is removed and what stays once the last run has been moved. */
  lemma ScanFinish(q: seq<Incoming>, current: Word, i: nat, list: seq<Incoming>, start: nat, at: nat, dropped: nat)
    requires Scanned(q, current, i, list, start, at, dropped)
    ensures dropped <= start <= at <= |list| && at - start <= i <= |q| && Staying(q[..i], current) <= i
    ensures Delivered(q[..i], current) == Delivered(q[..i - (at - start)], current) + list[start..at]
    ensures var keep := i - Staying(q[..i], current);
      var list', dropped' := if start < at then list[..start] + list[at..]
        else list, if start < at then start else dropped;
      && list'[..dropped'] == Withheld(q[..i][..keep], current)
      && list'[dropped'..] == q[..i][keep..] + q[i..]
  {
    hide Withheld, Delivered, Staying, Judge;
    ScanEnd(q, current, i, list, start, at, dropped);
    var keep := i - Staying(q[..i], current);
    assert q[..i][..keep] == q[..keep];
    assert q[..i][keep..] == q[keep..i];
    if start == at {
      assert list[dropped..] == list[dropped..at] + list[at..];
    } else {
      assert q[..keep] == q[..i];
    }
  }

  /** A command the scan passes over and delivers later. */
  lemma ScanRun(q: seq<Incoming>, current: Word, i: nat, list: seq<Incoming>, start: nat, at: nat, dropped: nat)
    requires Scanned(q, current, i, list, start, at, dropped) && i < |q| && Judge(q[i], current) == Deliver
    ensures at < |list| && list[at] == q[i]
    ensures Scanned(q, current, i + 1, list, start, at + 1, dropped)
  {
    assert list[at] == list[at..][0];
    assert list[at + 1..] == list[at..][1..];
    var j := i - (at - start);
    assert list[start..at + 1] == list[start..at] + [list[at]];
    assert q[j..i + 1] == q[j..i] + [q[i]];
  }

  /** A command the scan settles: the run before it has been moved out of the list. */
  lemma ScanSettle(q: seq<Incoming>, current: Word, i: nat, list: seq<Incoming>, start: nat, at: nat, dropped: nat)
    requires Scanned(q, current, i, list, start, at, dropped)
    requires i < |q| && Judge(q[i], current) in {Partial, Stale}
    ensures var list' := list[..start] + list[at..];
      && Scanned(q, current, i + 1, list', start + 1, start + 1, start + 1 - Staying(q[..i + 1], current))
      && Delivered(q[..i + 1], current) == Delivered(q[..i - (at - start)], current) + list[start..at]
    ensures Judge(q[i], current) == Stale ==> Staying(q[..i + 1], current) == 0
    ensures Judge(q[i], current) == Partial && start < at ==> Staying(q[..i + 1], current) == 1
    ensures Judge(q[i], current) == Partial && start == at ==>
      Staying(q[..i + 1], current) == if dropped != at then 2 else 1
  {
    hide Withheld, Delivered;
    var list' := list[..start] + list[at..];
    ScanEnd(q, current, i, list, start, at, dropped);
    WithheldRun(q, current, i, i + 1);
    assert list'[start] == list[at..][0] == q[i];
    assert list'[..start + 1] == list[..start] + [q[i]];
    assert q[i..i + 1] == [q[i]];
    assert list'[start + 1..] == list[at..][1..];
    if start < at { assert q[i - 1] == q[i - (at - start)..i][at - start - 1]; }
  }

  /** The dispatch of unreliable commands in terms of where the scan stops. */
  lemma DispatchedUnreliable(s: State, i: nat, number: Word, unreliables: seq<Incoming>,
                             dispatched: seq<Incoming>, freed: seq<Incoming>)
    requires i <= |s.unreliables| && Stop(s.unreliables, s.current) == i
    requires number == NumberAfter(s.unreliables[..i], s.current, s.unreliable)
    requires dispatched == s.dispatched + Delivered(s.unreliables[..i], s.current)
    requires var stay := Staying(s.unreliables[..i], s.current);
      && unreliables == s.unreliables[..i][i - stay..] + s.unreliables[i..]
      && freed == s.freed + Withheld(s.unreliables[..i][..i - stay], s.current)
    ensures DispatchUnreliable(s)
      == s.(unreliable := number, unreliables := unreliables, dispatched := dispatched, freed := freed)
  {
  }

  lemma NumberStep(q: seq<Incoming>, current: Word, number: Word, i: nat)
    requires i < |q|
    ensures NumberAfter(q[..i + 1], current, number) ==
      if Judge(q[i], current) == Deliver && q[i].kind != Unsequenced then q[i].unreliable
      else NumberAfter(q[..i], current, number)
  {
    assert q[..i + 1][..i] == q[..i];
  }

  /** What enet_peer_queue_incoming_command returns: NULL, the dummy command or the new one. */
  datatype Answer = NullCommand | DummyCommand | NewCommand(node: Node)

  class Channel {
    const maximumWaitingData: nat
    const maximumPacketSize: nat
    const incomingReliableCommands: List
    const incomingUnreliableCommands: List
    const dispatchedCommands: List
    var incomingReliable: Word
    var incomingUnreliable: Word
    var totalWaitingData: nat
    var disconnectLater: bool
    /** The command each node is the beginning of. */
    var commands: map<Node, Incoming>
    /** The reference count of its packet. */
    var references: map<Node, nat>
    ghost var reliables: seq<Node>
    ghost var unreliables: seq<Node>
    ghost var dispatched: seq<Node>
    /** The commands the application has taken from the front of the dispatched ones. */
    ghost var received: seq<Incoming>
    /** The commands that have been freed, their packets destroyed, without being dispatched. */
    ghost var freed: seq<Incoming>

    ghost function ReliableRing(): seq<Node>
      reads this
    {
      [incomingReliableCommands.sentinel] + reliables
    }

    ghost function UnreliableRing(): seq<Node>
      reads this
    {
      [incomingUnreliableCommands.sentinel] + unreliables
    }

    ghost function DispatchedRing(): seq<Node>
      reads this
    {
      [dispatchedCommands.sentinel] + dispatched
    }

    ghost function Nodes(): set<Node>
      reads this
    {
      Elements(ReliableRing()) + Elements(UnreliableRing()) + Elements(DispatchedRing())
    }

    /** Every queued node begins a command whose packet is held once. */
    ghost predicate Held()
      reads this
    {
      && Begin(commands, references, reliables) && Begin(commands, references, unreliables)
      && Begin(commands, references, dispatched)
    }

    ghost predicate Valid()
      reads this, Nodes()
    {
      Rings(incomingReliableCommands, reliables, incomingUnreliableCommands, unreliables, dispatchedCommands,
            dispatched) && Held()
    }

    ghost function View(): State
      requires Held()
      reads this
    {
      State(incomingReliable, incomingUnreliable, Of(commands, reliables), Of(commands, unreliables),
            received + Of(commands, dispatched), freed, totalWaitingData, disconnectLater)
    }

    constructor (maximumWaitingData: nat, maximumPacketSize: nat)
      ensures Valid() && fresh(Nodes()) && View() == Initial() && Settled(View()) && received == []
      ensures this.maximumWaitingData == maximumWaitingData && this.maximumPacketSize == maximumPacketSize
    {
      this.maximumWaitingData, this.maximumPacketSize := maximumWaitingData, maximumPacketSize;
      incomingReliableCommands := new List();
      incomingUnreliableCommands := new List();
      dispatchedCommands := new List();
      incomingReliable, incomingUnreliable, totalWaitingData, disconnectLater := 0, 0, 0, false;
      commands, references, reliables, unreliables, dispatched, received, freed := map[], map[], [], [], [], [], [];
    }

    /** Moves the nodes from first up to the one before current to the end of the dispatched ones. */
    method MoveUnreliable(first: Node, current: Node, ghost f: nat, ghost l: nat)
      requires Valid() && f < l <= |unreliables|
      requires first == unreliables[f] && current == At(incomingUnreliableCommands, unreliables, l)
      modifies `unreliables, `dispatched, Nodes()
      ensures Valid() && Nodes() == old(Nodes())
      ensures unreliables == old(unreliables)[..f] + old(unreliables)[l..]
      ensures dispatched == old(dispatched) + old(unreliables)[f..l]
      ensures forall p :: l <= p <= |old(unreliables)| ==>
        At(incomingUnreliableCommands, old(unreliables), p) == At(incomingUnreliableCommands, unreliables, p - l + f)
      ensures View() == old(View()).(unreliables := old(View().unreliables)[..f] + old(View().unreliables)[l..],
                                     dispatched := old(View().dispatched) + old(View().unreliables)[f..l])
    {
      hide Elements, Distinct, List.Holds;
      ghost var q, d := unreliables, dispatched;
      ListedOnce(incomingUnreliableCommands, q);
      Regrouped(incomingUnreliableCommands.sentinel, q, dispatchedCommands.sentinel, d, f, l);
      MoveToEnd(dispatchedCommands, incomingUnreliableCommands, first, current, q, f, l, d,
                incomingReliableCommands, reliables);
      OfParts(commands, references, q, 0, f);
      OfParts(commands, references, q, l, |q|);
      OfParts(commands, references, q, f, l);
      OfSum(commands, references, q[..f], q[l..]);
      OfSum(commands, references, d, q[f..l]);
      unreliables := q[..f] + q[l..];
      dispatched := d + q[f..l];
    }

    /** The same for the reliable list. */
    method MoveReliable(first: Node, current: Node, ghost f: nat, ghost l: nat)
      requires Valid() && f < l <= |reliables|
      requires first == reliables[f] && current == At(incomingReliableCommands, reliables, l)
      modifies `reliables, `dispatched, Nodes()
      ensures Valid() && Nodes() == old(Nodes())
      ensures reliables == old(reliables)[..f] + old(reliables)[l..]
      ensures dispatched == old(dispatched) + old(reliables)[f..l]
      ensures View() == old(View()).(reliables := old(View().reliables)[..f] + old(View().reliables)[l..],
                                     dispatched := old(View().dispatched) + old(View().reliables)[f..l])
    {
      hide Elements, Distinct, List.Holds;
      ghost var q, d := reliables, dispatched;
      ListedOnce(incomingReliableCommands, q);
      Regrouped(incomingReliableCommands.sentinel, q, dispatchedCommands.sentinel, d, f, l);
      MoveToEnd(dispatchedCommands, incomingReliableCommands, first, current, q, f, l, d,
                incomingUnreliableCommands, unreliables);
      OfParts(commands, references, q, 0, f);
      OfParts(commands, references, q, l, |q|);
      OfParts(commands, references, q, f, l);
      OfSum(commands, references, q[..f], q[l..]);
      OfSum(commands, references, d, q[f..l]);
      reliables := q[..f] + q[l..];
      dispatched := d + q[f..l];
    }

    /** enet_peer_remove_incoming_commands: each node from startCommand on up to endCommand leaves
        its list, and its packet, which nobody else holds, is destroyed. */
    method RemoveIncomingCommands(list: List, startCommand: Node, endCommand: Node, ghost nodes: seq<Node>,
                                  ghost n: nat,
                                  ghost p: List, ghost ps: seq<Node>, ghost q: List, ghost qs: seq<Node>)
      requires list.Holds(nodes) && n <= |nodes| && Begin(commands, references, nodes)
      requires startCommand == At(list, nodes, 0) && endCommand == At(list, nodes, n)
      requires p.Holds(ps) && q.Holds(qs)
      requires Elements([p.sentinel] + ps) + Elements([q.sentinel] + qs) !! Elements([list.sentinel] + nodes)
      modifies `references, `freed, Elements([list.sentinel] + nodes)
      ensures list.Holds(nodes[n..]) && p.Holds(ps) && q.Holds(qs)
      ensures freed == old(freed) + Of(commands, nodes)[..n]
      ensures Released(old(references), references, nodes[..n])
    {
      hide Elements, Distinct, List.Holds, Released;
      var currentCommand := startCommand;
      ghost var i := 0;
      ListedOnce(list, nodes);
      SamePlace(list, nodes, 0, n);
      NoneReleased(references, nodes);
      while currentCommand != endCommand
        invariant i <= n && list.Holds(nodes[i..]) && p.Holds(ps) && q.Holds(qs)
        invariant Elements([list.sentinel] + nodes[i..]) <= Elements([list.sentinel] + nodes)
        invariant currentCommand == At(list, nodes, i)
        invariant freed == old(freed) + Of(commands, nodes)[..i]
        invariant Released(old(references), references, nodes[..i])
        decreases n - i
      {
        SamePlace(list, nodes, i, n);
        var incomingCommand := currentCommand;
        assert incomingCommand == nodes[i] == nodes[i..][0];
        Walk(list, nodes[i..], 0);
        currentCommand := currentCommand.next;
        RemoveFirst(incomingCommand, list, nodes[i..], p, ps, q, qs);
        OneReleased(old(references), references, list.sentinel, nodes, i);
        references := references[incomingCommand := references[incomingCommand] - 1];
        if references[incomingCommand] == 0 {
          freed := freed + [commands[incomingCommand]];
        }
        i := i + 1;
      }
      SamePlace(list, nodes, i, n);
    }
    lemma ReliableFacts()
      requires Valid()
      ensures incomingReliableCommands.Holds(reliables) && Distinct(ReliableRing())
      ensures |View().reliables| == |reliables| && View().current == incomingReliable
      ensures forall i :: 0 <= i < |reliables| ==>
        reliables[i] in commands && View().reliables[i] == commands[reliables[i]]
    {
    }

    lemma UnreliableFacts()
      requires Valid()
      ensures incomingUnreliableCommands.Holds(unreliables) && Distinct(UnreliableRing())
      ensures |View().unreliables| == |unreliables| && View().unreliable == incomingUnreliable
      ensures View().waiting == totalWaitingData && View().discarding == disconnectLater
      ensures forall i :: 0 <= i < |unreliables| ==>
        unreliables[i] in commands && View().unreliables[i] == commands[unreliables[i]]
    {
    }

    /** Removes and frees the commands before endCommand. */
    method RemoveUnreliable(endCommand: Node, ghost n: nat)
      requires Valid() && n <= |unreliables| && endCommand == At(incomingUnreliableCommands, unreliables, n)
      modifies `unreliables, `references, `freed, Nodes()
      ensures Valid() && Nodes() <= old(Nodes()) && unreliables == old(unreliables)[n..]
      ensures View() == old(View()).(unreliables := old(View().unreliables)[n..],
                                     freed := old(View().freed) + old(View().unreliables)[..n])
    {
      hide Elements, Distinct, List.Holds, Released, Begin;
      ghost var nodes, before := unreliables, references;
      ListedOnce(incomingUnreliableCommands, nodes);
      Walk(incomingUnreliableCommands, nodes, |nodes|);
      RemoveIncomingCommands(incomingUnreliableCommands, incomingUnreliableCommands.sentinel.next, endCommand, nodes, n,
                             incomingReliableCommands, reliables, dispatchedCommands, dispatched);
      unreliables := nodes[n..];
      OfParts(commands, before, nodes, n, |nodes|);
      StillHeld(commands, before, references, incomingUnreliableCommands.sentinel, nodes, n);
      OthersHeld(commands, before, references, incomingUnreliableCommands.sentinel, nodes, n,
                 incomingReliableCommands.sentinel, reliables);
      OthersHeld(commands, before, references, incomingUnreliableCommands.sentinel, nodes, n,
                 dispatchedCommands.sentinel, dispatched);
    }

    /** The iterators of the dispatch: current is at command i of what was queued when it began,
        the commands from start on are to be moved, those before dropped to be freed. */
    ghost predicate Scanning(s: State, i: nat, startCommand: Node, currentCommand: Node, droppedCommand: Node,
                             start: nat, current: nat, dropped: nat)
      requires Held()
      reads this
    {
      && dropped <= start <= current <= |unreliables| && current - start <= i <= |s.unreliables|
      && startCommand == At(incomingUnreliableCommands, unreliables, start)
      && currentCommand == At(incomingUnreliableCommands, unreliables, current)
      && droppedCommand == At(incomingUnreliableCommands, unreliables, dropped)
      && Scanned(s.unreliables, s.current, i, View().unreliables, start, current, dropped)
      && View()
        == s.(unreliable := NumberAfter(s.unreliables[..i], s.current, s.unreliable), unreliables := View().unreliables,
                      dispatched := s.dispatched + Delivered(s.unreliables[..i - (current - start)], s.current))
    }

    /** What the iterators see. */
    lemma ScanningFacts(s: State, i: nat, startCommand: Node, currentCommand: Node, droppedCommand: Node,
                        start: nat, current: nat, dropped: nat)
      requires Valid() && Scanning(s, i, startCommand, currentCommand, droppedCommand, start, current, dropped)
      ensures currentCommand == incomingUnreliableCommands.sentinel <==> current == |unreliables|
      ensures current == |unreliables| ==> i == |s.unreliables|
      ensures current < |unreliables| ==>
        && i < |s.unreliables| && currentCommand in commands && commands[currentCommand] == s.unreliables[i]
        && currentCommand == unreliables[current]
        && currentCommand.next == At(incomingUnreliableCommands, unreliables, current + 1)
        && (current > 0 ==> currentCommand.previous == At(incomingUnreliableCommands, unreliables, current - 1))
      ensures startCommand == currentCommand <==> start == current
      ensures droppedCommand == currentCommand <==> dropped == current
      ensures s.current == incomingReliable && dropped <= start <= current <= |unreliables| == |View().unreliables|
      ensures current - start <= i <= |s.unreliables| && (start < current ==> startCommand == unreliables[start])
      ensures forall k :: 0 <= k < i ==> Judge(s.unreliables[k], s.current) != Future
    {
      hide Scanned, NumberAfter, Delivered, Elements, Distinct, List.Holds, Judge, Begin;
      UnreliableFacts();
      Walk(incomingUnreliableCommands, unreliables, current);
      ScanFacts(s.unreliables, s.current, i, View().unreliables, start, current, dropped);
      SamePlace(incomingUnreliableCommands, unreliables, start, current);
      SamePlace(incomingUnreliableCommands, unreliables, dropped, current);
    }

    /** The end of the dispatch: the last run is moved and what was dropped is freed. */
    method FinishDispatch(startCommand: Node, currentCommand: Node, lastDropped: Node,
                          ghost start: nat, ghost current: nat, ghost last: nat, ghost s: State, ghost i: nat)
      requires Valid() && Scanning(s, i, startCommand, currentCommand, lastDropped, start, current, last)
      requires Stop(s.unreliables, s.current) == i
      modifies `unreliables, `dispatched, `references, `freed, Nodes()
      ensures Valid() && Nodes() <= old(Nodes())
      ensures View() == DispatchUnreliable(s)
    {
      hide Withheld, Delivered, Staying, NumberAfter, Stop, Scanned, DispatchUnreliable, Rings, Begin, Of, Elements,
        View;
      ScanningFacts(s, i, startCommand, currentCommand, lastDropped, start, current, last);
      var droppedCommand := lastDropped;
      ghost var dropped := last;
      ScanFinish(s.unreliables, s.current, i, View().unreliables, start, current, dropped);
      if startCommand != currentCommand {
        assert currentCommand == At(incomingUnreliableCommands, unreliables, current);
        MoveUnreliable(startCommand, currentCommand, start, current);
        droppedCommand, dropped := currentCommand, start;
      }
      RemoveUnreliable(droppedCommand, dropped);
      DispatchedUnreliable(s, i, View().unreliable, View().unreliables, View().dispatched, View().freed);
    }

    method SetUnreliable(number: Word)
      requires Valid()
      modifies `incomingUnreliable
      ensures Valid() && View() == old(View()).(unreliable := number)
    {
      incomingUnreliable := number;
    }

    /** The scan passes over a command it will deliver. */
    method PassOver(x: Incoming, ghost s: State, ghost i: nat, startCommand: Node, currentCommand: Node,
                    droppedCommand: Node,
                    ghost start: nat, ghost current: nat, ghost dropped: nat) returns (nextCommand: Node)
      requires Valid() && Scanning(s, i, startCommand, currentCommand, droppedCommand, start, current, dropped)
      requires current < |unreliables| && i < |s.unreliables| && x == s.unreliables[i] && Judge(x, s.current) == Deliver
      modifies `incomingUnreliable
      ensures Valid() && current + 1 <= |unreliables|
      ensures Scanning(s, i + 1, startCommand, nextCommand, droppedCommand, start, current + 1, dropped)
    {
      hide Withheld, Delivered, Staying, NumberAfter, Scanned, Rings, Begin, Of, Judge;
      ScanningFacts(s, i, startCommand, currentCommand, droppedCommand, start, current, dropped);
      NumberStep(s.unreliables, s.current, s.unreliable, i);
      ScanRun(s.unreliables, s.current, i, View().unreliables, start, current, dropped);
      nextCommand := currentCommand.next;
      if x.kind != Unsequenced { SetUnreliable(x.unreliable); }
    }

    /** The scan settles a command: what it has passed over before is moved. */
    method SettleCommand(x: Incoming, ghost s: State, ghost i: nat, startCommand: Node, currentCommand: Node,
                         lastDropped: Node,
                         ghost start: nat, ghost current: nat, ghost last: nat)
      returns (nextCommand: Node, droppedCommand: Node, ghost dropped: nat)
      requires Valid() && Scanning(s, i, startCommand, currentCommand, lastDropped, start, current, last)
      requires current < |unreliables| && i < |s.unreliables| && x == s.unreliables[i]
        && Judge(x, s.current) in {Partial, Stale}
      modifies `unreliables, `dispatched, Nodes()
      ensures Valid() && Nodes() == old(Nodes()) && start + 1 <= |unreliables|
      ensures |unreliables| - start == old(|unreliables|) - current
      ensures Scanning(s, i + 1, nextCommand, nextCommand, droppedCommand, start + 1, start + 1, dropped)
    {
      hide Withheld, Delivered, Staying, NumberAfter, Scanned, Rings, Begin, Of, Elements, InWindow, View;
      ScanningFacts(s, i, startCommand, currentCommand, lastDropped, start, current, last);
      NumberStep(s.unreliables, s.current, s.unreliable, i);
      ScanSettle(s.unreliables, s.current, i, View().unreliables, start, current, last);
      nextCommand := currentCommand.next;
      droppedCommand, dropped := lastDropped, last;
      ghost var list := View().unreliables;
      assert start == current ==> list[..start] + list[current..] == list;
      if x.reliable == incomingReliable {
        if startCommand != currentCommand {
          MoveUnreliable(startCommand, currentCommand, start, current);
          droppedCommand, dropped := currentCommand, start;
        } else if droppedCommand != currentCommand {
          droppedCommand, dropped := currentCommand.previous, current - 1;
        }
      } else {
        droppedCommand, dropped := nextCommand, start + 1;
        if startCommand != currentCommand {
          MoveUnreliable(startCommand, currentCommand, start, current);
        }
      }
    }

    method DispatchUnreliableCommands()
      requires Valid()
      modifies `unreliables, `dispatched, `references, `freed, `incomingUnreliable, Nodes()
      ensures Valid() && Nodes() <= old(Nodes())
      ensures View() == DispatchUnreliable(old(View()))
    {
      hide Withheld, Delivered, Staying, NumberAfter, Stop, InWindow, DispatchUnreliable, Rings, Begin, Of, Elements,
        Scanning, Scanned;
      ghost var s := View();
      ghost var dropped: nat, start: nat, current: nat, i: nat := 0, 0, 0, 0;
      var currentCommand := StartScan();
      var startCommand, droppedCommand := currentCommand, currentCommand;
      while currentCommand != incomingUnreliableCommands.sentinel
        invariant Valid() && Nodes() == old(Nodes())
        invariant Scanning(s, i, startCommand, currentCommand, droppedCommand, start, current, dropped)
        decreases |unreliables| - current
      {
        ScanningFacts(s, i, startCommand, currentCommand, droppedCommand, start, current, dropped);
        var x := commands[currentCommand];
        if x.kind == Unsequenced || (x.reliable == incomingReliable && x.remaining <= 0) {
          currentCommand := PassOver(x, s, i, startCommand, currentCommand, droppedCommand, start, current, dropped);
          current, i := current + 1, i + 1;
          continue;
        }
        if x.reliable != incomingReliable && InWindow(x.reliable, incomingReliable) { break; }
        currentCommand, droppedCommand, dropped :=
          SettleCommand(x, s, i, startCommand, currentCommand, droppedCommand, start, current, dropped);
        startCommand, start, i := currentCommand, start + 1, i + 1;
        current := start;
      }
      ScanningFacts(s, i, startCommand, currentCommand, droppedCommand, start, current, dropped);
      StopFound(s.unreliables, s.current, i);
      FinishDispatch(startCommand, currentCommand, droppedCommand, start, current, dropped, s, i);
    }

    /** All three iterators begin at the first command. */
    method StartScan() returns (first: Node)
      requires Valid()
      ensures Valid() && Scanning(View(), 0, first, first, first, 0, 0, 0)
    {
      UnreliableFacts();
      Walk(incomingUnreliableCommands, unreliables, |unreliables|);
      first := incomingUnreliableCommands.sentinel.next;
      EmptyScan(View().unreliables, incomingReliable, incomingUnreliable);
    }
    method SetReliable(number: Word)
      requires Valid()
      modifies `incomingReliable
      ensures Valid() && View() == old(View()).(current := number)
    {
      incomingReliable := number;
    }

    method DispatchReliableCommands()
      requires Valid()
      modifies `reliables, `unreliables, `dispatched, `references, `freed, `incomingReliable, `incomingUnreliable,
        Nodes()
      ensures Valid() && Nodes() <= old(Nodes())
      ensures View() == DispatchReliable(old(View()))
      ensures old(Ready(View().reliables, incomingReliable)) == 0 ==> reliables == old(reliables)
    {
      hide Rings, Begin, Of, Elements, DispatchReliable, Reached, Ready, Distinct, View;
      ghost var s := View();
      ghost var q, current := s.reliables, 0;
      ReliableFacts();
      Walk(incomingReliableCommands, reliables, |reliables|);
      var currentCommand: Node := incomingReliableCommands.sentinel.next;
      ReachedNone(q, s.current);
      while currentCommand != incomingReliableCommands.sentinel
        invariant Valid() && Nodes() == old(Nodes()) && reliables == old(reliables) && current <= |reliables| == |q|
        invariant currentCommand == At(incomingReliableCommands, reliables, current)
        invariant View() == s.(current := Reached(q[..current], s.current))
        invariant Ready(q, s.current) == current + Ready(q[current..], View().current)
        decreases |q| - current
      {
        ReliableFacts();
        Walk(incomingReliableCommands, reliables, current);
        var x := commands[currentCommand];
        ReadyStep(q, s.current, current);
        if x.remaining > 0 || x.reliable != (incomingReliable + 1) % WORDS { break; }
        ReachedStep(q, s.current, current);
        SetReliable(LastNumber(x));
        currentCommand := currentCommand.next;
        current := current + 1;
      }
      ReliableFacts();
      Walk(incomingReliableCommands, reliables, current);
      ReadyNone(q, current, View().current);
      FinishReliable(currentCommand, current, s);
    }

    /** The end of the dispatch: what the loop passed is moved, then unreliable commands follow. */
    method FinishReliable(currentCommand: Node, ghost current: nat, ghost s: State)
      requires Valid() && current == Ready(s.reliables, s.current) && |reliables| == |s.reliables|
      requires currentCommand == At(incomingReliableCommands, reliables, current)
      requires View() == s.(current := Reached(s.reliables[..current], s.current))
      modifies `reliables, `unreliables, `dispatched, `references, `freed, `incomingUnreliable, Nodes()
      ensures Valid() && Nodes() <= old(Nodes())
      ensures View() == DispatchReliable(s)
      ensures current == 0 ==> reliables == old(reliables)
    {
      hide Rings, Begin, Of, Elements, DispatchUnreliable, Reached, Ready, Distinct, View;
      ReliableFacts();
      Walk(incomingReliableCommands, reliables, |reliables|);
      SamePlace(incomingReliableCommands, reliables, 0, current);
      ReachedNone(s.reliables, s.current);
      if currentCommand == incomingReliableCommands.sentinel.next { return; }
      SetUnreliable(0);
      MoveReliable(incomingReliableCommands.sentinel.next, currentCommand, 0, current);
      assert s.reliables[..0] + s.reliables[current..] == s.reliables[current..]
        && s.reliables[0..current] == s.reliables[..current];
      ghost var s' := s.(current := Reached(s.reliables[..current], s.current), unreliable := 0,
                         reliables := s.reliables[current..], dispatched := s.dispatched + s.reliables[..current]);
      assert View() == s';
      UnreliableFacts();
      Walk(incomingUnreliableCommands, unreliables, |unreliables|);
      SamePlace(incomingUnreliableCommands, unreliables, 0, |unreliables|);
      if incomingUnreliableCommands.sentinel.next != incomingUnreliableCommands.sentinel {
        DispatchUnreliableCommands();
      }
    }

    /** Looks from the back of the reliable queue for the place of a number: the node after which
        it goes, or the node that has it. The loop is the same where a command is queued and where
        a fragment looks for its group. */
    method ScanReliable(number: Word) returns (position: Node, same: bool, ghost spot: Spot)
      requires Valid()
      ensures Valid() && View() == old(View())
      ensures spot == ReliableSpot(View().reliables, incomingReliable, number, |reliables|) && same == spot.Same?
      ensures same ==> spot.at < |reliables| && position == reliables[spot.at]
      ensures !same ==> spot.at <= |reliables| && position == Before(incomingReliableCommands, reliables, spot.at)
    {
      hide Rings, Begin, Of, Elements, Distinct, View;
      ReliableFacts();
      ghost var q, at: nat := View().reliables, |reliables|;
      WalkBack(incomingReliableCommands, reliables, at);
      position := incomingReliableCommands.sentinel.previous;
      while position != incomingReliableCommands.sentinel
        invariant Valid() && View() == old(View())
        invariant at <= |reliables| && position == Before(incomingReliableCommands, reliables, at)
        invariant ReliableSpot(q, incomingReliable, number, |q|) == ReliableSpot(q, incomingReliable, number, at)
        decreases at
      {
        WalkBack(incomingReliableCommands, reliables, at);
        var x := commands[position];
        if number >= incomingReliable {
          if x.reliable < incomingReliable {
            position, at := position.previous, at - 1;
            continue;
          }
        } else if x.reliable >= incomingReliable {
          break;
        }
        if x.reliable <= number {
          if x.reliable < number { break; }
          return position, true, Same(at - 1);
        }
        position, at := position.previous, at - 1;
      }
      WalkBack(incomingReliableCommands, reliables, at);
      same, spot := false, Insert(at);
    }

    method ScanUnreliable(number: Word, unreliable: Word) returns (position: Node, same: bool, ghost spot: Spot)
      requires Valid()
      ensures Valid() && View() == old(View())
      ensures spot == UnreliableSpot(View().unreliables, incomingReliable, number, unreliable, |unreliables|)
        && same == spot.Same?
      ensures same ==> spot.at < |unreliables| && position == unreliables[spot.at]
      ensures !same ==> spot.at <= |unreliables| && position == Before(incomingUnreliableCommands, unreliables, spot.at)
    {
      hide Rings, Begin, Of, Elements, Distinct, View;
      UnreliableFacts();
      ghost var q, at: nat := View().unreliables, |unreliables|;
      WalkBack(incomingUnreliableCommands, unreliables, at);
      position := incomingUnreliableCommands.sentinel.previous;
      while position != incomingUnreliableCommands.sentinel
        invariant Valid() && View() == old(View())
        invariant at <= |unreliables| && position == Before(incomingUnreliableCommands, unreliables, at)
        invariant UnreliableSpot(q, incomingReliable, number, unreliable, |q|)
               == UnreliableSpot(q, incomingReliable, number, unreliable, at)
        decreases at
      {
        WalkBack(incomingUnreliableCommands, unreliables, at);
        var x := commands[position];
        if number >= incomingReliable {
          if x.reliable < incomingReliable {
            position, at := position.previous, at - 1;
            continue;
          }
        } else if x.reliable >= incomingReliable {
          break;
        }
        if x.reliable < number { break; }
        if x.reliable > number {
          position, at := position.previous, at - 1;
          continue;
        }
        if x.unreliable <= unreliable {
          if x.unreliable < unreliable { break; }
          return position, true, Same(at - 1);
        }
        position, at := position.previous, at - 1;
      }
      WalkBack(incomingUnreliableCommands, unreliables, at);
      same, spot := false, Insert(at);
    }

    /** A new command goes into the reliable list after currentCommand; it holds its packet. */
    method InsertReliable(currentCommand: Node, x: Incoming, ghost at: nat) returns (node: Node)
      requires Valid() && at <= |reliables| && currentCommand == Before(incomingReliableCommands, reliables, at)
      modifies `reliables, `commands, `references, Nodes()
      ensures Valid() && fresh(node) && Nodes() == old(Nodes()) + {node}
      ensures reliables == old(reliables)[..at] + [node] + old(reliables)[at..]
      ensures View() == old(View()).(reliables := InsertAt(old(View().reliables), at, x))
    {
      hide Begin, Of, Elements, Distinct, List.Holds;
      node := InsertNode(incomingReliableCommands, currentCommand, reliables, at,
                 incomingUnreliableCommands, unreliables, dispatchedCommands, dispatched);
      OneMore(commands, references, incomingReliableCommands.sentinel, reliables, node, x);
      OneMore(commands, references, incomingUnreliableCommands.sentinel, unreliables, node, x);
      OneMore(commands, references, dispatchedCommands.sentinel, dispatched, node, x);
      commands, references := commands[node := x], references[node := 1];
      InsertedOf(commands, references, reliables, at, node);
      reliables := reliables[..at] + [node] + reliables[at..];
    }

    method InsertUnreliable(currentCommand: Node, x: Incoming, ghost at: nat) returns (node: Node)
      requires Valid() && at <= |unreliables| && currentCommand == Before(incomingUnreliableCommands, unreliables, at)
      modifies `unreliables, `commands, `references, Nodes()
      ensures Valid() && fresh(node) && Nodes() == old(Nodes()) + {node}
      ensures unreliables == old(unreliables)[..at] + [node] + old(unreliables)[at..]
      ensures View() == old(View()).(unreliables := InsertAt(old(View().unreliables), at, x))
    {
      hide Begin, Of, Elements, Distinct, List.Holds;
      node := InsertNode(incomingUnreliableCommands, currentCommand, unreliables, at,
                 incomingReliableCommands, reliables, dispatchedCommands, dispatched);
      OneMore(commands, references, incomingReliableCommands.sentinel, reliables, node, x);
      OneMore(commands, references, incomingUnreliableCommands.sentinel, unreliables, node, x);
      OneMore(commands, references, dispatchedCommands.sentinel, dispatched, node, x);
      commands, references := commands[node := x], references[node := 1];
      InsertedOf(commands, references, unreliables, at, node);
      unreliables := unreliables[..at] + [node] + unreliables[at..];
    }
    method AddWaiting(more: nat)
      requires Valid()
      modifies `totalWaitingData
      ensures Valid() && View() == old(View()).(waiting := old(View().waiting) + more)
    {
      totalWaitingData := totalWaitingData + more;
    }

    /** The last part of enet_peer_queue_incoming_command: the new command goes after position. */
    method PutCommand(position: Node, c: Command, ghost at: nat) returns (node: Node)
      requires Valid() && !Unwanted(View(), c) && at == Position(View(), c)
      requires IsReliable(c.kind) ==> at <= |reliables| && position == Before(incomingReliableCommands, reliables, at)
      requires !IsReliable(c.kind) ==>
        at <= |unreliables| && position == Before(incomingUnreliableCommands, unreliables, at)
      modifies `reliables, `unreliables, `dispatched, `freed, `incomingReliable, `incomingUnreliable, `totalWaitingData,
        `commands, `references, Nodes()
      ensures Valid() && forall x :: x in Nodes() && x !in old(Nodes()) ==> fresh(x)
      ensures View() == if IsReliable(c.kind) then DispatchReliable(Place(old(View()), c))
        else DispatchUnreliable(Place(old(View()), c))
      ensures IsReliable(c.kind) && Ready(Place(old(View()), c).reliables, old(View().current)) == 0 ==>
        at < |reliables| && node == reliables[at]
    {
      hide DispatchReliable, DispatchUnreliable, Rings, Begin, Of, Elements, Distinct, View, Unwanted, Position, Ready;
      var number: Word := if c.kind == Unreliable || c.kind == UnreliableFragment then c.unreliable else 0;
      var x := Incoming(c.kind, c.reliable, number, c.count, c.count, seq(c.count, i => false), c.data);
      AddWaiting(|c.data|);
      if c.kind == Fragment || c.kind == Reliable {
        node := InsertReliable(position, x, at);
        assert View() == Place(old(View()), c);
        ReliableFacts();
        ghost var inserted := Nodes();
        DispatchReliableCommands();
        assert Nodes() <= inserted;
      } else {
        node := InsertUnreliable(position, x, at);
        assert View() == Place(old(View()), c);
        ghost var inserted := Nodes();
        DispatchUnreliableCommands();
        assert Nodes() <= inserted;
      }
    }

    /** Puts an arriving command in its queue, unless it is a duplicate or out of date. An
        unsequenced command goes after the sentinel, that is to the front. */
    method QueueIncomingCommand(c: Command) returns (answer: Answer, ghost outcome: Outcome)
      requires Valid()
      modifies `reliables, `unreliables, `dispatched, `freed, `incomingReliable, `incomingUnreliable, `totalWaitingData,
        `commands, `references, Nodes()
      ensures Valid() && forall x :: x in Nodes() && x !in old(Nodes()) ==> fresh(x)
      ensures outcome == QueueOutcome(old(View()), c, maximumWaitingData)
      ensures (answer.NullCommand? <==> outcome.Null?) && (answer.NewCommand? <==> outcome.Queued?)
      ensures View() == Queue(old(View()), c, maximumWaitingData)
      ensures outcome.Queued? && IsReliable(c.kind) ==>
        Ready(Place(old(View()), c).reliables, old(View().current)) == 0 ==>
        outcome.at < |reliables| && answer.node == reliables[outcome.at]
    {
      hide DispatchReliable, DispatchUnreliable, ReliableSpot, UnreliableSpot, InWindow, Rings, Begin, Of, Elements,
        Distinct, Place, Ready, View;
      ReliableFacts();
      UnreliableFacts();
      answer, outcome := if c.count > 0 then NullCommand else DummyCommand, Discard(c);
      if disconnectLater { return; }
      if c.kind != Unsequenced {
        if !InWindow(c.reliable, incomingReliable) { return; }
      }
      var position := incomingUnreliableCommands.sentinel;
      var same := false;
      ghost var spot := Insert(0);
      if c.kind == Fragment || c.kind == Reliable {
        if c.reliable == incomingReliable { return; }
        position, same, spot := ScanReliable(c.reliable);
      } else if c.kind == Unreliable || c.kind == UnreliableFragment {
        if c.reliable == incomingReliable && c.unreliable <= incomingUnreliable { return; }
        position, same, spot := ScanUnreliable(c.reliable, c.unreliable);
      }
      if same { return; }
      if totalWaitingData >= maximumWaitingData || c.count > MAXIMUM_FRAGMENT_COUNT { return NullCommand, Null; }
      outcome := Queued(spot.at);
      var node := PutCommand(position, c, spot.at);
      answer := NewCommand(node);
    }

    /** enet_protocol_handle_send_reliable: a command that is too large is not queued. */
    method HandleSendReliable(c: Command) returns (error: bool)
      requires Valid() && c.kind == Reliable
      modifies `reliables, `unreliables, `dispatched, `freed, `incomingReliable, `incomingUnreliable, `totalWaitingData,
        `commands, `references, Nodes()
      ensures Valid() && forall x :: x in Nodes() && x !in old(Nodes()) ==> fresh(x)
      ensures View() == if |c.data| > maximumPacketSize then old(View()) else Queue(old(View()), c, maximumWaitingData)
      ensures error == (|c.data| > maximumPacketSize || QueueOutcome(old(View()), c, maximumWaitingData).Null?)
    {
      hide Queue, QueueOutcome, Rings, Begin, Of, Elements, Distinct, View;
      if |c.data| > maximumPacketSize { return true; }
      var answer, outcome := QueueIncomingCommand(c);
      error := answer.NullCommand?;
    }

    /** Changes the command of a node of the reliable queue in place. */
    method SetCommand(node: Node, x: Incoming, ghost at: nat)
      requires Valid() && at < |reliables| && node == reliables[at]
      modifies `commands
      ensures Valid() && View() == old(View()).(reliables := old(View().reliables)[at := x])
    {
      hide Elements, Distinct, List.Holds;
      ListedOnce(incomingReliableCommands, reliables);
      Changed(commands, references, incomingReliableCommands.sentinel, reliables, at, x,
              incomingUnreliableCommands.sentinel, unreliables, dispatchedCommands.sentinel, dispatched);
      commands := commands[node := x];
    }

    /** The memory of a new packet, whatever it holds. */
    method NewPacket(length: nat) returns (memory: array<Byte>)
      requires Valid()
      ensures Valid() && View() == old(View()) && Nodes() == old(Nodes()) && memory.Length == length
    {
      memory := new Byte[length];
    }

    /** Copies an arriving fragment into its group, opening the group if it is the first. */
    method HandleSendFragment(p: Piece) returns (error: bool, ghost content: seq<Byte>)
      requires Valid() && Settled(View())
      modifies `reliables, `unreliables, `dispatched, `freed, `incomingReliable, `incomingUnreliable, `totalWaitingData,
        `commands, `references, Nodes()
      ensures Valid() && (forall x :: x in Nodes() && x !in old(Nodes()) ==> fresh(x)) && |content| == p.total
      ensures View() == Assemble(old(View()), p, content, maximumWaitingData, maximumPacketSize)
      ensures error == PieceError(old(View()), p, content, maximumWaitingData, maximumPacketSize)
    {
      hide DispatchReliable, Queue, QueueOutcome, Unwanted, Counted, ReliableSpot, InWindow, Rings, Begin, Of, Elements,
        Distinct, View, Place, Ready;
      ghost var s := View();
      ReliableFacts();
      var memory := NewPacket(p.total);
      content := memory[..];
      if |p.data| > maximumPacketSize { return true, content; }
      if !InWindow(p.start, incomingReliable) { return false, content; }
      if p.count > MAXIMUM_FRAGMENT_COUNT || p.number >= p.count || p.total > maximumPacketSize ||
         p.offset >= p.total || |p.data| > p.total - p.offset {
        return true, content;
      }
      var node, same, spot := ScanReliable(p.start);
      if same {
        var x := commands[node];
        if x.kind != Fragment || p.total != |x.data| || p.count != x.count { return true, content; }
      } else {
        var c := Opening(p, memory[..]);
        Opens(s, p, content, maximumWaitingData);
        var answer, outcome := QueueIncomingCommand(c);
        if !answer.NewCommand? { return true, content; }
        PlaceKeeps(s, c);
        node, spot := answer.node, Insert(outcome.at);
      }
      ghost var inserted := Nodes();
      FillGroup(node, p, spot.at);
      assert Nodes() <= inserted;
      error := false;
    }

    /** The end of the fragment handler: the fragment is copied in unless its bit is set. */
    method FillGroup(node: Node, p: Piece, ghost at: nat)
      requires Valid() && Settled(View()) && at < |reliables| && node == reliables[at]
      requires at < |View().reliables| && Belongs(View().reliables[at], p) && p.number < p.count
        && p.offset + |p.data| <= p.total
      modifies `reliables, `unreliables, `dispatched, `freed, `incomingReliable, `incomingUnreliable, `commands,
        `references, Nodes()
      ensures Valid() && Nodes() <= old(Nodes())
      ensures View() == FillAt(old(View()), at, p)
    {
      hide DispatchReliable, Counted, Rings, Begin, Of, Elements, Distinct, View, Ready;
      ReliableFacts();
      ghost var s := View();
      FillReady(s, at, p);
      var x := commands[node];
      if !x.got[p.number] {
        var length: int := |p.data|;
        if p.offset + length > |x.data| { length := |x.data| - p.offset; }
        assert p.data[..length] == p.data;
        x := x.(remaining := x.remaining - 1, got := x.got[p.number := true],
                data := x.data[..p.offset] + p.data[..length] + x.data[p.offset + length..]);
        SetCommand(node, x, at);
        if x.remaining <= 0 { DispatchReliableCommands(); }
      } else {
        assert s.reliables == s.reliables[at := x];
      }
    }
    lemma DispatchedFacts()
      requires Valid()
      ensures dispatchedCommands.Holds(dispatched) && Distinct(DispatchedRing())
      ensures received <= View().dispatched && |View().dispatched| == |received| + |dispatched|
      ensures forall i :: 0 <= i < |dispatched| ==>
        dispatched[i] in commands && View().dispatched[|received| + i] == commands[dispatched[i]]
    {
    }

    /** The first dispatched command leaves its list and lets its packet go. */
    method TakeFirst(incomingCommand: Node)
      requires Valid() && dispatched != [] && incomingCommand == dispatched[0]
      modifies `dispatched, `received, `references, Nodes()
      ensures Valid() && Nodes() <= old(Nodes()) && View() == old(View())
      ensures dispatched == old(dispatched)[1..] && received == old(received) + [commands[incomingCommand]]
      ensures incomingCommand in references && references[incomingCommand] == 0
    {
      hide Elements, Distinct, List.Holds, Released, Begin, Of;
      ghost var nodes, before := dispatched, references;
      ListedOnce(dispatchedCommands, nodes);
      FirstOf(commands, references, nodes);
      RemoveFirst(incomingCommand, dispatchedCommands, nodes, incomingReliableCommands, reliables,
                  incomingUnreliableCommands, unreliables);
      NoneReleased(references, nodes);
      OneReleased(references, references, dispatchedCommands.sentinel, nodes, 0);
      references := references[incomingCommand := references[incomingCommand] - 1];
      dispatched := nodes[1..];
      received := received + [commands[incomingCommand]];
      OfParts(commands, before, nodes, 1, |nodes|);
      StillHeld(commands, before, references, dispatchedCommands.sentinel, nodes, 1);
      OthersHeld(commands, before, references, dispatchedCommands.sentinel, nodes, 1, incomingReliableCommands.sentinel,
                 reliables);
      OthersHeld(commands, before, references, dispatchedCommands.sentinel, nodes, 1,
                 incomingUnreliableCommands.sentinel, unreliables);
    }

    method TakeWaiting(less: nat)
      requires Valid() && less <= totalWaitingData
      modifies `totalWaitingData
      ensures Valid() && View() == old(View()).(waiting := old(View().waiting) - less)
    {
      totalWaitingData := totalWaitingData - less;
    }

    /** enet_peer_receive: the first dispatched command leaves its list; its packet, which nobody
        holds any more, is the caller's. */
    method Receive() returns (taken: bool, packet: seq<Byte>)
      requires Valid() && Owed(View(), |received|)
      modifies `dispatched, `received, `references, `totalWaitingData, Nodes()
      ensures Valid() && Nodes() <= old(Nodes()) && Owed(View(), |received|)
      ensures taken == (old(dispatched) != [])
      ensures !taken ==> View() == old(View()) && received == old(received)
      ensures taken ==>
        |old(received)| < |View().dispatched| && received == old(received) + [View().dispatched[|old(received)|]]
      ensures taken ==> |received| == |old(received)| + 1 && received <= View().dispatched
      ensures taken ==> packet == received[|old(received)|].data
      ensures taken ==> old(dispatched)[0] in references && references[old(dispatched)[0]] == 0
      ensures View().waiting + |packet| == old(View().waiting) && View() == old(View()).(waiting := View().waiting)
    {
      hide Elements, Distinct, List.Holds, Begin, Rings, Of, View, Size;
      packet := [];
      DispatchedFacts();
      Walk(dispatchedCommands, dispatched, |dispatched|);
      SamePlace(dispatchedCommands, dispatched, 0, |dispatched|);
      if dispatchedCommands.sentinel.next == dispatchedCommands.sentinel {
        return false, packet;
      }
      taken := true;
      var incomingCommand: Node := dispatchedCommands.sentinel.next;
      assert incomingCommand == dispatched[0] && View().dispatched[|received|] == commands[incomingCommand];
      packet := commands[incomingCommand].data;
      ghost var rest := View().dispatched[|received|..];
      SizeFirst(rest);
      assert rest[1..] == View().dispatched[|received| + 1..];
      TakeFirst(incomingCommand);
      DispatchedFacts();
      ReliableFacts();
      UnreliableFacts();
      TakeWaiting(|packet|);
      DispatchedFacts();
    }

    /** enet_peer_reset_incoming_commands on the three lists: every packet still held is destroyed. */
    method ResetIncoming()
      requires Valid()
      modifies `reliables, `unreliables, `dispatched, `references, `freed, Nodes()
      ensures Valid() && Nodes() <= old(Nodes()) && reliables == [] && unreliables == [] && dispatched == []
      ensures View() == old(View()).(reliables := [], unreliables := [], dispatched := received,
        freed := old(View().freed) + old(View()).dispatched[|received|..] + old(View()).reliables
          + old(View()).unreliables)
    {
      hide Elements, Distinct, List.Holds, Released, Begin;
      ResetDispatched();
      ResetReliable();
      UnreliableFacts();
      RemoveUnreliable(incomingUnreliableCommands.sentinel, |unreliables|);
    }

    method ResetDispatched()
      requires Valid()
      modifies `dispatched, `references, `freed, Nodes()
      ensures Valid() && Nodes() <= old(Nodes()) && dispatched == []
      ensures View()
        == old(View()).(dispatched := received, freed := old(View().freed) + old(View()).dispatched[|received|..])
    {
      hide Elements, Distinct, List.Holds, Released, Begin;
      ghost var nodes, before := dispatched, references;
      ListedOnce(dispatchedCommands, nodes);
      Walk(dispatchedCommands, nodes, |nodes|);
      RemoveIncomingCommands(dispatchedCommands, dispatchedCommands.sentinel.next, dispatchedCommands.sentinel, nodes,
                             |nodes|,
                             incomingReliableCommands, reliables, incomingUnreliableCommands, unreliables);
      dispatched := nodes[|nodes|..];
      StillHeld(commands, before, references, dispatchedCommands.sentinel, nodes, |nodes|);
      OthersHeld(commands, before, references, dispatchedCommands.sentinel, nodes, |nodes|,
                 incomingReliableCommands.sentinel, reliables);
      OthersHeld(commands, before, references, dispatchedCommands.sentinel, nodes, |nodes|,
                 incomingUnreliableCommands.sentinel, unreliables);
    }

    method ResetReliable()
      requires Valid()
      modifies `reliables, `references, `freed, Nodes()
      ensures Valid() && Nodes() <= old(Nodes()) && reliables == []
      ensures View() == old(View()).(reliables := [], freed := old(View().freed) + old(View()).reliables)
    {
      hide Elements, Distinct, List.Holds, Released, Begin;
      ghost var nodes, before := reliables, references;
      ListedOnce(incomingReliableCommands, nodes);
      Walk(incomingReliableCommands, nodes, |nodes|);
      RemoveIncomingCommands(incomingReliableCommands, incomingReliableCommands.sentinel.next,
                             incomingReliableCommands.sentinel,
                             nodes, |nodes|, incomingUnreliableCommands, unreliables, dispatchedCommands, dispatched);
      reliables := nodes[|nodes|..];
      StillHeld(commands, before, references, incomingReliableCommands.sentinel, nodes, |nodes|);
      OthersHeld(commands, before, references, incomingReliableCommands.sentinel, nodes, |nodes|,
                 incomingUnreliableCommands.sentinel, unreliables);
      OthersHeld(commands, before, references, incomingReliableCommands.sentinel, nodes, |nodes|,
                 dispatchedCommands.sentinel, dispatched);
    }
  }

  lemma ReadyNone(q: seq<Incoming>, i: nat, current: Word)
    requires i <= |q|
    ensures i == |q| ==> Ready(q[i..], current) == 0
  {
  }

  lemma ReachedNone(q: seq<Incoming>, current: Word)
    ensures Reached(q[..0], current) == current && q[0..] == q
  {
  }

  lemma PlaceKeeps(s: State, c: Command)
    requires !Unwanted(s, c)
    ensures Place(s, c).current == s.current
  {
    hide Unwanted;
  }

  lemma SizeFirst(q: seq<Incoming>)
    requires q != []
    ensures Size(q) == |q[0].data| + Size(q[1..])
  {
  }
}
