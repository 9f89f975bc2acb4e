/** What the dispatch of unreliable ENet commands guarantees: no command is lost or doubled,
    those dispatched keep their order, and the queue is left with nothing more to deliver. */
module UnreliableDispatch {
  import opened PeerQueues
  import opened IncomingChannel

  /** Where in the queue the delivered commands stood. */
  function DeliveredFrom(q: seq<Incoming>, current: Word): (at: seq<nat>) {
    if q == [] then []
    else DeliveredFrom(q[..|q| - 1], current) + if Judge(q[|q| - 1], current) == Deliver then [|q| - 1] else []
  }

  /** The delivered commands are those judged deliverable, in queue order. */
  lemma {:induction false} DeliveredInOrder(q: seq<Incoming>, current: Word)
    ensures var at, d := DeliveredFrom(q, current), Delivered(q, current);
      && |at| == |d|
      && (forall i :: 0 <= i < |at| ==> at[i] < |q| && d[i] == q[at[i]])
      && (forall i, j :: 0 <= i < j < |at| ==> at[i] < at[j])
      && forall k :: 0 <= k < |q| ==> (k in at <==> Judge(q[k], current) == Deliver)
  {
    if q != [] {
      DeliveredInOrder(q[..|q| - 1], current);
      var at := DeliveredFrom(q[..|q| - 1], current);
      forall k | 0 <= k < |q|
        ensures k in DeliveredFrom(q, current) <==> Judge(q[k], current) == Deliver
      {
        if k < |q| - 1 {
          assert q[..|q| - 1][k] == q[k];
        } else if k in at {
          assert false;
        }
      }
    }
  }

  lemma {:induction false} Divided(q: seq<Incoming>, current: Word)
    ensures multiset(q) == multiset(Delivered(q, current)) + multiset(Withheld(q, current))
  {
    if q != [] {
      assert q == q[..|q| - 1] + [q[|q| - 1]];
      Divided(q[..|q| - 1], current);
    }
  }

  lemma {:induction false} StopIs(q: seq<Incoming>, current: Word)
    ensures forall k :: 0 <= k < Stop(q, current) ==> Judge(q[k], current) != Future
    ensures Stop(q, current) < |q| ==> Judge(q[Stop(q, current)], current) == Future
  {
    if q != [] && Judge(q[0], current) != Future { StopIs(q[1..], current); }
  }

  /** Every command of the queue is dispatched, freed or still queued, and only once. */
  lemma Partition(s: State)
    ensures var s' := DispatchUnreliable(s);
      && s.dispatched <= s'.dispatched && s.freed <= s'.freed
      && multiset(s.unreliables)
        == multiset(s'.dispatched[|s.dispatched|..]) + multiset(s'.freed[|s.freed|..]) + multiset(s'.unreliables)
  {
    hide Delivered, Withheld, Staying, Stop, NumberAfter, Judge;
    var q := s.unreliables;
    var n := Stop(q, s.current);
    var scanned := q[..n];
    var keep := n - Staying(scanned, s.current);
    ScanDivided(scanned, s.current);
    assert q == scanned + q[n..];
    var d, f, u := Delivered(scanned, s.current), Withheld(scanned[..keep], s.current), scanned[keep..];
    assert (s.dispatched + d)[|s.dispatched|..] == d;
    assert (s.freed + f)[|s.freed|..] == f;
  }

  lemma ScanDivided(q: seq<Incoming>, current: Word)
    ensures var keep := |q| - Staying(q, current);
      multiset(q) == multiset(Delivered(q, current)) + multiset(Withheld(q[..keep], current)) + multiset(q[keep..])
  {
    hide Delivered, Withheld, Staying, Judge;
    var keep := |q| - Staying(q, current);
    Divided(q, current);
    StayingArePartial(q, current);
    WithheldRun(q, current, keep, |q|);
    assert q[..|q|] == q && q[keep..|q|] == q[keep..];
  }

  /** What stays queued: at most two commands still missing fragments, then whatever waits for
      reliable commands; in particular nothing that could be delivered comes before those. */
  lemma QueueAfter(s: State)
    ensures var s' := DispatchUnreliable(s);
      var stay := |s'.unreliables| - (|s.unreliables| - Stop(s.unreliables, s.current));
      && 0 <= stay <= 2
      && (forall k :: 0 <= k < stay ==> Judge(s'.unreliables[k], s'.current) == Partial)
      && (stay < |s'.unreliables| ==> Judge(s'.unreliables[stay], s'.current) == Future)
      && Stop(s'.unreliables, s'.current) == stay
  {
    var q := s.unreliables;
    var n := Stop(q, s.current);
    StopIs(q, s.current);
    StayingArePartial(q[..n], s.current);
    var s' := DispatchUnreliable(s);
    var stay := Staying(q[..n], s.current);
    assert stay < |s'.unreliables| ==> s'.unreliables[stay] == q[n];
    StopFound(s'.unreliables, s.current, stay);
  }

  lemma {:induction false} NothingDelivered(q: seq<Incoming>, current: Word, number: Word)
    requires forall k :: 0 <= k < |q| ==> Judge(q[k], current) == Partial
    ensures Delivered(q, current) == [] && NumberAfter(q, current, number) == number
  {
    if q != [] { NothingDelivered(q[..|q| - 1], current, number); }
  }

  /** A second dispatch changes nothing. */
  lemma Twice(s: State)
    ensures DispatchUnreliable(DispatchUnreliable(s)) == DispatchUnreliable(s)
  {
    hide Judge, DispatchUnreliable;
    QueueAfter(s);
    var t := DispatchUnreliable(s);
    StopIs(t.unreliables, t.current);
    ThenNothing(t);
  }

  /** A scan that finds at most two incomplete commands and stops. */
  lemma ThenNothing(s: State)
    requires var stay := Stop(s.unreliables, s.current);
      stay <= 2 && forall k :: 0 <= k < stay ==> Judge(s.unreliables[k], s.current) == Partial
    ensures DispatchUnreliable(s) == s
  {
    hide Judge, Stop, Delivered, Withheld, NumberAfter;
    var q, stay := s.unreliables, Stop(s.unreliables, s.current);
    NothingDelivered(q[..stay], s.current, s.unreliable);
    NothingWithheld(s.current);
    assert q[..stay][0..] == q[..stay] && q[..stay][..0] == [] && q[..stay] + q[stay..] == q;
    assert s.dispatched + [] == s.dispatched && s.freed + [] == s.freed;
  }

  lemma NothingWithheld(current: Word)
    ensures Withheld([], current) == []
  {
  }

  /** A scan that stops at once. */
  lemma Idle(s: State)
    requires s.unreliables != [] && Judge(s.unreliables[0], s.current) == Future
    ensures DispatchUnreliable(s) == s && Stop(s.unreliables, s.current) == 0
  {
    var q := s.unreliables;
    assert q[..0] == [] && q[0..] == q && [] + q == q;
    assert s.dispatched + [] == s.dispatched && s.freed + [] == s.freed;
  }

  // ---- conservation over runs ----

  /** Everything a channel has taken in: dispatched, freed or waiting. */
  function Everything(s: State): multiset<Incoming> {
    multiset(s.dispatched) + multiset(s.freed) + multiset(s.reliables) + multiset(s.unreliables)
  }

  lemma DispatchUnreliableConserves(s: State)
    ensures Everything(DispatchUnreliable(s)) == Everything(s)
  {
    Partition(s);
    var s' := DispatchUnreliable(s);
    assert s'.dispatched == s.dispatched + s'.dispatched[|s.dispatched|..];
    assert s'.freed == s.freed + s'.freed[|s.freed|..];
  }

  lemma DispatchReliableConserves(s: State)
    ensures Everything(DispatchReliable(s)) == Everything(s)
  {
    hide DispatchUnreliable;
    var n := Ready(s.reliables, s.current);
    if n > 0 {
      assert s.reliables == s.reliables[..n] + s.reliables[n..];
      var s' := s.(current := Reached(s.reliables[..n], s.current), unreliable := 0,
                   reliables := s.reliables[n..], dispatched := s.dispatched + s.reliables[..n]);
      assert Everything(s') == Everything(s);
      DispatchUnreliableConserves(s');
    }
  }

  /** A command that is queued is added once; one that is refused or discarded leaves no trace. */
  lemma QueueConserves(s: State, c: Command, maximum: nat)
    ensures Everything(Queue(s, c, maximum))
      == Everything(s) + if QueueOutcome(s, c, maximum).Queued? then multiset{NewIncoming(c)} else multiset{}
  {
    hide DispatchReliable, DispatchUnreliable, Place, Unwanted, Refused, NewIncoming, Everything;
    if QueueOutcome(s, c, maximum).Queued? {
      PlaceConserves(s, c);
      DispatchReliableConserves(Place(s, c));
      DispatchUnreliableConserves(Place(s, c));
    }
  }

  lemma PlaceConserves(s: State, c: Command)
    requires !Unwanted(s, c)
    ensures Everything(Place(s, c)) == Everything(s) + multiset{NewIncoming(c)}
  {
    hide Unwanted, NewIncoming, Position, InsertAt;
    InsertConserves(if IsReliable(c.kind) then s.reliables else s.unreliables, Position(s, c), NewIncoming(c));
  }

  lemma InsertConserves(q: seq<Incoming>, i: nat, x: Incoming)
    requires i <= |q|
    ensures multiset(InsertAt(q, i, x)) == multiset(q) + multiset{x}
  {
    assert q == q[..i] + q[i..];
  }

  function QueueAll(s: State, cs: seq<Command>, maximum: nat): State {
    if cs == [] then s else Queue(QueueAll(s, cs[..|cs| - 1], maximum), cs[|cs| - 1], maximum)
  }

  function Accepted(s: State, cs: seq<Command>, maximum: nat): multiset<Incoming> {
    if cs == [] then multiset{} else
      var s' := QueueAll(s, cs[..|cs| - 1], maximum);
      Accepted(s, cs[..|cs| - 1], maximum)
        + if QueueOutcome(s', cs[|cs| - 1], maximum).Queued? then multiset{NewIncoming(cs[|cs| - 1])} else multiset{}
  }

  /** After any commands in any order, what was accepted is exactly what has been dispatched,
      freed or is waiting. */
  lemma {:induction false} RunConserves(cs: seq<Command>, maximum: nat)
    ensures Everything(QueueAll(Initial(), cs, maximum)) == Accepted(Initial(), cs, maximum)
  {
    hide Queue, QueueOutcome, NewIncoming;
    if cs != [] {
      RunConserves(cs[..|cs| - 1], maximum);
      QueueConserves(QueueAll(Initial(), cs[..|cs| - 1], maximum), cs[|cs| - 1], maximum);
    }
  }

  lemma {:induction false} WithheldNotReliable(q: seq<Incoming>, current: Word)
    requires forall k :: 0 <= k < |q| ==> !IsReliable(q[k].kind)
    ensures forall k :: 0 <= k < |Withheld(q, current)| ==> !IsReliable(Withheld(q, current)[k].kind)
  {
    if q != [] { WithheldNotReliable(q[..|q| - 1], current); }
  }

  /** No reliable command is ever freed undelivered. */
  lemma ReliableNeverFreed(s: State)
    requires forall k :: 0 <= k < |s.unreliables| ==> !IsReliable(s.unreliables[k].kind)
    requires forall k :: 0 <= k < |s.freed| ==> !IsReliable(s.freed[k].kind)
    ensures forall k :: 0 <= k < |DispatchUnreliable(s).freed| ==> !IsReliable(DispatchUnreliable(s).freed[k].kind)
  {
    var n := Stop(s.unreliables, s.current);
    var scanned := s.unreliables[..n];
    WithheldNotReliable(scanned[..n - Staying(scanned, s.current)], s.current);
  }

  // ---- what holds between calls ----

  /** Between calls at most two incomplete commands lead the unreliable queue, the next one waits
      for reliable commands, and no unsequenced command is in it. */
  ghost predicate Quiet(s: State) {
    && Stop(s.unreliables, s.current) <= 2
    && (forall k :: 0 <= k < Stop(s.unreliables, s.current) ==> Judge(s.unreliables[k], s.current) == Partial)
    && forall k :: 0 <= k < |s.unreliables| ==> s.unreliables[k].kind != Unsequenced
  }

  /** What stays queued is a tail of the queue. */
  lemma KeptTail(s: State)
    ensures var n := Stop(s.unreliables, s.current);
      DispatchUnreliable(s).unreliables == s.unreliables[n - Staying(s.unreliables[..n], s.current)..]
  {
    hide Stop, Staying, Judge, Delivered, Withheld, NumberAfter;
    var q, n := s.unreliables, Stop(s.unreliables, s.current);
    var i := n - Staying(q[..n], s.current);
    assert q[..n][i..] + q[n..] == q[i..];
  }

  lemma PartialKind(x: Incoming, current: Word)
    requires Judge(x, current) == Partial
    ensures x.kind != Unsequenced
  {
  }

  lemma DispatchQuiet(s: State)
    requires forall k :: Stop(s.unreliables, s.current) <= k < |s.unreliables| ==> s.unreliables[k].kind != Unsequenced
    ensures Quiet(DispatchUnreliable(s))
  {
    hide Judge, Stop, Staying, DispatchUnreliable;
    QueueAfter(s);
    KeptTail(s);
    var n := Stop(s.unreliables, s.current);
    var stay := Staying(s.unreliables[..n], s.current);
    var s' := DispatchUnreliable(s);
    forall k | 0 <= k < |s'.unreliables|
      ensures s'.unreliables[k].kind != Unsequenced
    {
      if k < stay { PartialKind(s'.unreliables[k], s'.current); }
    }
  }

  lemma DispatchReliableQuiet(s: State)
    requires Quiet(s)
    ensures Quiet(DispatchReliable(s))
  {
    hide DispatchUnreliable, Reached, Judge;
    var n := Ready(s.reliables, s.current);
    if n > 0 && s.unreliables != [] {
      DispatchQuiet(s.(current := Reached(s.reliables[..n], s.current), unreliable := 0,
                       reliables := s.reliables[n..], dispatched := s.dispatched + s.reliables[..n]));
    }
  }

  /** A command of any kind and any content leaves the unreliable queue quiet. */
  lemma QueueQuiet(s: State, c: Command, maximum: nat)
    requires Quiet(s)
    ensures Quiet(Queue(s, c, maximum))
  {
    hide DispatchReliable, DispatchUnreliable, Unwanted, Refused;
    if !Unwanted(s, c) && !Refused(s, c, maximum) {
      if IsReliable(c.kind) {
        DispatchReliableQuiet(Place(s, c));
      } else {
        PlaceQuiet(s, c);
        DispatchQuiet(Place(s, c));
      }
    }
  }

  lemma PlaceQuiet(s: State, c: Command)
    requires Quiet(s) && !Unwanted(s, c) && !IsReliable(c.kind)
    ensures var s' := Place(s, c);
      forall k :: Stop(s'.unreliables, s'.current) <= k < |s'.unreliables| ==> s'.unreliables[k].kind != Unsequenced
  {
    hide Unwanted;
  }

  lemma AssembleQuiet(s: State, p: Piece, content: seq<Byte>, maximum: nat, maximumPacketSize: nat)
    requires Settled(s) && Quiet(s) && |content| == p.total
    ensures Quiet(Assemble(s, p, content, maximum, maximumPacketSize))
  {
    hide DispatchReliable, Unwanted, Refused;
    if InWindow(p.start, s.current) && !Malformed(p, maximumPacketSize) {
      var spot := PieceSpot(s, p);
      var c := Opening(p, content);
      if spot.Same? {
        if Belongs(s.reliables[spot.at], p) { FillQuiet(s, spot.at, p); }
      } else if QueueOutcome(s, c, maximum).Queued? {
        PlacedPiece(s, p, content);
        FillQuiet(Place(s, c), spot.at, p);
      }
    }
  }

  lemma FillQuiet(s: State, i: nat, p: Piece)
    requires Settled(s) && Quiet(s) && i < |s.reliables| && Belongs(s.reliables[i], p)
    requires p.number < p.count && p.offset + |p.data| <= p.total
    ensures Quiet(FillAt(s, i, p))
  {
    hide DispatchReliable, Filled;
    FillPossible(s.reliables[i], p.number);
    DispatchReliableQuiet(s.(reliables := s.reliables[i := Filled(s.reliables[i], p)]));
  }

  /** After any arrivals in any order the unreliable queue is quiet. */
  lemma {:induction false} ReceivedQuiet(arrivals: seq<Arrival>, maximum: nat, maximumPacketSize: nat)
    requires forall k :: 0 <= k < |arrivals| && arrivals[k].Part? ==> |arrivals[k].content| == arrivals[k].piece.total
    ensures Quiet(Received(arrivals, maximum, maximumPacketSize))
    decreases |arrivals|
  {
    hide Quiet, Settled, Queue, Assemble;
    if arrivals == [] {
      NothingQuiet();
    } else {
      var before := arrivals[..|arrivals| - 1];
      ReceivedQuiet(before, maximum, maximumPacketSize);
      var s := Received(before, maximum, maximumPacketSize);
      match arrivals[|arrivals| - 1]
      case Whole(c) => QueueQuiet(s, c, maximum);
      case Part(p, content) => AssembleQuiet(s, p, content, maximum, maximumPacketSize);
    }
  }

  lemma NothingQuiet()
    ensures Quiet(Initial())
  {
  }

  // ---- unsequenced commands ----

  /** An unsequenced command that is accepted goes to the front of the queue, so the call that
      queues it dispatches it, before anything else, whatever waits in the queue. */
  lemma UnsequencedFirst(s: State, c: Command, maximum: nat)
    requires c.kind == Unsequenced && QueueOutcome(s, c, maximum).Queued?
    ensures var s' := Queue(s, c, maximum);
      s.dispatched <= s'.dispatched && |s.dispatched| < |s'.dispatched|
        && s'.dispatched[|s.dispatched|] == NewIncoming(c)
  {
    hide Withheld, Staying, NumberAfter;
    var q := Place(s, c).unreliables;
    assert q[0] == NewIncoming(c);
    DeliveredHead(q[..Stop(q, s.current)], s.current);
  }

  lemma {:induction false} DeliveredHead(q: seq<Incoming>, current: Word)
    requires q != [] && Judge(q[0], current) == Deliver
    ensures Delivered(q, current) != [] && Delivered(q, current)[0] == q[0]
  {
    if |q| > 1 { DeliveredHead(q[..|q| - 1], current); }
  }

  /** Between calls that is all it does: it frees nothing, complete or not, and leaves both queues
      and both numbers alone. */
  lemma UnsequencedAtOnce(s: State, c: Command, maximum: nat)
    requires Quiet(s) && c.kind == Unsequenced && QueueOutcome(s, c, maximum).Queued?
    ensures Queue(s, c, maximum) == s.(waiting := s.waiting + |c.data|, dispatched := s.dispatched + [NewIncoming(c)])
  {
    hide Withheld, Delivered, Staying, NumberAfter, Stop, InWindow;
    var x, q, n := NewIncoming(c), s.unreliables, Stop(s.unreliables, s.current);
    var q' := Place(s, c).unreliables;
    assert q' == [x] + q;
    FrontStop(x, q, s.current);
    assert q'[..n + 1] == [x] + q[..n];
    FrontScanned(x, q[..n], s.current, s.unreliable);
    assert q'[..n + 1][1..] == q[..n] && q'[n + 1..] == q[n..];
    assert q[..n] + q[n..] == q;
    assert q'[..n + 1][..1] == [x];
    FrontDelivered(x, s.current);
  }

  lemma FrontStop(x: Incoming, q: seq<Incoming>, current: Word)
    requires x.kind == Unsequenced
    ensures Stop([x] + q, current) == 1 + Stop(q, current)
  {
    assert ([x] + q)[1..] == q;
  }

  lemma FrontDelivered(x: Incoming, current: Word)
    requires x.kind == Unsequenced
    ensures Withheld([x], current) == []
  {
    assert [x][..0] == [];
  }

  /** Scanning an unsequenced command and then at most two incomplete ones. */
  lemma {:induction false} FrontScanned(x: Incoming, q: seq<Incoming>, current: Word, number: Word)
    requires x.kind == Unsequenced && |q| <= 2 && forall k :: 0 <= k < |q| ==> Judge(q[k], current) == Partial
    ensures Delivered([x] + q, current) == [x] && NumberAfter([x] + q, current, number) == number
    ensures Staying([x] + q, current) == |q|
    decreases |q|
  {
    if q == [] {
      assert [x] + q == [x] && [x][..0] == [];
    } else {
      assert ([x] + q)[..|q|] == [x] + q[..|q| - 1];
      FrontScanned(x, q[..|q| - 1], current, number);
    }
  }

  /** Where the scan would stop if it passed over queued unsequenced commands. */
  function SequencedSpot(q: seq<Incoming>, current: Word, number: Word, unreliable: Word, k: nat): Spot
    requires k <= |q|
  {
    if k == 0 then Insert(0)
    else if q[k - 1].kind == Unsequenced then SequencedSpot(q, current, number, unreliable, k - 1)
    else
      var x := q[k - 1].reliable;
      if number >= current && x < current then SequencedSpot(q, current, number, unreliable, k - 1)
      else if number < current && x >= current then Insert(k)
      else if x < number then Insert(k)
      else if x > number then SequencedSpot(q, current, number, unreliable, k - 1)
      else if q[k - 1].unreliable < unreliable then Insert(k)
      else if q[k - 1].unreliable == unreliable then Same(k - 1)
      else SequencedSpot(q, current, number, unreliable, k - 1)
  }

  /** The test of the arriving command instead of the queued one does no harm: after any arrivals
      the scan stops where it would if it passed over unsequenced commands. */
  lemma ScanUnharmed(arrivals: seq<Arrival>, maximum: nat, maximumPacketSize: nat, number: Word, unreliable: Word)
    requires forall k :: 0 <= k < |arrivals| && arrivals[k].Part? ==> |arrivals[k].content| == arrivals[k].piece.total
    ensures var s := Received(arrivals, maximum, maximumPacketSize);
      UnreliableSpot(s.unreliables, s.current, number, unreliable, |s.unreliables|)
      == SequencedSpot(s.unreliables, s.current, number, unreliable, |s.unreliables|)
  {
    hide Received, UnreliableSpot, SequencedSpot;
    ReceivedQuiet(arrivals, maximum, maximumPacketSize);
    var s := Received(arrivals, maximum, maximumPacketSize);
    SpotSequenced(s.unreliables, s.current, number, unreliable, |s.unreliables|);
  }

  lemma {:induction false} SpotSequenced(q: seq<Incoming>, current: Word, number: Word, unreliable: Word, k: nat)
    requires k <= |q| && forall j :: 0 <= j < |q| ==> q[j].kind != Unsequenced
    ensures UnreliableSpot(q, current, number, unreliable, k) == SequencedSpot(q, current, number, unreliable, k)
  {
    if k > 0 { SpotSequenced(q, current, number, unreliable, k - 1); }
  }
}
