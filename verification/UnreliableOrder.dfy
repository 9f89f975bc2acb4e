/** What a channel of Externals/enet/peer.c promises unreliable commands over whole runs: those
    that wait do so in the order of their numbers, and those dispatched come in that order. */
module UnreliableOrder {
  import opened PeerQueues
  import opened IncomingChannel
  import opened UnreliableDispatch

  // ---- numbers ahead of the current one ----

  /** How far number is ahead of current. */
  function Distance(number: Word, current: Word): (d: nat)
    ensures d < WORDS
  {
    if number >= current then number - current else number + WORDS - current
  }

  predicate Sequenced(x: Incoming) {
    x.kind == Unreliable || x.kind == UnreliableFragment
  }

  predicate Earlier(reliable: Word, unreliable: Word, reliable': Word, unreliable': Word, current: Word) {
    || Distance(reliable, current) < Distance(reliable', current)
    || (reliable == reliable' && unreliable < unreliable')
  }

  /** The queue is in the order of the numbers, each once, and none is further ahead than a number
      may arrive. */
  ghost predicate InLine(q: seq<Incoming>, current: Word) {
    && (forall k :: 0 <= k < |q| ==> Sequenced(q[k]) && InWindow(q[k].reliable, current))
    && forall i, j :: 0 <= i < j < |q| ==>
         Earlier(q[i].reliable, q[i].unreliable, q[j].reliable, q[j].unreliable, current)
  }

  /** Between calls: the queue is in line, and only its first two commands can be of the current
      number, both missing fragments. */
  ghost predicate Ordered(s: State) {
    && InLine(s.unreliables, s.current)
    && forall k :: 0 <= k < |s.unreliables| && s.unreliables[k].reliable == s.current ==>
         k < 2 && s.unreliables[k].remaining > 0
  }

  /** Behind the incomplete commands everything waits for reliable commands. */
  ghost predicate Waits(s: State) {
    forall k :: Stop(s.unreliables, s.current) <= k < |s.unreliables| ==> Judge(s.unreliables[k], s.current) == Future
  }

  lemma OrderedWaits(s: State)
    requires Ordered(s)
    ensures Waits(s) && Quiet(s)
  {
    hide InWindow;
    var q, c := s.unreliables, s.current;
    StopIs(q, c);
    forall k | 0 <= k < |q|
      ensures Judge(q[k], c) == if q[k].reliable == c then Partial else Future
      ensures q[k].reliable != c ==> forall j :: k < j < |q| ==> q[j].reliable != c
    {
      forall j | k < j < |q| && q[k].reliable != c
        ensures q[j].reliable != c
      {
        assert Earlier(q[k].reliable, q[k].unreliable, q[j].reliable, q[j].unreliable, c);
      }
    }
    assert |q| > 2 ==> Judge(q[2], c) == Future;
  }

  // ---- arrivals ----

  /** On a queue in line the scan from the back stops where the number belongs, and finds
      duplicates exactly. */
  lemma {:induction false} SpotInLine(q: seq<Incoming>, current: Word, number: Word, unreliable: Word, k: nat)
    requires InLine(q, current) && k <= |q|
    ensures var spot := UnreliableSpot(q, current, number, unreliable, k);
      if spot.Same? then q[spot.at].reliable == number && q[spot.at].unreliable == unreliable
      else
        && (forall j :: 0 <= j < spot.at ==> Earlier(q[j].reliable, q[j].unreliable, number, unreliable, current))
        && forall j :: spot.at <= j < k ==> Earlier(number, unreliable, q[j].reliable, q[j].unreliable, current)
  {
    hide InWindow;
    if k > 0 {
      SpotInLine(q, current, number, unreliable, k - 1);
      var x := q[k - 1];
      forall j | 0 <= j < k - 1
        ensures Earlier(q[j].reliable, q[j].unreliable, x.reliable, x.unreliable, current)
      {
      }
    }
  }

  lemma InsertInLine(q: seq<Incoming>, current: Word, at: nat, x: Incoming)
    requires InLine(q, current) && at <= |q| && Sequenced(x) && InWindow(x.reliable, current)
    requires forall j :: 0 <= j < at ==> Earlier(q[j].reliable, q[j].unreliable, x.reliable, x.unreliable, current)
    requires forall j :: at <= j < |q| ==> Earlier(x.reliable, x.unreliable, q[j].reliable, q[j].unreliable, current)
    ensures InLine(InsertAt(q, at, x), current)
  {
    hide InWindow, Earlier, Sequenced;
    var q' := InsertAt(q, at, x);
    assert forall k :: 0 <= k < |q'| ==> q'[k] == if k < at then q[k] else if k == at then x else q[k - 1];
  }

  lemma PlaceInLine(s: State, c: Command)
    requires InLine(s.unreliables, s.current) && !Unwanted(s, c)
      && (c.kind == Unreliable || c.kind == UnreliableFragment)
    ensures Place(s, c).unreliables == InsertAt(s.unreliables, Position(s, c), NewIncoming(c))
    ensures InLine(Place(s, c).unreliables, s.current)
  {
    hide InLine, InWindow;
    SpotInLine(s.unreliables, s.current, c.reliable, c.unreliable, |s.unreliables|);
    InsertInLine(s.unreliables, s.current, Position(s, c), NewIncoming(c));
  }

  // ---- dispatch ----

  lemma SuffixInLine(q: seq<Incoming>, current: Word, i: nat)
    requires InLine(q, current) && i <= |q|
    ensures InLine(q[i..], current)
  {
    hide InWindow, Earlier, Sequenced;
  }

  /** Behind a command that is not of the current number none is. */
  lemma RestAhead(q: seq<Incoming>, current: Word, n: nat)
    requires InLine(q, current) && (n < |q| ==> q[n].reliable != current)
    ensures forall k :: n <= k < |q| ==> q[k].reliable != current
  {
    hide InWindow, Sequenced;
    forall k | n < k < |q|
      ensures q[k].reliable != current
    {
      assert Earlier(q[n].reliable, q[n].unreliable, q[k].reliable, q[k].unreliable, current);
    }
  }

  /** A dispatch of a queue in line. */
  lemma DispatchOrdered(s: State)
    requires InLine(s.unreliables, s.current)
    ensures Ordered(DispatchUnreliable(s))
  {
    hide InWindow, DispatchUnreliable, InLine, Stop, Staying;
    var q, n := s.unreliables, Stop(s.unreliables, s.current);
    var stay := Staying(q[..n], s.current);
    KeptTail(s);
    SuffixInLine(q, s.current, n - stay);
    StopIs(q, s.current);
    StayingArePartial(q[..n], s.current);
    CurrentKept(s);
    RestAhead(q, s.current, n);
    forall k | n - stay <= k < n
      ensures q[k].remaining > 0
    {
      assert q[..n][k] == q[k];
    }
  }

  lemma CurrentKept(s: State)
    ensures DispatchUnreliable(s).current == s.current
  {
    hide Stop, Staying, Judge, Delivered, Withheld, NumberAfter;
  }

  /** The current number goes from one to the other so far that the old one looks ahead of it. */
  predicate Overtakes(current: Word, reached: Word) {
    0 < WindowsAhead(current, reached) < FREE_RELIABLE_WINDOWS - 1
  }

  /** A number ahead of the current one, when that moves on to reached. */
  lemma Passing(number: Word, current: Word, reached: Word)
    requires InWindow(number, current) && !Overtakes(current, reached)
    ensures Distance(number, current) >= Distance(reached, current) ==>
      InWindow(number, reached) && Distance(number, reached) == Distance(number, current) - Distance(reached, current)
    ensures Distance(number, current) < Distance(reached, current) && !Around(current, reached) ==>
      number != reached && !InWindow(number, reached)
    ensures Around(current, reached) ==>
      && InWindow(number, reached) && number != reached
      && Distance(number, reached) == Distance(number, current) + WORDS - Distance(reached, current)
  {
  }

  /** That is, it crosses ten to fifteen windows: up to nine the old numbers are seen to be out of
      date, and after sixteen every queued one is ahead again. */
  lemma OvertakesWindows(current: Word, reached: Word)
    ensures Overtakes(current, reached) <==>
      var crossed := (current + Distance(reached, current)) / RELIABLE_WINDOW_SIZE - current / RELIABLE_WINDOW_SIZE;
      RELIABLE_WINDOWS - FREE_RELIABLE_WINDOWS + 2 <= crossed < RELIABLE_WINDOWS
  {
  }

  /** The current number has gone nearly once around. */
  predicate Around(current: Word, reached: Word) {
    reached < current && reached / RELIABLE_WINDOW_SIZE == current / RELIABLE_WINDOW_SIZE
  }

  /** How many commands of a queue in line lie less than d ahead. */
  function Passed(q: seq<Incoming>, current: Word, d: nat): (n: nat)
    ensures n <= |q|
  {
    if q == [] || Distance(q[0].reliable, current) >= d then 0 else 1 + Passed(q[1..], current, d)
  }

  lemma {:induction false} PassedIs(q: seq<Incoming>, current: Word, d: nat)
    requires InLine(q, current)
    ensures forall k :: 0 <= k < Passed(q, current, d) ==> Distance(q[k].reliable, current) < d
    ensures forall k :: Passed(q, current, d) <= k < |q| ==> Distance(q[k].reliable, current) >= d
  {
    hide InWindow;
    if q != [] {
      SuffixInLine(q, current, 1);
      PassedIs(q[1..], current, d);
      assert forall k :: 0 < k < |q| ==> q[k] == q[1..][k - 1];
      assert forall k :: 0 < k < |q| ==>
        Earlier(q[0].reliable, q[0].unreliable, q[k].reliable, q[k].unreliable, current);
    }
  }

  /** Commands that all move up by as much stay in line. */
  lemma Moved(q: seq<Incoming>, current: Word, reached: Word, up: nat, down: nat)
    requires InLine(q, current)
    requires forall k :: 0 <= k < |q| ==>
      InWindow(q[k].reliable, reached)
        && Distance(q[k].reliable, reached) == Distance(q[k].reliable, current) + up - down
    ensures InLine(q, reached)
  {
    hide InWindow, Distance, Sequenced;
    forall i, j | 0 <= i < j < |q|
      ensures Earlier(q[i].reliable, q[i].unreliable, q[j].reliable, q[j].unreliable, reached)
    {
      assert Earlier(q[i].reliable, q[i].unreliable, q[j].reliable, q[j].unreliable, current);
    }
  }

  /** A dispatch of a queue that was in line before the current number moved on. */
  lemma AdvanceOrdered(s: State, before: Word)
    requires InLine(s.unreliables, before) && !Overtakes(before, s.current)
    ensures Ordered(DispatchUnreliable(s))
  {
    hide InLine, InWindow, DispatchUnreliable, Overtakes, Around, Distance, Passed;
    var q, c := s.unreliables, s.current;
    AllPassing(q, before, c);
    if Around(before, c) {
      Moved(q, before, c, WORDS, Distance(c, before));
      DispatchOrdered(s);
    } else {
      var p := Passed(q, before, Distance(c, before));
      PassedIs(q, before, Distance(c, before));
      SuffixInLine(q, before, p);
      Moved(q[p..], before, c, 0, Distance(c, before));
      var t := s.(unreliables := q[p..]);
      DispatchOrdered(t);
      StaleFirst(s, p);
    }
  }

  lemma AllPassing(q: seq<Incoming>, current: Word, reached: Word)
    requires InLine(q, current) && !Overtakes(current, reached)
    ensures forall k :: 0 <= k < |q| ==>
      && Sequenced(q[k])
      && (Distance(q[k].reliable, current) >= Distance(reached, current) ==>
            && InWindow(q[k].reliable, reached)
            && Distance(q[k].reliable, reached) == Distance(q[k].reliable, current) - Distance(reached, current))
      && (Distance(q[k].reliable, current) < Distance(reached, current) && !Around(current, reached) ==>
            Judge(q[k], reached) == Stale)
      && (Around(current, reached) ==>
            && InWindow(q[k].reliable, reached)
            && Distance(q[k].reliable, reached)
              == Distance(q[k].reliable, current) + WORDS - Distance(reached, current))
  {
    hide InWindow, Distance, Overtakes, Around;
    forall k | 0 <= k < |q| { Passing(q[k].reliable, current, reached); }
  }

  /** Commands out of date at the front leave no trace in what stays queued. */
  lemma StaleFirst(s: State, p: nat)
    requires p <= |s.unreliables| && forall k :: 0 <= k < p ==> Judge(s.unreliables[k], s.current) == Stale
    ensures DispatchUnreliable(s).unreliables == DispatchUnreliable(s.(unreliables := s.unreliables[p..])).unreliables
    ensures DispatchUnreliable(s).current == DispatchUnreliable(s.(unreliables := s.unreliables[p..])).current
      == s.current
  {
    hide Judge, DispatchUnreliable, Staying, Stop;
    var q, c := s.unreliables, s.current;
    var t := s.(unreliables := q[p..]);
    StaleStop(q, c, p);
    KeptTail(s);
    KeptTail(t);
    CurrentKept(s);
    CurrentKept(t);
    var n := Stop(q[p..], c);
    assert q[..p + n][p..] == q[p..][..n];
    StaleStays(q[..p + n], c, p);
    var i := n - Staying(q[p..][..n], c);
    assert q[p..][i..] == q[p + i..];
  }

  lemma StaleStop(q: seq<Incoming>, current: Word, p: nat)
    requires p <= |q| && forall k :: 0 <= k < p ==> Judge(q[k], current) == Stale
    ensures Stop(q, current) == p + Stop(q[p..], current)
  {
    hide Judge, Stop;
    var n := Stop(q[p..], current);
    StopIs(q[p..], current);
    assert forall k :: p <= k < |q| ==> q[p..][k - p] == q[k];
    StopFound(q, current, p + n);
  }

  lemma StaleStays(q: seq<Incoming>, current: Word, p: nat)
    requires p <= |q| && forall k :: 0 <= k < p ==> Judge(q[k], current) == Stale
    ensures Staying(q, current) == Staying(q[p..], current)
  {
    hide Judge;
  }

  // ---- calls and runs ----

  lemma ReliableOrdered(s: State)
    requires Ordered(s) && !Overtakes(s.current, DispatchReliable(s).current)
    ensures Ordered(DispatchReliable(s))
  {
    hide Reached, Ready, InLine, DispatchUnreliable, Overtakes;
    var n := Ready(s.reliables, s.current);
    if n > 0 {
      var t := s.(current := Reached(s.reliables[..n], s.current), unreliable := 0,
                  reliables := s.reliables[n..], dispatched := s.dispatched + s.reliables[..n]);
      CurrentKept(t);
      if s.unreliables == [] {
        assert InLine([], t.current) by { EmptyInLine(t.current); }
      } else {
        AdvanceOrdered(t, s.current);
      }
    }
  }

  lemma EmptyInLine(current: Word)
    ensures InLine([], current)
  {
  }

  /** A command of any kind and any content keeps the order, unless the current number overtakes. */
  lemma QueueOrdered(s: State, c: Command, maximum: nat)
    requires Ordered(s) && !Overtakes(s.current, Queue(s, c, maximum).current)
    ensures Ordered(Queue(s, c, maximum))
  {
    hide InLine, Overtakes, DispatchReliable, DispatchUnreliable, Unwanted, Refused, Position, InsertAt, Quiet;
    if !Unwanted(s, c) && !Refused(s, c, maximum) {
      if IsReliable(c.kind) {
        assert Ordered(Place(s, c));
        ReliableOrdered(Place(s, c));
      } else if c.kind == Unsequenced {
        OrderedWaits(s);
        UnsequencedAtOnce(s, c, maximum);
      } else {
        PlaceInLine(s, c);
        DispatchOrdered(Place(s, c));
      }
    }
  }

  lemma FillOrdered(s: State, i: nat, p: Piece)
    requires Settled(s) && Ordered(s) && i < |s.reliables| && Belongs(s.reliables[i], p)
    requires p.number < p.count && p.offset + |p.data| <= p.total
    requires !Overtakes(s.current, FillAt(s, i, p).current)
    ensures Ordered(FillAt(s, i, p))
  {
    hide DispatchReliable, Filled, InLine, Overtakes;
    FillPossible(s.reliables[i], p.number);
    var t := s.(reliables := s.reliables[i := Filled(s.reliables[i], p)]);
    if !s.reliables[i].got[p.number] && s.reliables[i].remaining == 1 { ReliableOrdered(t); }
  }

  lemma AssembleOrdered(s: State, p: Piece, content: seq<Byte>, maximum: nat, maximumPacketSize: nat)
    requires Settled(s) && Ordered(s) && |content| == p.total
    requires !Overtakes(s.current, Assemble(s, p, content, maximum, maximumPacketSize).current)
    ensures Ordered(Assemble(s, p, content, maximum, maximumPacketSize))
  {
    hide FillAt, Unwanted, Refused, InLine, Overtakes, Position, InsertAt;
    if InWindow(p.start, s.current) && !Malformed(p, maximumPacketSize) {
      var spot := PieceSpot(s, p);
      var c := Opening(p, content);
      if spot.Same? {
        if Belongs(s.reliables[spot.at], p) { FillOrdered(s, spot.at, p); }
      } else if QueueOutcome(s, c, maximum).Queued? {
        PlacedPiece(s, p, content);
        FillOrdered(Place(s, c), spot.at, p);
      }
    }
  }

  ghost predicate Proper(arrivals: seq<Arrival>) {
    forall k :: 0 <= k < |arrivals| && arrivals[k].Part? ==> |arrivals[k].content| == arrivals[k].piece.total
  }

  /** No arrival lets the current number overtake. */
  ghost predicate Steady(arrivals: seq<Arrival>, maximum: nat, maximumPacketSize: nat)
    requires Proper(arrivals)
    decreases |arrivals|
  {
    arrivals != [] ==>
      var before := arrivals[..|arrivals| - 1];
      && Steady(before, maximum, maximumPacketSize)
      && !Overtakes(Received(before, maximum, maximumPacketSize).current,
                    Received(arrivals, maximum, maximumPacketSize).current)
  }

  /** After every steady run the queue is in line, and all behind the incomplete commands waits. */
  lemma {:induction false} ReceivedOrdered(arrivals: seq<Arrival>, maximum: nat, maximumPacketSize: nat)
    requires Proper(arrivals) && Steady(arrivals, maximum, maximumPacketSize)
    ensures Ordered(Received(arrivals, maximum, maximumPacketSize))
      && Waits(Received(arrivals, maximum, maximumPacketSize))
    decreases |arrivals|
  {
    hide Ordered, Waits, Settled, Queue, Assemble, Overtakes, Quiet;
    if arrivals == [] {
      NothingOrdered();
    } else {
      var before := arrivals[..|arrivals| - 1];
      ReceivedOrdered(before, maximum, maximumPacketSize);
      var s := Received(before, maximum, maximumPacketSize);
      match arrivals[|arrivals| - 1]
      case Whole(c) => QueueOrdered(s, c, maximum);
      case Part(p, content) => AssembleOrdered(s, p, content, maximum, maximumPacketSize);
    }
    OrderedWaits(Received(arrivals, maximum, maximumPacketSize));
  }

  lemma NothingOrdered()
    ensures Ordered(Initial())
  {
  }

  // ---- the condition is exact ----

  /** The dispatch of reliable commands takes the current number to reached. */
  ghost predicate Reaches(s: State, reached: Word) {
    Ready(s.reliables, s.current) > 0 && Reached(s.reliables[..Ready(s.reliables, s.current)], s.current) == reached
  }

  /** A complete group that takes the current number to reached. */
  function Leap(current: Word, reached: Word): Incoming {
    var count := Distance(reached, current);
    Incoming(Fragment, Next(current), 0, count, 0, seq(count, i => true), [])
  }

  /** An incomplete command of the current number, and one as far ahead as may be. */
  function Stretched(current: Word, reached: Word): State {
    var far: Word := (current + (FREE_RELIABLE_WINDOWS - 2) * RELIABLE_WINDOW_SIZE) % WORDS;
    State(current, 0, [Leap(current, reached)],
          [Incoming(UnreliableFragment, current, 1, 1, 1, [false], []), Incoming(Unreliable, far, 1, 0, 0, [], [])],
          [], [], 0, false)
  }

  lemma LeapReaches(s: State, current: Word, reached: Word)
    requires s.current == current != reached && s.reliables == [Leap(current, reached)]
    ensures Reaches(s, reached) && Ready(s.reliables, current) == 1
  {
    var x := Leap(current, reached);
    assert LastNumber(x) == reached;
    assert [x][1..] == [] && [x][..1] == [x];
    assert Ready([x], current) == 1 && Reached([x], current) == reached;
  }

  /** When the current number overtakes, a queue in line is left with a command out of date behind
      one that seems to wait. */
  lemma StretchedBreaks(current: Word, reached: Word)
    requires Overtakes(current, reached)
    ensures var s := Stretched(current, reached);
      && s.current == current && Ordered(s) && Reaches(s, reached)
      && !Waits(DispatchReliable(s)) && DispatchReliable(s).unreliables == s.unreliables
      && Judge(DispatchReliable(s).unreliables[1], reached) == Stale
  {
    hide DispatchUnreliable;
    var s := Stretched(current, reached);
    var q := s.unreliables;
    LeapReaches(s, current, reached);
    assert Judge(q[0], reached) == Future;
    assert Judge(q[1], reached) == Stale;
    var d := LeapTaken(s, current, reached);
    Idle(d);
  }

  /** After the leap, before the scan. */
  lemma LeapTaken(s: State, current: Word, reached: Word) returns (t: State)
    requires s.current == current != reached && s.reliables == [Leap(current, reached)]
    ensures t == s.(current := reached, unreliable := 0, reliables := [], dispatched := s.dispatched + s.reliables)
    ensures s.unreliables != [] ==> DispatchReliable(s) == DispatchUnreliable(t)
  {
    hide DispatchUnreliable;
    LeapReaches(s, current, reached);
    var q := s.reliables;
    assert q[..1] == q && q[1..] == [];
    t := s.(current := reached, unreliable := 0, reliables := [], dispatched := s.dispatched + q);
  }

  /** For each two numbers: every dispatch that takes the current number from the one to the other
      leaves only waiting commands behind the incomplete ones if and only if the first number does
      not look ahead of the second. */
  lemma WaitsExactly(current: Word, reached: Word)
    ensures !Overtakes(current, reached)
      <==> forall s: State :: s.current == current && Ordered(s) && Reaches(s, reached) ==> Waits(DispatchReliable(s))
  {
    hide Overtakes, Ordered, Waits, Stretched, DispatchReliable, Reaches;
    if Overtakes(current, reached) {
      StretchedBreaks(current, reached);
    } else {
      forall s: State | s.current == current && Ordered(s) && Reaches(s, reached)
        ensures Waits(DispatchReliable(s))
      {
        ReachesIs(s, reached);
        ReliableOrdered(s);
        OrderedWaits(DispatchReliable(s));
      }
    }
  }

  lemma ReachesIs(s: State, reached: Word)
    requires Reaches(s, reached)
    ensures DispatchReliable(s).current == reached
  {
    hide DispatchUnreliable, Reached, Ready;
    var n := Ready(s.reliables, s.current);
    CurrentKept(s.(current := Reached(s.reliables[..n], s.current), unreliable := 0,
                   reliables := s.reliables[n..], dispatched := s.dispatched + s.reliables[..n]));
  }

  // ---- the order of what is dispatched ----

  /** The number of the last reliable command dispatched. */
  function Latest(d: seq<Incoming>): Word {
    if d == [] then 0
    else if IsReliable(d[|d| - 1].kind) then LastNumber(d[|d| - 1])
    else Latest(d[..|d| - 1])
  }

  /** The numbered unreliable commands dispatched since then. */
  function Turn(d: seq<Incoming>): seq<Incoming> {
    if d == [] || IsReliable(d[|d| - 1].kind) then []
    else Turn(d[..|d| - 1]) + if Sequenced(d[|d| - 1]) then [d[|d| - 1]] else []
  }

  /** Each numbered unreliable command comes right in the turn it was sent in: after the reliable
      command it follows and before the next one. */
  ghost predicate InTurn(d: seq<Incoming>) {
    forall k :: 0 <= k < |d| && Sequenced(d[k]) ==> d[k].reliable == Latest(d[..k])
  }

  /** In each turn their numbers rise, so that none comes twice. */
  ghost predicate Rising(d: seq<Incoming>) {
    forall k :: 0 <= k < |d| && Sequenced(d[k]) ==>
      forall y :: y in Turn(d[..k]) ==> y.unreliable < d[k].unreliable
  }

  lemma MoreReliable(d: seq<Incoming>, more: seq<Incoming>)
    requires more != [] && forall k :: 0 <= k < |more| ==> IsReliable(more[k].kind)
    ensures Latest(d + more) == LastNumber(more[|more| - 1]) && Turn(d + more) == []
    ensures InTurn(d) ==> InTurn(d + more)
    ensures Rising(d) ==> Rising(d + more)
  {
    var e := d + more;
    assert e[|e| - 1] == more[|more| - 1];
    NoneSequenced(d, more);
  }

  lemma NoneSequenced(d: seq<Incoming>, more: seq<Incoming>)
    requires forall k :: 0 <= k < |more| ==> !Sequenced(more[k])
    ensures InTurn(d) ==> InTurn(d + more)
    ensures Rising(d) ==> Rising(d + more)
  {
    hide Sequenced, Latest, Turn;
    var e := d + more;
    assert forall k :: 0 <= k < |d| ==> e[k] == d[k] && e[..k] == d[..k];
    assert forall k :: |d| <= k < |e| ==> e[k] == more[k - |d|];
  }

  lemma OneMore(d: seq<Incoming>, x: Incoming)
    requires !IsReliable(x.kind)
    ensures Latest(d + [x]) == Latest(d) && Turn(d + [x]) == Turn(d) + if Sequenced(x) then [x] else []
    ensures InTurn(d) && (Sequenced(x) ==> x.reliable == Latest(d)) ==> InTurn(d + [x])
    ensures Rising(d) && (Sequenced(x) ==> forall y :: y in Turn(d) ==> y.unreliable < x.unreliable) ==> Rising(d + [x])
  {
    var e := d + [x];
    assert e[..|e| - 1] == d;
    assert forall k :: 0 <= k < |d| ==> e[k] == d[k] && e[..k] == d[..k];
  }

  // ---- turns, in every run ----

  /** The queues hold their kinds, and the current number is that of the last reliable command. */
  ghost predicate OnTime(s: State) {
    && InTurn(s.dispatched) && s.current == Latest(s.dispatched)
    && (forall k :: 0 <= k < |s.reliables| ==> IsReliable(s.reliables[k].kind))
    && forall k :: 0 <= k < |s.unreliables| ==> !IsReliable(s.unreliables[k].kind)
  }

  lemma {:induction false} DeliveredOnTime(d: seq<Incoming>, q: seq<Incoming>, current: Word)
    requires InTurn(d) && Latest(d) == current && forall k :: 0 <= k < |q| ==> !IsReliable(q[k].kind)
    ensures InTurn(d + Delivered(q, current)) && Latest(d + Delivered(q, current)) == current
    decreases |q|
  {
    hide InTurn, Latest, Turn, Rising, InWindow;
    if q == [] {
      assert d + [] == d;
    } else {
      var x := q[|q| - 1];
      var before := q[..|q| - 1];
      DeliveredOnTime(d, before, current);
      var e := Delivered(before, current);
      if Judge(x, current) == Deliver {
        assert d + (e + [x]) == (d + e) + [x];
        OneMore(d + e, x);
      } else {
        assert e + [] == e;
      }
    }
  }

  lemma DispatchOnTime(s: State)
    requires OnTime(s)
    ensures OnTime(DispatchUnreliable(s))
  {
    hide InTurn, Latest, Delivered, Withheld, Staying, Stop, NumberAfter;
    DeliveredOnTime(s.dispatched, s.unreliables[..Stop(s.unreliables, s.current)], s.current);
    KeptTail(s);
  }

  lemma ReliableOnTime(s: State)
    requires OnTime(s)
    ensures OnTime(DispatchReliable(s))
  {
    hide InTurn, Latest, DispatchUnreliable, Ready;
    var n := Ready(s.reliables, s.current);
    if n > 0 {
      MoreReliable(s.dispatched, s.reliables[..n]);
      ReachedStep(s.reliables, s.current, n - 1);
      DispatchOnTime(s.(current := Reached(s.reliables[..n], s.current), unreliable := 0,
                        reliables := s.reliables[n..], dispatched := s.dispatched + s.reliables[..n]));
    }
  }

  /** A command of any kind and any content. */
  lemma QueueOnTime(s: State, c: Command, maximum: nat)
    requires OnTime(s)
    ensures OnTime(Queue(s, c, maximum))
  {
    hide InTurn, Latest, DispatchReliable, DispatchUnreliable, Unwanted, Refused, Position;
    if !Unwanted(s, c) && !Refused(s, c, maximum) {
      PlaceOnTime(s, c);
      DispatchOnTime(Place(s, c));
      ReliableOnTime(Place(s, c));
    }
  }

  lemma PlaceOnTime(s: State, c: Command)
    requires OnTime(s) && !Unwanted(s, c)
    ensures OnTime(Place(s, c))
  {
    hide InTurn, Latest, Unwanted, Position;
    Inserting(if IsReliable(c.kind) then s.reliables else s.unreliables, Position(s, c), NewIncoming(c));
  }

  lemma Inserting(q: seq<Incoming>, i: nat, x: Incoming)
    requires i <= |q|
    ensures forall k :: 0 <= k < |InsertAt(q, i, x)| ==>
      InsertAt(q, i, x)[k] == if k < i then q[k] else if k == i then x else q[k - 1]
  {
    var e := InsertAt(q, i, x);
    assert forall k :: 0 <= k < |e| ==> e[k] == if k < i then q[k] else if k == i then x else q[k - 1];
  }

  lemma AssembleOnTime(s: State, p: Piece, content: seq<Byte>, maximum: nat, maximumPacketSize: nat)
    requires Settled(s) && OnTime(s) && |content| == p.total
    ensures OnTime(Assemble(s, p, content, maximum, maximumPacketSize))
  {
    hide FillAt, Unwanted, Refused, OnTime;
    if InWindow(p.start, s.current) && !Malformed(p, maximumPacketSize) {
      var spot := PieceSpot(s, p);
      var c := Opening(p, content);
      if spot.Same? {
        if Belongs(s.reliables[spot.at], p) { FillOnTime(s, spot.at, p); }
      } else if QueueOutcome(s, c, maximum).Queued? {
        PlacedPiece(s, p, content);
        PlaceOnTime(s, c);
        FillOnTime(Place(s, c), spot.at, p);
      }
    }
  }

  lemma FillOnTime(s: State, i: nat, p: Piece)
    requires Settled(s) && OnTime(s) && i < |s.reliables| && Belongs(s.reliables[i], p)
    requires p.number < p.count && p.offset + |p.data| <= p.total
    ensures OnTime(FillAt(s, i, p))
  {
    hide DispatchReliable, InTurn, Latest;
    FillPossible(s.reliables[i], p.number);
    ReliableOnTime(s.(reliables := s.reliables[i := Filled(s.reliables[i], p)]));
  }

  /** After any arrivals in any order every numbered unreliable command was dispatched in its turn. */
  lemma {:induction false} ReceivedOnTime(arrivals: seq<Arrival>, maximum: nat, maximumPacketSize: nat)
    requires Proper(arrivals)
    ensures OnTime(Received(arrivals, maximum, maximumPacketSize))
    decreases |arrivals|
  {
    hide OnTime, Settled, Queue, Assemble;
    if arrivals == [] {
      NothingOnTime();
    } else {
      var before := arrivals[..|arrivals| - 1];
      ReceivedOnTime(before, maximum, maximumPacketSize);
      var s := Received(before, maximum, maximumPacketSize);
      match arrivals[|arrivals| - 1]
      case Whole(c) => QueueOnTime(s, c, maximum);
      case Part(p, content) => AssembleOnTime(s, p, content, maximum, maximumPacketSize);
    }
  }

  lemma NothingOnTime()
    ensures OnTime(Initial())
  {
  }

  // ---- rising numbers, in steady runs ----

  /** Commands of one reliable number stand in the order of their numbers. */
  ghost predicate Graded(q: seq<Incoming>) {
    && (forall k :: 0 <= k < |q| ==> Sequenced(q[k]))
    && forall i, j :: 0 <= i < j < |q| && q[i].reliable == q[j].reliable ==> q[i].unreliable < q[j].unreliable
  }

  /** The commands of the current number in q come after all those of this turn; number is the
      last one dispatched in it, and 0 when there is none. */
  ghost predicate Later(d: seq<Incoming>, q: seq<Incoming>, current: Word, number: Word) {
    && (forall y :: y in Turn(d) ==> y.unreliable <= number)
    && number == (if Turn(d) == [] then 0 else Turn(d)[|Turn(d)| - 1].unreliable)
    && (Turn(d) != [] ==> forall k :: 0 <= k < |q| && q[k].reliable == current ==> q[k].unreliable > number)
  }

  /** The first command of q is left behind. */
  lemma LaterRest(d: seq<Incoming>, q: seq<Incoming>, current: Word, number: Word)
    requires Later(d, q, current, number) && q != []
    ensures Later(d, q[1..], current, number)
  {
    hide Turn;
  }

  /** The first command of q is dispatched. */
  lemma LaterNext(d: seq<Incoming>, q: seq<Incoming>, current: Word, number: Word)
    requires Rising(d) && Graded(q) && Later(d, q, current, number) && q != [] && q[0].reliable == current
    ensures Rising(d + [q[0]]) && Later(d + [q[0]], q[1..], current, q[0].unreliable)
  {
    hide Rising, Turn, Graded, Sequenced;
    AtHead(q, 0);
    NotReliable(q[0]);
    LaterHead(d, q, current, number);
    OneMore(d, q[0]);
    assert forall k :: 0 <= k < |q[1..]| ==> q[1..][k] == q[k + 1];
  }

  lemma LaterHead(d: seq<Incoming>, q: seq<Incoming>, current: Word, number: Word)
    requires Later(d, q, current, number) && q != [] && q[0].reliable == current
    ensures forall y :: y in Turn(d) ==> y.unreliable < q[0].unreliable
  {
    hide Turn;
  }

  lemma NotReliable(x: Incoming)
    requires Sequenced(x)
    ensures !IsReliable(x.kind)
  {
  }

  lemma DeliverCurrent(x: Incoming, current: Word)
    requires Judge(x, current) == Deliver && Sequenced(x)
    ensures x.reliable == current
  {
  }

  /** The first i commands of q have been scanned. */
  lemma {:induction false} DeliveredRising(d: seq<Incoming>, q: seq<Incoming>, current: Word, number: Word, i: nat)
    requires Rising(d) && Graded(q) && Later(d, q, current, number) && i <= |q|
    ensures var d', n' := d + Delivered(q[..i], current), NumberAfter(q[..i], current, number);
      Rising(d') && Later(d', q[i..], current, n')
  {
    hide Rising, Turn, Graded, Later, InWindow, Delivered, NumberAfter, Judge;
    if i == 0 {
      EmptyScan(q, current, number);
      assert d + [] == d && q[0..] == q;
    } else {
      var x := q[i - 1];
      DeliveredRising(d, q, current, number, i - 1);
      var e, n := d + Delivered(q[..i - 1], current), NumberAfter(q[..i - 1], current, number);
      RunStep(q, current, i);
      NumberStep(q, current, number, i);
      AtHead(q, i - 1);
      GradedRest(q, i - 1);
      assert q[i - 1..][0] == x && q[i - 1..][1..] == q[i..];
      if Judge(x, current) == Deliver {
        DeliverCurrent(x, current);
        assert d + Delivered(q[..i], current) == e + [x];
        LaterNext(e, q[i - 1..], current, n);
      } else {
        assert d + Delivered(q[..i], current) == e;
        LaterRest(e, q[i - 1..], current, n);
      }
    }
  }

  lemma GradedRest(q: seq<Incoming>, i: nat)
    requires Graded(q) && i <= |q|
    ensures Graded(q[i..])
  {
  }

  lemma NumberStep(q: seq<Incoming>, current: Word, number: Word, i: nat)
    requires 0 < i <= |q|
    ensures NumberAfter(q[..i], current, number)
      == if Judge(q[i - 1], current) == Deliver && q[i - 1].kind != Unsequenced then q[i - 1].unreliable
         else NumberAfter(q[..i - 1], current, number)
  {
    hide Judge;
    assert q[..i][..i - 1] == q[..i - 1];
  }

  lemma AtHead(q: seq<Incoming>, i: nat)
    requires Graded(q) && i < |q|
    ensures Sequenced(q[i])
    ensures forall k :: i < k < |q| && q[k].reliable == q[i].reliable ==> q[k].unreliable > q[i].unreliable
  {
  }

  lemma {:induction false} NumberRun(q: seq<Incoming>, current: Word, number: Word, i: nat, j: nat)
    requires i <= j <= |q| && forall k :: i <= k < j ==> Judge(q[k], current) != Deliver
    ensures NumberAfter(q[..j], current, number) == NumberAfter(q[..i], current, number)
    decreases j
  {
    hide Judge, NumberAfter;
    if i < j {
      NumberStep(q, current, number, j);
      NumberRun(q, current, number, i, j - 1);
    }
  }

  ghost predicate Ascending(s: State) {
    Rising(s.dispatched) && Later(s.dispatched, s.unreliables, s.current, s.unreliable)
  }

  lemma DispatchAscending(s: State)
    requires Ascending(s) && Graded(s.unreliables)
    ensures Ascending(DispatchUnreliable(s))
  {
    hide Rising, Later, Graded, Judge, Stop, Staying, Delivered, NumberAfter, Withheld;
    var q, c, n := s.unreliables, s.current, Stop(s.unreliables, s.current);
    var keep := n - Staying(q[..n], c);
    StayingArePartial(q[..n], c);
    assert forall k :: keep <= k < n ==> q[..n][k] == q[k];
    DeliveredRising(s.dispatched, q, c, s.unreliable, keep);
    WithheldRun(q, c, keep, n);
    NumberRun(q, c, s.unreliable, keep, n);
    KeptTail(s);
  }

  lemma InLineGraded(q: seq<Incoming>, current: Word)
    requires InLine(q, current)
    ensures Graded(q)
  {
    hide InWindow, Sequenced;
    forall i, j | 0 <= i < j < |q| && q[i].reliable == q[j].reliable
      ensures q[i].unreliable < q[j].unreliable
    {
      assert Earlier(q[i].reliable, q[i].unreliable, q[j].reliable, q[j].unreliable, current);
    }
  }

  lemma ReliableAscending(s: State)
    requires Ascending(s) && Graded(s.unreliables) && forall k :: 0 <= k < |s.reliables| ==>
      IsReliable(s.reliables[k].kind)
    ensures Ascending(DispatchReliable(s))
  {
    hide Rising, Graded, Ready, DispatchUnreliable, Turn;
    var n := Ready(s.reliables, s.current);
    if n > 0 {
      MoreReliable(s.dispatched, s.reliables[..n]);
      DispatchAscending(s.(current := Reached(s.reliables[..n], s.current), unreliable := 0,
                           reliables := s.reliables[n..], dispatched := s.dispatched + s.reliables[..n]));
    }
  }

  lemma PlaceAscending(s: State, c: Command)
    requires Ascending(s) && !Unwanted(s, c)
    requires c.kind == Unreliable || c.kind == UnreliableFragment
    ensures Ascending(Place(s, c))
  {
    hide Rising, Turn, InWindow, UnreliableSpot;
    Inserting(s.unreliables, Position(s, c), NewIncoming(c));
  }

  lemma PlacedReliable(s: State, c: Command)
    requires Ascending(s) && Ordered(s) && OnTime(s) && !Unwanted(s, c) && IsReliable(c.kind)
    ensures Ascending(Place(s, c)) && Ordered(Place(s, c)) && OnTime(Place(s, c))
  {
    hide Rising, Later, Unwanted, InLine, InsertAt, InTurn, Latest;
    PlaceOnTime(s, c);
  }

  /** A command of any kind and any content, on a queue in line. */
  lemma QueueAscending(s: State, c: Command, maximum: nat)
    requires Ascending(s) && Ordered(s) && OnTime(s)
    ensures Ascending(Queue(s, c, maximum))
  {
    hide Rising, Turn, InLine, DispatchReliable, DispatchUnreliable, Unwanted, Refused, Position, Place, Quiet, Graded,
      InTurn, Latest;
    if !Unwanted(s, c) && !Refused(s, c, maximum) {
      if IsReliable(c.kind) {
        PlacedReliable(s, c);
        InLineGraded(Place(s, c).unreliables, Place(s, c).current);
        ReliableAscending(Place(s, c));
      } else if c.kind == Unsequenced {
        OrderedWaits(s);
        UnsequencedAtOnce(s, c, maximum);
        OneMore(s.dispatched, NewIncoming(c));
        assert Turn(s.dispatched) + [] == Turn(s.dispatched);
      } else {
        PlaceInLine(s, c);
        PlaceAscending(s, c);
        InLineGraded(Place(s, c).unreliables, s.current);
        DispatchAscending(Place(s, c));
      }
    }
  }

  lemma FillAscending(s: State, i: nat, p: Piece)
    requires Settled(s) && Ascending(s) && Ordered(s) && OnTime(s) && i < |s.reliables| && Belongs(s.reliables[i], p)
    requires p.number < p.count && p.offset + |p.data| <= p.total
    ensures Ascending(FillAt(s, i, p))
  {
    hide DispatchReliable, InLine, Rising, Later, Graded, InTurn, Latest;
    FillPossible(s.reliables[i], p.number);
    InLineGraded(s.unreliables, s.current);
    ReliableAscending(s.(reliables := s.reliables[i := Filled(s.reliables[i], p)]));
  }

  lemma AssembleAscending(s: State, p: Piece, content: seq<Byte>, maximum: nat, maximumPacketSize: nat)
    requires Settled(s) && Ascending(s) && Ordered(s) && OnTime(s) && |content| == p.total
    ensures Ascending(Assemble(s, p, content, maximum, maximumPacketSize))
  {
    hide FillAt, Unwanted, Refused, Ordered, OnTime, Ascending;
    if InWindow(p.start, s.current) && !Malformed(p, maximumPacketSize) {
      var spot := PieceSpot(s, p);
      var c := Opening(p, content);
      if spot.Same? {
        if Belongs(s.reliables[spot.at], p) { FillAscending(s, spot.at, p); }
      } else if QueueOutcome(s, c, maximum).Queued? {
        PlacedPiece(s, p, content);
        PlacedReliable(s, c);
        FillAscending(Place(s, c), spot.at, p);
      }
    }
  }

  /** After every steady run the numbered unreliable commands have been dispatched in turn, with
      rising numbers, none twice. */
  lemma {:induction false} ReceivedRising(arrivals: seq<Arrival>, maximum: nat, maximumPacketSize: nat)
    requires Proper(arrivals) && Steady(arrivals, maximum, maximumPacketSize)
    ensures Ascending(Received(arrivals, maximum, maximumPacketSize))
    ensures InTurn(Received(arrivals, maximum, maximumPacketSize).dispatched)
    ensures Rising(Received(arrivals, maximum, maximumPacketSize).dispatched)
    decreases |arrivals|
  {
    hide InTurn, Rising, Later, Ordered, Settled, Queue, Assemble, Waits;
    ReceivedOnTime(arrivals, maximum, maximumPacketSize);
    if arrivals == [] {
      NothingAscending();
    } else {
      var before := arrivals[..|arrivals| - 1];
      ReceivedRising(before, maximum, maximumPacketSize);
      ReceivedOrdered(before, maximum, maximumPacketSize);
      ReceivedOnTime(before, maximum, maximumPacketSize);
      var s := Received(before, maximum, maximumPacketSize);
      match arrivals[|arrivals| - 1]
      case Whole(c) => QueueAscending(s, c, maximum);
      case Part(p, content) => AssembleAscending(s, p, content, maximum, maximumPacketSize);
    }
  }

  lemma NothingAscending()
    ensures Ascending(Initial())
  {
  }
}
