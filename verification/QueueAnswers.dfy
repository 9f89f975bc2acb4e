/** Which commands enet_peer_queue_incoming_command (Externals/enet/peer.c) accepts, in plain numbers,
    what it answers for the others, and what an accepted one does at once. */
module QueueAnswers {
  import opened PeerQueues
  import opened IncomingChannel
  import opened UnreliableDispatch
  import opened UnreliableOrder
  import ReliableChannel

  /** The number, counted on from the current one where it has wrapped, lies at most six windows of
      4096 numbers ahead of the current one. */
  predicate SixWindows(number: Word, current: Word) {
    (if number >= current then number else number + 65536) / 4096 - current / 4096 <= 6
  }

  lemma SixWindowsIs(number: Word, current: Word)
    ensures InWindow(number, current) <==> SixWindows(number, current)
  {
  }

  /** There is room: the bytes waiting are below the limit, and there are at most a million fragments. */
  predicate Room(s: State, c: Command, maximum: nat) {
    s.waiting < maximum && c.count <= 1048576
  }

  /** The answer to a command that is wanted or not: a new command, if there is room; for one not
      wanted the dummy command if it is whole, and otherwise nothing, which its handler reports. */
  ghost predicate Answered(s: State, c: Command, maximum: nat, wanted: bool) {
    var o := QueueOutcome(s, c, maximum);
    && (o.Queued? <==> wanted && Room(s, c, maximum))
    && (o.Dummy? <==> !wanted && c.count == 0)
    && (o.Null? <==> if wanted then !Room(s, c, maximum) else c.count > 0)
  }

  // ---- unreliable commands ----

  /** A numbered unreliable command is wanted if and only if the peer is not disconnecting, the number
      is near ahead, it comes after the last one dispatched in this turn, and no copy is queued. */
  lemma UnreliableAnswer(s: State, c: Command, maximum: nat)
    requires Ordered(s) && (c.kind == Unreliable || c.kind == UnreliableFragment)
    ensures Answered(s, c, maximum,
      && !s.discarding && SixWindows(c.reliable, s.current)
      && (c.reliable == s.current ==> c.unreliable > s.unreliable)
      && forall k :: 0 <= k < |s.unreliables| ==>
           s.unreliables[k].reliable != c.reliable || s.unreliables[k].unreliable != c.unreliable)
  {
    hide InLine, InWindow, SixWindows;
    SixWindowsIs(c.reliable, s.current);
    SpotInLine(s.unreliables, s.current, c.reliable, c.unreliable, |s.unreliables|);
  }

  /** An unsequenced one is wanted unless the peer is disconnecting. */
  lemma UnsequencedAnswer(s: State, c: Command, maximum: nat)
    requires c.kind == Unsequenced
    ensures Answered(s, c, maximum, !s.discarding)
  {
  }

  lemma {:induction false} DeliveredOne(q: seq<Incoming>, current: Word, i: nat, number: Word)
    requires i < |q| && Judge(q[i], current) == Deliver && q[i].kind != Unsequenced
    requires forall k :: 0 <= k < |q| && k != i ==> Judge(q[k], current) == Partial
    ensures Delivered(q, current) == [q[i]] && NumberAfter(q, current, number) == q[i].unreliable
  {
    hide Judge;
    var n := |q| - 1;
    if i < n {
      DeliveredOne(q[..n], current, i, number);
      assert [q[i]] + [] == [q[i]];
    } else {
      NothingDelivered(q[..n], current, number);
      assert [] + [q[i]] == [q[i]];
    }
  }

  /** An accepted whole command of the current number is dispatched by that call, alone, and its number
      is then the last one; an accepted command of another number, or a fragment, dispatches nothing. */
  lemma UnreliableAtOnce(s: State, c: Command, maximum: nat)
    requires Ordered(s) && (c.kind == Unreliable || c.kind == UnreliableFragment)
    requires QueueOutcome(s, c, maximum).Queued?
    ensures var s', now := Queue(s, c, maximum), c.reliable == s.current && c.count == 0;
      && s'.dispatched == s.dispatched + (if now then [NewIncoming(c)] else [])
      && s'.unreliable == (if now then c.unreliable else s.unreliable)
      && s'.current == s.current && s'.reliables == s.reliables && s'.waiting == s.waiting + |c.data|
  {
    hide InLine, InWindow, Stop, Delivered, Withheld, Staying, NumberAfter, Unwanted, Refused;
    var s', i := Place(s, c), Position(s, c);
    PlaceInLine(s, c);
    var q, n := s'.unreliables, Stop(s'.unreliables, s.current);
    StopIs(q, s.current);
    Inserting(s.unreliables, i, NewIncoming(c));
    PlacedJudged(s, c);
    if c.reliable == s.current && c.count == 0 {
      CurrentFirst(q, s.current, i);
      assert i < n;
      DeliveredOne(q[..n], s.current, i, s.unreliable);
    } else {
      NothingDelivered(q[..n], s.current, s.unreliable);
      assert s.dispatched + [] == s.dispatched;
    }
  }

  /** What the scan makes of the queue with the new command. */
  lemma PlacedJudged(s: State, c: Command)
    requires Ordered(s) && !Unwanted(s, c) && (c.kind == Unreliable || c.kind == UnreliableFragment)
    ensures var q, i := Place(s, c).unreliables, Position(s, c);
      && |q| == |s.unreliables| + 1 && i < |q| && q[i] == NewIncoming(c)
      && (forall k :: 0 <= k < |q| && k != i ==>
            Judge(q[k], s.current) == Partial || Judge(q[k], s.current) == Future)
      && Judge(q[i], s.current)
         == (if c.reliable != s.current then Future else if c.count == 0 then Deliver else Partial)
  {
    hide Unwanted, InWindow;
    PlaceInLine(s, c);
    Inserting(s.unreliables, Position(s, c), NewIncoming(c));
    OnlyPartial(s);
    NearAhead(s, c);
  }

  lemma NearAhead(s: State, c: Command)
    requires !Unwanted(s, c) && (c.kind == Unreliable || c.kind == UnreliableFragment)
    ensures InWindow(c.reliable, s.current)
  {
  }

  lemma OnlyPartial(s: State)
    requires Ordered(s)
    ensures forall k :: 0 <= k < |s.unreliables| ==>
      Judge(s.unreliables[k], s.current) == (if s.unreliables[k].reliable == s.current then Partial else Future)
  {
    hide InWindow;
  }

  /** In a queue in line the commands of the current number come first. */
  lemma CurrentFirst(q: seq<Incoming>, current: Word, i: nat)
    requires InLine(q, current) && i < |q| && q[i].reliable == current
    ensures forall k :: 0 <= k <= i ==> q[k].reliable == current
  {
    hide InWindow, Sequenced;
    forall k | 0 <= k < i
      ensures q[k].reliable == current
    {
      assert Earlier(q[k].reliable, q[k].unreliable, q[i].reliable, q[i].unreliable, current);
    }
  }

  /** What an accepted one leaves queued. It goes in before the first queued command it is earlier than.
      One ahead of the current number stays there, whatever else is queued; one that is dispatched gives
      up the incomplete ones before it; and a fragment that opens a third incomplete command of the
      current number gives up the first of the three. */
  lemma UnreliableKept(s: State, c: Command, maximum: nat) returns (i: nat)
    requires Ordered(s) && (c.kind == Unreliable || c.kind == UnreliableFragment)
    requires QueueOutcome(s, c, maximum).Queued?
    ensures i <= |s.unreliables|
    ensures forall k :: 0 <= k < i ==>
      Earlier(s.unreliables[k].reliable, s.unreliables[k].unreliable, c.reliable, c.unreliable, s.current)
    ensures forall k :: i <= k < |s.unreliables| ==>
      Earlier(c.reliable, c.unreliable, s.unreliables[k].reliable, s.unreliables[k].unreliable, s.current)
    ensures var s', q := Queue(s, c, maximum), s.unreliables[..i] + [NewIncoming(c)] + s.unreliables[i..];
      if c.reliable == s.current && c.count == 0 then
        s'.unreliables == s.unreliables[i..] && s'.freed == s.freed + s.unreliables[..i]
      else if c.reliable == s.current && |s.unreliables| >= 2 && s.unreliables[1].reliable == s.current then
        s'.unreliables == q[1..] && s'.freed == s.freed + [q[0]]
      else s'.unreliables == q && s'.freed == s.freed
  {
    hide InLine, InWindow, Stop, Unwanted, Refused, Earlier, DispatchUnreliable, Sequenced, Judge;
    i := Position(s, c);
    var t := Place(s, c);
    var q, n := t.unreliables, Stop(t.unreliables, s.current);
    PlaceInLine(s, c);
    Placing(s, c);
    PlacedJudged(s, c);
    PlacedOrder(s, c);
    StopIs(q, s.current);
    if c.reliable == s.current && c.count == 0 {
      Given(t, i);
      assert q[..i] == s.unreliables[..i] && q[i + 1..] == s.unreliables[i..];
    } else if n <= 2 {
      ThenNothing(t);
    } else {
      GivenFirst(t);
    }
  }

  lemma Placing(s: State, c: Command)
    requires Ordered(s) && !Unwanted(s, c) && (c.kind == Unreliable || c.kind == UnreliableFragment)
    ensures Position(s, c) <= |s.unreliables| && Place(s, c).freed == s.freed && Place(s, c).current == s.current
    ensures var i := Position(s, c);
      && (forall k :: 0 <= k < i ==>
            Earlier(s.unreliables[k].reliable, s.unreliables[k].unreliable, c.reliable, c.unreliable, s.current))
      && forall k :: i <= k < |s.unreliables| ==>
           Earlier(c.reliable, c.unreliable, s.unreliables[k].reliable, s.unreliables[k].unreliable, s.current)
  {
    hide InLine, InWindow, Earlier;
    SpotInLine(s.unreliables, s.current, c.reliable, c.unreliable, |s.unreliables|);
  }

  /** The scan takes the commands of the current number, which come first. */
  lemma PlacedOrder(s: State, c: Command)
    requires Ordered(s) && !Unwanted(s, c) && (c.kind == Unreliable || c.kind == UnreliableFragment)
    ensures var q, n, i := Place(s, c).unreliables, Stop(Place(s, c).unreliables, s.current), Position(s, c);
      && i < |q| && n <= 3
      && (c.reliable != s.current ==> n <= 2)
      && (c.reliable == s.current ==>
            i < n && (n == 3 <==> |s.unreliables| >= 2 && s.unreliables[1].reliable == s.current))
  {
    hide InLine, InWindow, Stop, Unwanted, Earlier, Judge, Position, Place, Sequenced;
    var q, n, i := Place(s, c).unreliables, Stop(Place(s, c).unreliables, s.current), Position(s, c);
    PlaceInLine(s, c);
    Inserting(s.unreliables, i, NewIncoming(c));
    PlacedJudged(s, c);
    OnlyPartial(s);
    StopIs(q, s.current);
    if |q| > 3 {
      var k := if i == 3 then 2 else 3;
      assert q[k] == s.unreliables[if k < i then k else k - 1];
      assert Judge(q[k], s.current) == Future;
    }
    if c.reliable == s.current {
      CurrentFirst(q, s.current, i);
      SecondCurrent(s, c);
    } else {
      if |q| > 2 && q[2].reliable == s.current { CurrentFirst(q, s.current, 2); }
      assert |q| > 2 && i > 2 ==> q[2] == s.unreliables[2];
      assert |q| > 2 && i < 2 ==> q[2] == s.unreliables[1];
    }
  }

  lemma SecondCurrent(s: State, c: Command)
    requires Ordered(s) && !Unwanted(s, c) && (c.kind == Unreliable || c.kind == UnreliableFragment)
    requires c.reliable == s.current
    ensures var q := Place(s, c).unreliables;
      |q| > 2 && Judge(q[2], s.current) != Future <==> |s.unreliables| >= 2 && s.unreliables[1].reliable == s.current
    ensures var q := Place(s, c).unreliables;
      |q| > 2 && Judge(q[2], s.current) != Future ==>
        Judge(q[0], s.current) != Future && Judge(q[1], s.current) != Future
  {
    hide InLine, InWindow, Unwanted, Earlier, Judge, Position, Place, Sequenced;
    var q, i := Place(s, c).unreliables, Position(s, c);
    PlaceInLine(s, c);
    Inserting(s.unreliables, i, NewIncoming(c));
    PlacedJudged(s, c);
    OnlyPartial(s);
    if |s.unreliables| >= 2 {
      CurrentFirst(q, s.current, i);
      var k := if i <= 1 then 2 else 1;
      assert q[k] == s.unreliables[1];
      if s.unreliables[1].reliable == s.current { CurrentFirst(q, s.current, k); }
    }
  }

  lemma ScanIs(t: State, kept: nat)
    requires var n := Stop(t.unreliables, t.current); kept + Staying(t.unreliables[..n], t.current) == n
    ensures DispatchUnreliable(t).unreliables == t.unreliables[kept..]
    ensures DispatchUnreliable(t).freed == t.freed + Withheld(t.unreliables[..kept], t.current)
  {
    hide Judge, Stop, Delivered, NumberAfter, Staying, Withheld;
    var q, n := t.unreliables, Stop(t.unreliables, t.current);
    assert q[..n][kept..] + q[n..] == q[kept..] && q[..n][..kept] == q[..kept];
  }

  /** A scan that finds one command to dispatch among incomplete ones. */
  lemma Given(t: State, i: nat)
    requires var n := Stop(t.unreliables, t.current);
      && i < n <= 3 && Judge(t.unreliables[i], t.current) == Deliver
      && forall k :: 0 <= k < n && k != i ==> Judge(t.unreliables[k], t.current) == Partial
    ensures DispatchUnreliable(t).unreliables == t.unreliables[i + 1..]
    ensures DispatchUnreliable(t).freed == t.freed + t.unreliables[..i]
  {
    hide Judge, Stop, Withheld, DispatchUnreliable;
    var q, n := t.unreliables, Stop(t.unreliables, t.current);
    assert Staying(q[..n], t.current) == n - 1 - i;
    ScanIs(t, i + 1);
    AllWithheld(q[..i], t.current);
    OneDelivered(q, t.current, i);
  }

  lemma OneDelivered(q: seq<Incoming>, current: Word, i: nat)
    requires i < |q| && Judge(q[i], current) == Deliver
    ensures Withheld(q[..i + 1], current) == Withheld(q[..i], current)
  {
    hide Judge;
    assert q[..i + 1][..i] == q[..i];
  }

  /** A scan that finds three incomplete commands. */
  lemma GivenFirst(t: State)
    requires Stop(t.unreliables, t.current) == 3
    requires forall k :: 0 <= k < 3 ==> Judge(t.unreliables[k], t.current) == Partial
    ensures DispatchUnreliable(t).unreliables == t.unreliables[1..]
    ensures DispatchUnreliable(t).freed == t.freed + [t.unreliables[0]]
  {
    hide Judge, Stop, Withheld, DispatchUnreliable;
    var q := t.unreliables;
    assert Staying(q[..3], t.current) == 2;
    ScanIs(t, 1);
    assert q[..1] == [q[0]];
    AllWithheld(q[..1], t.current);
  }

  lemma {:induction false} AllWithheld(q: seq<Incoming>, current: Word)
    requires forall k :: 0 <= k < |q| ==> Judge(q[k], current) == Partial
    ensures Withheld(q, current) == q
  {
    hide Judge;
    if q != [] {
      AllWithheld(q[..|q| - 1], current);
      assert q == q[..|q| - 1] + [q[|q| - 1]];
    }
  }

  // ---- when the reliable commands move on ----

  /** The whole commands of a number, in order. */
  function WholeOf(q: seq<Incoming>, number: Word): seq<Incoming> {
    if q == [] then []
    else
      var x := q[|q| - 1];
      WholeOf(q[..|q| - 1], number) + if x.reliable == number && x.remaining == 0 then [x] else []
  }

  lemma {:induction false} WholeDelivered(q: seq<Incoming>, current: Word)
    requires forall k :: 0 <= k < |q| ==> Sequenced(q[k])
    ensures Delivered(q, current) == WholeOf(q, current)
  {
    if q != [] { WholeDelivered(q[..|q| - 1], current); }
  }

  lemma {:induction false} WholeFront(q: seq<Incoming>, number: Word, n: nat)
    requires n <= |q| && forall k :: n <= k < |q| ==> q[k].reliable != number
    ensures WholeOf(q, number) == WholeOf(q[..n], number)
    decreases |q|
  {
    if n < |q| {
      WholeFront(q[..|q| - 1], number, n);
      assert q[..|q| - 1][..n] == q[..n];
      assert WholeOf(q[..n], number) + [] == WholeOf(q[..n], number);
    } else {
      assert q[..n] == q;
    }
  }

  /** In a queue that was in line before the current number moved on, the scan comes to every command
      of the new number. */
  lemma ScanReaches(q: seq<Incoming>, before: Word, current: Word)
    requires InLine(q, before) && !Overtakes(before, current)
    ensures forall k :: Stop(q, current) <= k < |q| ==> q[k].reliable != current
  {
    hide InLine, InWindow, Overtakes, Around, Distance, Passed, Stop;
    AllPassing(q, before, current);
    if Around(before, current) {
      Moved(q, before, current, WORDS, Distance(current, before));
      StopIs(q, current);
      RestAhead(q, current, Stop(q, current));
    } else {
      var p := Passed(q, before, Distance(current, before));
      PassedIs(q, before, Distance(current, before));
      SuffixInLine(q, before, p);
      Moved(q[p..], before, current, 0, Distance(current, before));
      StaleStop(q, current, p);
      StopIs(q[p..], current);
      RestAhead(q[p..], current, Stop(q[p..], current));
      forall k | Stop(q, current) <= k < |q|
        ensures q[k].reliable != current
      {
        assert q[k] == q[p..][k - p];
      }
    }
  }

  /** When reliable commands are dispatched, the whole unreliable ones sent after the last of them follow
      at once, in their order, and nothing else; those of later numbers go on waiting. */
  lemma Released(s: State)
    requires Ordered(s) && Ready(s.reliables, s.current) > 0
    requires !Overtakes(s.current, Reached(s.reliables[..Ready(s.reliables, s.current)], s.current))
    ensures var s', n := DispatchReliable(s), Ready(s.reliables, s.current);
      && s'.current == Reached(s.reliables[..n], s.current) && s'.reliables == s.reliables[n..]
      && s'.dispatched == s.dispatched + s.reliables[..n] + WholeOf(s.unreliables, s'.current)
      && forall x :: x in s.unreliables && SixWindows(x.reliable, s'.current) && x.reliable != s'.current ==>
           x in s'.unreliables
  {
    hide Ordered, InWindow, Overtakes, Stop, Ready, Reached, SixWindows, DispatchUnreliable, WholeOf, Judge;
    var n := Ready(s.reliables, s.current);
    var r := Reached(s.reliables[..n], s.current);
    var t := s.(current := r, unreliable := 0, reliables := s.reliables[n..],
                dispatched := s.dispatched + s.reliables[..n]);
    OrderedScan(s, r);
    ScanGives(t);
    if s.unreliables == [] { NoneWhole(t); }
    forall x | x in s.unreliables && SixWindows(x.reliable, r) && x.reliable != r
      ensures x in DispatchReliable(s).unreliables
    {
      AheadKept(s.unreliables, r, x);
    }
  }

  lemma NoneWhole(t: State)
    ensures WholeOf([], t.current) == [] && t.dispatched + [] == t.dispatched
  {
  }

  lemma OrderedScan(s: State, current: Word)
    requires Ordered(s) && !Overtakes(s.current, current)
    ensures Delivered(s.unreliables[..Stop(s.unreliables, current)], current) == WholeOf(s.unreliables, current)
    ensures forall k :: 0 <= k < |s.unreliables| ==> Sequenced(s.unreliables[k])
  {
    hide InLine, InWindow, Overtakes, Stop, Sequenced;
    var k := Stop(s.unreliables, current);
    ScanReaches(s.unreliables, s.current, current);
    AllSequenced(s.unreliables, s.current);
    WholeDelivered(s.unreliables[..k], current);
    WholeFront(s.unreliables, current, k);
  }

  lemma ScanGives(t: State)
    ensures var t', n := DispatchUnreliable(t), Stop(t.unreliables, t.current);
      && t'.dispatched == t.dispatched + Delivered(t.unreliables[..n], t.current)
      && t'.current == t.current && t'.reliables == t.reliables
      && forall x :: x in t.unreliables[n..] ==> x in t'.unreliables
  {
    hide Stop, Delivered, Withheld, Staying, NumberAfter;
  }

  lemma AheadKept(q: seq<Incoming>, current: Word, x: Incoming)
    requires x in q && SixWindows(x.reliable, current) && x.reliable != current && Sequenced(x)
    ensures x in q[Stop(q, current)..]
  {
    hide SixWindows, InWindow, Stop;
    SixWindowsIs(x.reliable, current);
    StopIs(q, current);
    var j :| 0 <= j < |q| && q[j] == x;
    assert q[Stop(q, current)..][j - Stop(q, current)] == x;
  }

  lemma AllSequenced(q: seq<Incoming>, current: Word)
    requires InLine(q, current)
    ensures forall k :: 0 <= k < |q| ==> Sequenced(q[k])
  {
  }

  // ---- reliable commands ----

  /** A timely copy of a packet, or of the first fragment to come of its group, is wanted if and only if
      the peer is not disconnecting, the packet's true number is ahead by at most six windows, and
      neither it nor a part of it is queued: what was dispatched is not ahead. */
  lemma ReliableAnswer(sent: seq<ReliableChannel.Packet>, n: nat, ids: seq<nat>, s: State, i: nat, c: Command,
                       maximum: nat)
    requires ReliableChannel.Linked(sent, n, ids, s) && i < |sent| && IsReliable(c.kind)
    requires c.reliable == ReliableChannel.First(sent, i) % 65536
    requires ReliableChannel.Timely(ReliableChannel.First(sent, i), ReliableChannel.First(sent, n) - 1)
    ensures var f, last := ReliableChannel.First(sent, i), ReliableChannel.First(sent, n) - 1;
      Answered(s, c, maximum, !s.discarding && last < f && f / 4096 - last / 4096 <= 6 && i !in ids)
  {
    hide InWindow, ReliableSpot, ReliableChannel.First, ReliableChannel.Timely, ReliableChannel.ReliableData,
      ReliableChannel.EntryOk, Settled, ReliableChannel.QueueOk;
    var f, last := ReliableChannel.First(sent, i), ReliableChannel.First(sent, n) - 1;
    LinkedFacts(sent, n, ids, s);
    ReliableChannel.WindowTest(f, last);
    ReliableChannel.OldNotNear(sent, n, i);
    if ReliableChannel.Near(f, last) {
      ReliableChannel.Compare(f, f, last);
      ReliableChannel.SpotTrue(sent, n, ids, s.reliables, s.current, i, |s.reliables|);
    }
  }

  /** The fields of a fragment fit each other and the limits: a million fragments and the size given. */
  predicate WellFormed(p: Piece, maximumPacketSize: nat) {
    p.number < p.count <= 1048576 && p.offset < p.total <= maximumPacketSize && p.offset + |p.data| <= p.total
  }

  /** A fragment whose group begins with the number of some packet, timely and otherwise of any content,
      is an error if and only if it is too large, or it is at most six windows ahead, or at the current
      number itself, and its fields do not fit each other, or not those of the packet when that is
      queued, or it is not queued and no group can be. */
  lemma FragmentAnswer(sent: seq<ReliableChannel.Packet>, n: nat, ids: seq<nat>, s: State, i: nat, p: Piece,
                       content: seq<PeerQueues.Byte>, maximum: nat, maximumPacketSize: nat)
    requires ReliableChannel.Linked(sent, n, ids, s) && i < |sent|
    requires p.start == ReliableChannel.First(sent, i) % 65536
    requires ReliableChannel.Timely(ReliableChannel.First(sent, i), ReliableChannel.First(sent, n) - 1)
    ensures var f, last := ReliableChannel.First(sent, i), ReliableChannel.First(sent, n) - 1;
      PieceError(s, p, content, maximum, maximumPacketSize) <==>
        || |p.data| > maximumPacketSize
        || (last <= f && f / 4096 - last / 4096 <= 6
            && (!WellFormed(p, maximumPacketSize)
                || if i in ids then
                     p.count != ReliableChannel.Pieces(sent[i]) || p.total != |sent[i].data|
                   else s.discarding || f == last || s.waiting >= maximum))
  {
    hide InWindow, ReliableSpot, ReliableChannel.First, ReliableChannel.Timely, ReliableChannel.ReliableData,
      ReliableChannel.EntryOk, Settled, ReliableChannel.QueueOk, ReliableChannel.Linked, ReliableChannel.Pieces;
    LinkedFacts(sent, n, ids, s);
    var f, last := ReliableChannel.First(sent, i), ReliableChannel.First(sent, n) - 1;
    ReliableChannel.WindowTest(f, last);
    ReliableChannel.OldNotNear(sent, n, i);
    forall k | 0 <= k < |ids|
      ensures ids[k] >= n && s.reliables[k].reliable != s.current
      ensures ids[k] == i && p.count > 0 ==>
        (Belongs(s.reliables[k], p) <==> p.count == ReliableChannel.Pieces(sent[i]) && p.total == |sent[i].data|)
    {
      QueuedIs(sent, n, ids, s.reliables, s.current, k);
    }
    if ReliableChannel.Near(f, last) {
      ReliableChannel.Compare(f, f, last);
      ReliableChannel.SpotTrue(sent, n, ids, s.reliables, s.current, i, |s.reliables|);
    }
  }

  /** A queued command is ahead of the current number and of the size of its packet. */
  lemma QueuedIs(sent: seq<ReliableChannel.Packet>, n: nat, ids: seq<nat>, q: seq<Incoming>, current: Word, k: nat)
    requires ReliableChannel.QueueOk(sent, n, ids, q, current) && k < |ids|
    ensures n <= ids[k] < |sent| && q[k].reliable != current && sent[ids[k]].room > 0
    ensures var x, p := q[k], sent[ids[k]];
      && x.count == ReliableChannel.Pieces(p) && |x.data| == |p.data|
      && (x.kind == Fragment <==> ReliableChannel.Pieces(p) > 0)
  {
    hide ReliableChannel.First, ReliableChannel.Near, ReliableChannel.Pieces, Counted;
    assert ReliableChannel.EntryOk(sent, n, ids[k], q[k]);
    NotAlike(ReliableChannel.First(sent, ids[k]), ReliableChannel.First(sent, n) - 1);
  }

  lemma NotAlike(f: nat, last: nat)
    requires ReliableChannel.Near(f, last)
    ensures f % 65536 != last % 65536
  {
    assert f < last + 65536;
    OneTurn(f, last);
  }

  lemma OneTurn(a: nat, b: nat)
    requires b < a < b + 65536
    ensures a % 65536 != b % 65536
  {
    assert a - b == 65536 * (a / 65536 - b / 65536) + (a % 65536 - b % 65536);
  }

  lemma LinkedFacts(sent: seq<ReliableChannel.Packet>, n: nat, ids: seq<nat>, s: State)
    requires ReliableChannel.Linked(sent, n, ids, s)
    ensures ReliableChannel.AllSendable(sent) && n <= |sent| && |ids| == |s.reliables|
    ensures ReliableChannel.QueueOk(sent, n, ids, s.reliables, s.current)
    ensures s.current == (ReliableChannel.First(sent, n) - 1) % 65536
  {
  }
}
