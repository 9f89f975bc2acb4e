/** Safety of a reliable ENet channel over whole runs: whatever the network drops, repeats or
    reorders, the packets dispatched are the packets sent, in order and each once. */
module ReliableChannel {
  import opened PeerQueues
  import opened IncomingChannel

  // ---- what is sent ----

  /** A packet and the room one command has for its data when it is sent. */
  datatype Packet = Packet(data: seq<Byte>, room: nat)

  /** How many fragments the packet is cut into; none if it is sent whole. */
  function Pieces(p: Packet): nat
    requires p.room > 0
  {
    if |p.data| <= p.room then 0 else (|p.data| + p.room - 1) / p.room
  }

  predicate Sendable(p: Packet) {
    p.room > 0 && Pieces(p) <= MAXIMUM_FRAGMENT_COUNT
  }

  /** Sequence numbers the packet takes. */
  function Span(p: Packet): (n: nat)
    requires p.room > 0
    ensures n > 0
  {
    if Pieces(p) > 0 then Pieces(p) else 1
  }

  predicate AllSendable(sent: seq<Packet>) {
    forall i :: 0 <= i < |sent| ==> Sendable(sent[i])
  }

  /** The first sequence number of packet i, before it is cut to sixteen bits. */
  function First(sent: seq<Packet>, i: nat): (n: nat)
    requires AllSendable(sent) && i <= |sent|
    ensures n > 0
  {
    if i == 0 then 1 else First(sent, i - 1) + Span(sent[i - 1])
  }

  lemma {:induction false} FirstLess(sent: seq<Packet>, i: nat, j: nat)
    requires AllSendable(sent) && i < j <= |sent|
    ensures First(sent, i) + Span(sent[i]) <= First(sent, j)
    decreases j
  {
    if i < j - 1 { FirstLess(sent, i, j - 1); }
  }

  lemma {:induction false} FirstKept(sent: seq<Packet>, more: seq<Packet>, i: nat)
    requires AllSendable(more) && sent <= more && i <= |sent|
    ensures AllSendable(sent) && First(sent, i) == First(more, i)
  {
    if i > 0 { FirstKept(sent, more, i - 1); }
  }

  /** Packet i as a command that is not fragmented. */
  function WholeCommand(sent: seq<Packet>, i: nat): Command
    requires AllSendable(sent) && i < |sent|
  {
    Command(Reliable, First(sent, i) % WORDS, 0, sent[i].data, 0)
  }

  function Least(a: nat, b: nat): nat {
    if a <= b then a else b
  }

  lemma PieceInside(p: Packet, k: nat)
    requires p.room > 0 && k < Pieces(p)
    ensures k * p.room < |p.data| && (k + 1 < Pieces(p) ==> (k + 1) * p.room < |p.data|)
    ensures k + 1 == Pieces(p) ==> |p.data| <= (k + 1) * p.room
  {
    var n, m := Pieces(p), |p.data| + p.room - 1;
    assert n * p.room <= m < n * p.room + p.room;
    assert (k + 1) * p.room <= n * p.room by { Monotone(k + 1, n, p.room); }
    assert (k + 1) * p.room == k * p.room + p.room;
    if k + 1 < n {
      Monotone(k + 2, n, p.room);
      assert (k + 2) * p.room == (k + 1) * p.room + p.room;
    }
  }

  lemma Monotone(a: nat, b: nat, c: nat)
    requires a <= b
    ensures a * c <= b * c
  {
  }

  /** Fragment k of a packet whose group starts at the number start. */
  function FragmentOf(p: Packet, start: Word, k: nat): Piece
    requires p.room > 0 && k < Pieces(p)
  {
    PieceInside(p, k);
    var from := k * p.room;
    Piece(start, k, Pieces(p), from, |p.data|, p.data[from..Least(from + p.room, |p.data|)])
  }

  /** Fragment k of packet i. */
  function PieceOf(sent: seq<Packet>, i: nat, k: nat): Piece
    requires AllSendable(sent) && i < |sent| && k < Pieces(sent[i])
  {
    FragmentOf(sent[i], First(sent, i) % WORDS, k)
  }

  // ---- sequence numbers across the sixteen-bit wrap ----

  /** A copy with first number f may arrive when current is the last number dispatched: it is
      not so far ahead that it aliases, and not too many windows stale. */
  predicate Timely(f: nat, current: nat) {
    f < current + WORDS
      && current / RELIABLE_WINDOW_SIZE - f / RELIABLE_WINDOW_SIZE <= RELIABLE_WINDOWS - FREE_RELIABLE_WINDOWS + 1
  }

  /** The number is ahead and within the free windows. */
  predicate Near(f: nat, current: nat) {
    current < f && f / RELIABLE_WINDOW_SIZE < current / RELIABLE_WINDOW_SIZE + FREE_RELIABLE_WINDOWS - 1
  }

  lemma Split(f: nat)
    ensures f == WORDS * (f / WORDS) + f % WORDS
    ensures f / RELIABLE_WINDOW_SIZE == RELIABLE_WINDOWS * (f / WORDS) + f % WORDS / RELIABLE_WINDOW_SIZE
  {
  }

  /** On timely copies the sixteen-bit window test decides whether the true number is
      current or near. */
  lemma WindowTest(f: nat, current: nat)
    requires Timely(f, current)
    ensures InWindow(f % WORDS, current % WORDS) <==> f == current || Near(f, current)
  {
    Split(f);
    Split(current);
  }

  /** Exactly the copies ten or more windows stale pass the test for new ones: the bound in
      Timely cannot be weakened. */
  lemma StaleAlias(f: nat, current: nat)
    requires f < current < f + WORDS
    ensures InWindow(f % WORDS, current % WORDS)
      <==> current / RELIABLE_WINDOW_SIZE - f / RELIABLE_WINDOW_SIZE > RELIABLE_WINDOWS - FREE_RELIABLE_WINDOWS + 1
  {
    Split(f);
    Split(current);
  }

  /** Sixteen-bit comparison around current orders near numbers truly. */
  lemma Compare(f: nat, g: nat, current: nat)
    requires Near(f, current) && Near(g, current)
    ensures f % WORDS == g % WORDS <==> f == g
    ensures f % WORDS >= current % WORDS && g % WORDS < current % WORDS ==> f < g
    ensures (f % WORDS >= current % WORDS <==> g % WORDS >= current % WORDS) ==> (f % WORDS < g % WORDS <==> f < g)
    ensures f % WORDS != current % WORDS
  {
    Split(f);
    Split(g);
    Split(current);
    assert f < current + WORDS && g < current + WORDS;
  }

  lemma NextNumber(f: nat, current: nat)
    requires Near(f, current)
    ensures f % WORDS == Next(current % WORDS) <==> f == current + 1
  {
    Split(f);
    Split(current);
  }

  // ---- what the receiver holds ----

  /** x is packet p being put together under the first number f. */
  ghost predicate Holds(x: Incoming, p: Packet, f: nat)
    requires p.room > 0
  {
    && x.reliable == f % WORDS && x.count == Pieces(p) && |x.data| == |p.data| && Counted(x)
    && x.kind == (if Pieces(p) == 0 then Reliable else Fragment)
    && (Pieces(p) == 0 ==> x.data == p.data)
    && forall k, j :: 0 <= k < |x.got| && x.got[k] && k * p.room <= j < (k + 1) * p.room && j < |p.data| ==>
         x.data[j] == p.data[j]
  }

  /** The reliable queue holds the packets with the numbers ids, all still to be dispatched. */
  ghost predicate QueueOk(sent: seq<Packet>, n: nat, ids: seq<nat>, q: seq<Incoming>, current: Word) {
    && AllSendable(sent) && n <= |sent| && |ids| == |q|
    && current == (First(sent, n) - 1) % WORDS
    && (forall k :: 0 <= k < |ids| ==> n <= ids[k] < |sent|)
    && (forall k, l :: 0 <= k < l < |ids| ==> ids[k] < ids[l])
    && forall k :: 0 <= k < |ids| ==> EntryOk(sent, n, ids[k], q[k])
  }

  ghost predicate EntryOk(sent: seq<Packet>, n: nat, i: nat, x: Incoming)
    requires AllSendable(sent) && n <= i < |sent|
  {
    Holds(x, sent[i], First(sent, i)) && Near(First(sent, i), First(sent, n) - 1)
  }

  /** The data of the reliable commands among those dispatched. */
  function ReliableData(q: seq<Incoming>): seq<seq<Byte>> {
    if q == [] then [] else
      var x := q[|q| - 1];
      ReliableData(q[..|q| - 1]) + if IsReliable(x.kind) then [x.data] else []
  }

  function DataOf(sent: seq<Packet>): seq<seq<Byte>> {
    seq(|sent|, i requires 0 <= i < |sent| => sent[i].data)
  }

  /** n packets have been dispatched, ids are the numbers of those waiting. */
  ghost predicate Linked(sent: seq<Packet>, n: nat, ids: seq<nat>, s: State) {
    && AllSendable(sent) && n <= |sent|
    && QueueOk(sent, n, ids, s.reliables, s.current) && Settled(s)
    && ReliableData(s.dispatched) == DataOf(sent[..n])
    && forall k :: 0 <= k < |s.unreliables| ==> !IsReliable(s.unreliables[k].kind)
  }

  ghost predicate Safe(sent: seq<Packet>, s: State) {
    exists n: nat, ids: seq<nat> :: Linked(sent, n, ids, s)
  }

  // ---- a complete packet ----

  lemma {:induction false} InPiece(p: Packet, j: nat)
    requires p.room > 0 && Pieces(p) > 0 && j < |p.data|
    ensures var k := j / p.room; k < Pieces(p) && k * p.room <= j < (k + 1) * p.room
  {
    var k := j / p.room;
    assert k * p.room <= j < k * p.room + p.room;
    if k >= Pieces(p) {
      PieceInside(p, Pieces(p) - 1);
      Monotone(Pieces(p), k, p.room);
    }
  }

  lemma CompleteData(x: Incoming, p: Packet, f: nat)
    requires p.room > 0 && Holds(x, p, f) && x.remaining == 0
    ensures x.data == p.data
  {
    if Pieces(p) > 0 {
      forall j | 0 <= j < |p.data|
        ensures x.data[j] == p.data[j]
      {
        InPiece(p, j);
        MissingNone(x.got, j / p.room);
      }
    }
  }

  // ---- dispatch ----

  lemma HeadIsNext(sent: seq<Packet>, n: nat, ids: seq<nat>, q: seq<Incoming>, current: Word)
    requires QueueOk(sent, n, ids, q, current) && q != [] && IsNext(q[0], current)
    ensures ids[0] == n && q[0].data == sent[n].data && IsReliable(q[0].kind)
    ensures QueueOk(sent, n + 1, ids[1..], q[1..], LastNumber(q[0]))
  {
    hide Holds, First;
    var i, x := ids[0], q[0];
    var c := First(sent, n) - 1;
    assert EntryOk(sent, n, i, x);
    HoldsFacts(x, sent[i], First(sent, i));
    NextNumber(First(sent, i), c);
    if i > n { FirstLess(sent, n, i); }
    CompleteData(x, sent[n], First(sent, n));
    FirstNext(sent, n);
    LastOf(sent, n, x);
    forall k | 0 <= k < |ids[1..]|
      ensures n + 1 <= ids[1..][k] && EntryOk(sent, n + 1, ids[1..][k], q[1..][k])
    {
      assert ids[0] < ids[k + 1];
      assert EntryOk(sent, n, ids[k + 1], q[k + 1]);
      FirstOrder(sent, n + 1, ids[k + 1]);
    }
  }

  lemma HoldsFacts(x: Incoming, p: Packet, f: nat)
    requires p.room > 0 && Holds(x, p, f)
    ensures x.reliable == f % WORDS && x.count == Pieces(p) && IsReliable(x.kind)
    ensures (x.kind == Fragment <==> Pieces(p) > 0) && |x.data| == |p.data| && Counted(x)
  {
  }

  lemma FirstOrder(sent: seq<Packet>, i: nat, j: nat)
    requires AllSendable(sent) && i <= j <= |sent|
    ensures First(sent, i) <= First(sent, j)
    ensures i < j ==> First(sent, i) < First(sent, j)
  {
    if i < j { FirstLess(sent, i, j); }
  }

  lemma FirstNext(sent: seq<Packet>, n: nat)
    requires AllSendable(sent) && n < |sent|
    ensures First(sent, n + 1) == First(sent, n) + Span(sent[n])
  {
  }

  lemma LastOf(sent: seq<Packet>, n: nat, x: Incoming)
    requires AllSendable(sent) && n < |sent| && x.reliable == First(sent, n) % WORDS && x.count == Pieces(sent[n])
    ensures LastNumber(x) == (First(sent, n + 1) - 1) % WORDS
  {
    if x.count > 0 { AddWrapped(First(sent, n), x.count - 1); }
  }

  lemma AddWrapped(f: nat, m: nat)
    ensures (f % WORDS + m) % WORDS == (f + m) % WORDS
  {
    var x := f % WORDS + m;
    assert f + m == WORDS * (f / WORDS + x / WORDS) + x % WORDS;
  }

  /** The commands dispatched at once are the next packets in order. */
  lemma {:induction false} ReadyInOrder(sent: seq<Packet>, n: nat, ids: seq<nat>, q: seq<Incoming>, current: Word)
    requires QueueOk(sent, n, ids, q, current)
    ensures var r := Ready(q, current);
      && n + r <= |sent| && QueueOk(sent, n + r, ids[r..], q[r..], Reached(q[..r], current))
      && Ready(q[r..], Reached(q[..r], current)) == 0
      && forall k :: 0 <= k < r ==> ids[k] == n + k && q[k].data == sent[n + k].data && IsReliable(q[k].kind)
    decreases |q|
  {
    hide QueueOk, Holds, First, AllSendable;
    QueueLength(sent, n, ids, q, current);
    if q != [] && IsNext(q[0], current) {
      HeadIsNext(sent, n, ids, q, current);
      ReadyInOrder(sent, n + 1, ids[1..], q[1..], LastNumber(q[0]));
      var r := Ready(q, current);
      assert q[1..][r - 1..] == q[r..] && ids[1..][r - 1..] == ids[r..];
      assert q[..r][1..] == q[1..][..r - 1];
      forall k | 0 <= k < r
        ensures ids[k] == n + k && q[k].data == sent[n + k].data && IsReliable(q[k].kind)
      {
        if k > 0 {
          assert ids[k] == ids[1..][k - 1] && q[k] == q[1..][k - 1];
        }
      }
    } else {
      assert q[0..] == q && ids[0..] == ids && q[..0] == [];
    }
  }

  lemma QueueLength(sent: seq<Packet>, n: nat, ids: seq<nat>, q: seq<Incoming>, current: Word)
    requires QueueOk(sent, n, ids, q, current)
    ensures AllSendable(sent) && |ids| == |q| && n <= |sent| && current == (First(sent, n) - 1) % WORDS
  {
  }

  lemma {:induction false} ReliableDataAppend(a: seq<Incoming>, b: seq<Incoming>)
    ensures ReliableData(a + b) == ReliableData(a) + ReliableData(b)
    decreases |b|
  {
    if b == [] {
      assert a + b == a;
    } else {
      assert (a + b)[..|a + b| - 1] == a + b[..|b| - 1];
      ReliableDataAppend(a, b[..|b| - 1]);
    }
  }

  lemma {:induction false} ReliableDataAll(q: seq<Incoming>)
    requires forall k :: 0 <= k < |q| ==> IsReliable(q[k].kind)
    ensures ReliableData(q) == seq(|q|, k requires 0 <= k < |q| => q[k].data)
  {
    if q != [] { ReliableDataAll(q[..|q| - 1]); }
  }

  lemma {:induction false} ReliableDataNone(q: seq<Incoming>)
    requires forall k :: 0 <= k < |q| ==> !IsReliable(q[k].kind)
    ensures ReliableData(q) == []
  {
    if q != [] { ReliableDataNone(q[..|q| - 1]); }
  }

  lemma {:induction false} DeliveredFrom(q: seq<Incoming>, current: Word)
    requires forall k :: 0 <= k < |q| ==> !IsReliable(q[k].kind)
    ensures forall k :: 0 <= k < |Delivered(q, current)| ==> !IsReliable(Delivered(q, current)[k].kind)
  {
    if q != [] { DeliveredFrom(q[..|q| - 1], current); }
  }

  /** Dispatching unreliable commands leaves the reliable side alone. */
  lemma UnreliableLinked(sent: seq<Packet>, n: nat, ids: seq<nat>, s: State)
    requires Linked(sent, n, ids, s)
    ensures Linked(sent, n, ids, DispatchUnreliable(s))
  {
    hide QueueOk, Counted, ReliableData, Judge, NumberAfter, DataOf, Stop, Delivered, Withheld, Staying, Ready;
    var i := Stop(s.unreliables, s.current);
    var d := Delivered(s.unreliables[..i], s.current);
    DeliveredFrom(s.unreliables[..i], s.current);
    ReliableDataNone(d);
    ReliableDataAppend(s.dispatched, d);
  }

  /** Dispatching reliable commands dispatches exactly the next packets sent. */
  lemma DispatchLinked(sent: seq<Packet>, n: nat, ids: seq<nat>, s: State)
    requires QueueOk(sent, n, ids, s.reliables, s.current)
    requires forall i :: 0 <= i < |s.reliables| ==> Counted(s.reliables[i])
    requires ReliableData(s.dispatched) == DataOf(sent[..n])
    requires forall k :: 0 <= k < |s.unreliables| ==> !IsReliable(s.unreliables[k].kind)
    ensures var r := Ready(s.reliables, s.current);
      r <= |ids| && Linked(sent, n + r, ids[r..], DispatchReliable(s))
  {
    hide QueueOk, ReliableData, DispatchUnreliable, Counted;
    var q, c := s.reliables, s.current;
    var r := Ready(q, c);
    ReadyInOrder(sent, n, ids, q, c);
    QueueLength(sent, n, ids, q, c);
    if r == 0 {
      assert ids[0..] == ids;
    } else {
      var s' := s.(current := Reached(q[..r], c), unreliable := 0, reliables := q[r..],
                   dispatched := s.dispatched + q[..r]);
      ReliableDataAppend(s.dispatched, q[..r]);
      ReliableDataAll(q[..r]);
      assert DataOf(sent[..n + r]) == DataOf(sent[..n]) + ReliableData(q[..r]);
      assert Linked(sent, n + r, ids[r..], s');
      UnreliableLinked(sent, n + r, ids[r..], s');
    }
  }

  // ---- arrivals ----

  /** Where the sixteen-bit scan puts a near number is where its packet belongs. */
  lemma {:induction false} SpotTrue(sent: seq<Packet>, n: nat, ids: seq<nat>, q: seq<Incoming>, current: Word, i: nat,
                                    k: nat)
    requires QueueOk(sent, n, ids, q, current) && n <= i < |sent| && k <= |q|
    requires Near(First(sent, i), First(sent, n) - 1)
    ensures var spot := ReliableSpot(q, current, First(sent, i) % WORDS, k);
      if spot.Same? then ids[spot.at] == i
      else (forall j :: 0 <= j < spot.at ==> ids[j] < i) && forall j :: spot.at <= j < k ==> i < ids[j]
  {
    hide Holds, First;
    if k > 0 {
      var c, f := First(sent, n) - 1, First(sent, i);
      var g := First(sent, ids[k - 1]);
      assert EntryOk(sent, n, ids[k - 1], q[k - 1]);
      HoldsFacts(q[k - 1], sent[ids[k - 1]], g);
      Compare(f, g, c);
      Compare(g, f, c);
      if i < ids[k - 1] { FirstLess(sent, i, ids[k - 1]); }
      if ids[k - 1] < i { FirstLess(sent, ids[k - 1], i); }
      SpotTrue(sent, n, ids, q, current, i, k - 1);
    }
  }

  lemma InsertOk(sent: seq<Packet>, n: nat, ids: seq<nat>, q: seq<Incoming>, current: Word, i: nat, at: nat,
                 x: Incoming)
    requires QueueOk(sent, n, ids, q, current) && n <= i < |sent| && at <= |q|
    requires EntryOk(sent, n, i, x)
    requires (forall j :: 0 <= j < at ==> ids[j] < i) && forall j :: at <= j < |q| ==> i < ids[j]
    ensures QueueOk(sent, n, ids[..at] + [i] + ids[at..], InsertAt(q, at, x), current)
  {
    hide EntryOk, First, Holds;
    var ids', q' := ids[..at] + [i] + ids[at..], InsertAt(q, at, x);
    forall k | 0 <= k < |ids'|
      ensures n <= ids'[k] < |sent| && EntryOk(sent, n, ids'[k], q'[k])
    {
      assert ids'[k] == if k < at then ids[k] else if k == at then i else ids[k - 1];
      assert q'[k] == if k < at then q[k] else if k == at then x else q[k - 1];
    }
  }

  /** A number already dispatched is not near. */
  lemma OldNotNear(sent: seq<Packet>, n: nat, i: nat)
    requires AllSendable(sent) && n <= |sent| && i < |sent|
    ensures Near(First(sent, i), First(sent, n) - 1) ==> n <= i
    ensures First(sent, i) == First(sent, n) - 1 ==> i < n
  {
    if i < n { FirstLess(sent, i, n); } else { FirstOrder(sent, n, i); }
  }

  /** A whole packet arrives. */
  lemma WholeLinked(sent: seq<Packet>, n: nat, ids: seq<nat>, s: State, i: nat, maximum: nat)
    requires Linked(sent, n, ids, s) && i < |sent| && Pieces(sent[i]) == 0
    requires Timely(First(sent, i), First(sent, n) - 1)
    ensures Safe(sent, Queue(s, WholeCommand(sent, i), maximum))
  {
    hide QueueOk, ReliableData, DispatchReliable, Counted, Ready, ReliableSpot, InWindow, First, DataOf;
    var c := WholeCommand(sent, i);
    if Unwanted(s, c) || Refused(s, c, maximum) {
    } else {
      WholeInserted(sent, n, ids, s, i);
      var at := Position(s, c);
      var s' := Place(s, c);
      DispatchLinked(sent, n, ids[..at] + [i] + ids[at..], s');
    }
  }

  lemma WholeInserted(sent: seq<Packet>, n: nat, ids: seq<nat>, s: State, i: nat)
    requires Linked(sent, n, ids, s) && i < |sent| && Pieces(sent[i]) == 0
    requires Timely(First(sent, i), First(sent, n) - 1)
    requires !Unwanted(s, WholeCommand(sent, i))
    ensures n <= i && Near(First(sent, i), First(sent, n) - 1)
    ensures var c := WholeCommand(sent, i);
      var at := Position(s, c);
      && at <= |ids| && QueueOk(sent, n, ids[..at] + [i] + ids[at..], Place(s, c).reliables, s.current)
      && forall k :: 0 <= k < |Place(s, c).reliables| ==> Counted(Place(s, c).reliables[k])
  {
    hide EntryOk, First, ReliableSpot, InWindow, Timely, DataOf;
    var c := WholeCommand(sent, i);
    var f := First(sent, i);
    WindowTest(f, First(sent, n) - 1);
    OldNotNear(sent, n, i);
    SpotTrue(sent, n, ids, s.reliables, s.current, i, |s.reliables|);
    WholeEntry(sent, n, i);
    var at := Position(s, c);
    InsertOk(sent, n, ids, s.reliables, s.current, i, at, NewIncoming(c));
    AllCounted(sent, n, ids[..at] + [i] + ids[at..], Place(s, c).reliables, s.current);
  }

  lemma WholeEntry(sent: seq<Packet>, n: nat, i: nat)
    requires AllSendable(sent) && n <= i < |sent| && Pieces(sent[i]) == 0
    requires Near(First(sent, i), First(sent, n) - 1)
    ensures EntryOk(sent, n, i, NewIncoming(WholeCommand(sent, i)))
  {
  }

  lemma AllCounted(sent: seq<Packet>, n: nat, ids: seq<nat>, q: seq<Incoming>, current: Word)
    requires QueueOk(sent, n, ids, q, current)
    ensures forall k :: 0 <= k < |q| ==> Counted(q[k])
  {
    forall k | 0 <= k < |q|
      ensures Counted(q[k])
    {
      assert EntryOk(sent, n, ids[k], q[k]);
    }
  }

  /** Copying fragment k in keeps what is held right. */
  lemma FilledHolds(sent: seq<Packet>, i: nat, k: nat, x: Incoming)
    requires AllSendable(sent) && i < |sent| && k < Pieces(sent[i])
    requires Holds(x, sent[i], First(sent, i)) && !x.got[k] && x.remaining > 0
    ensures Belongs(x, PieceOf(sent, i, k)) && Holds(Filled(x, PieceOf(sent, i, k)), sent[i], First(sent, i))
  {
    hide First, Missing, Pieces;
    var p, piece := sent[i], PieceOf(sent, i, k);
    PieceInside(p, k);
    var y := Filled(x, piece);
    MissingSet(x.got, k);
    assert |y.data| == |x.data|;
    forall l, j | 0 <= l < |y.got| && y.got[l] && l * p.room <= j < (l + 1) * p.room && j < |p.data|
      ensures y.data[j] == p.data[j]
    {
      FilledAt(p, piece, x, k, l, j);
    }
  }

  lemma FilledAt(p: Packet, piece: Piece, x: Incoming, k: nat, l: nat, j: nat)
    requires p.room > 0 && k < Pieces(p) && k * p.room < |p.data| && |x.data| == |p.data| && |x.got| == Pieces(p)
      && l < |x.got|
    requires piece.offset == k * p.room && piece.data == p.data[k * p.room..Least(k * p.room + p.room, |p.data|)]
    requires l * p.room <= j < (l + 1) * p.room && j < |p.data|
    requires l != k ==> x.data[j] == p.data[j]
    ensures (x.data[..piece.offset] + piece.data + x.data[piece.offset + |piece.data|..])[j] == p.data[j]
  {
    var from, to := k * p.room, Least(k * p.room + p.room, |p.data|);
    assert (k + 1) * p.room == from + p.room;
    if from <= j < to {
      assert piece.data[j - from] == p.data[j];
    } else {
      assert l != k;
    }
  }

  lemma PieceFits(sent: seq<Packet>, i: nat, k: nat)
    requires AllSendable(sent) && i < |sent| && k < Pieces(sent[i])
    ensures var p := PieceOf(sent, i, k);
      p.number < p.count && p.count == Pieces(sent[i]) && p.offset + |p.data| <= p.total == |sent[i].data|
  {
    PieceInside(sent[i], k);
  }

  /** A fragment is copied into its group, which is dispatched when it is complete. */
  lemma FillLinked(sent: seq<Packet>, n: nat, ids: seq<nat>, s: State, at: nat, k: nat)
    requires Linked(sent, n, ids, s) && at < |ids| && |ids| == |s.reliables| && ids[at] < |sent|
      && k < Pieces(sent[ids[at]])
    ensures var p := PieceOf(sent, ids[at], k);
      && Belongs(s.reliables[at], p) && p.number < p.count && p.offset + |p.data| <= p.total
      && Safe(sent, FillAt(s, at, p))
  {
    hide ReliableData, DispatchReliable, Pieces, First, DataOf, Missing;
    var i, x := ids[at], s.reliables[at];
    var p := PieceOf(sent, i, k);
    assert EntryOk(sent, n, i, x);
    HoldsFacts(x, sent[i], First(sent, i));
    PieceFits(sent, i, k);
    FillPossible(x, k);
    if x.got[k] {
      assert s.reliables[at := x] == s.reliables;
      assert Linked(sent, n, ids, s);
    } else {
      FilledHolds(sent, i, k, x);
      var y := Filled(x, p);
      var q := s.reliables[at := y];
      ReplaceOk(sent, n, ids, s.reliables, s.current, at, y);
      AllCounted(sent, n, ids, q, s.current);
      var s' := s.(reliables := q);
      if x.remaining == 1 {
        DispatchLinked(sent, n, ids, s');
      } else {
        assert Linked(sent, n, ids, s');
      }
    }
  }

  lemma ReplaceOk(sent: seq<Packet>, n: nat, ids: seq<nat>, q: seq<Incoming>, current: Word, at: nat, y: Incoming)
    requires QueueOk(sent, n, ids, q, current) && at < |q|
    requires Holds(y, sent[ids[at]], First(sent, ids[at]))
    ensures QueueOk(sent, n, ids, q[at := y], current)
  {
    hide Holds, First;
    forall k | 0 <= k < |ids|
      ensures EntryOk(sent, n, ids[k], q[at := y][k])
    {
      assert EntryOk(sent, n, ids[k], q[k]);
    }
  }

  /** No queued command has the number that was dispatched last. */
  lemma {:induction false} CurrentNotQueued(sent: seq<Packet>, n: nat, ids: seq<nat>, q: seq<Incoming>, current: Word,
                                            k: nat)
    requires QueueOk(sent, n, ids, q, current) && k <= |q|
    ensures ReliableSpot(q, current, current, k).Insert?
  {
    hide Holds, First;
    if k > 0 {
      var g := First(sent, ids[k - 1]);
      assert EntryOk(sent, n, ids[k - 1], q[k - 1]);
      HoldsFacts(q[k - 1], sent[ids[k - 1]], g);
      Compare(g, g, First(sent, n) - 1);
      CurrentNotQueued(sent, n, ids, q, current, k - 1);
    }
  }

  lemma NewGroup(sent: seq<Packet>, n: nat, i: nat, k: nat, content: seq<Byte>)
    requires AllSendable(sent) && n <= i < |sent| && k < Pieces(sent[i]) && |content| == |sent[i].data|
    requires Near(First(sent, i), First(sent, n) - 1)
    ensures EntryOk(sent, n, i, NewIncoming(Opening(PieceOf(sent, i, k), content)))
  {
    MissingAll(Pieces(sent[i]));
  }

  /** The first fragment of a group to arrive opens it. */
  lemma OpenedLinked(sent: seq<Packet>, n: nat, ids: seq<nat>, s: State, i: nat, k: nat, content: seq<Byte>)
    requires Linked(sent, n, ids, s) && n <= i < |sent| && k < Pieces(sent[i]) && |content| == |sent[i].data|
    requires Near(First(sent, i), First(sent, n) - 1)
    requires !Unwanted(s, Opening(PieceOf(sent, i, k), content)) && PieceSpot(s, PieceOf(sent, i, k)).Insert?
    ensures var at := PieceSpot(s, PieceOf(sent, i, k)).at;
      at <= |ids| && Linked(sent, n, ids[..at] + [i] + ids[at..], Place(s, Opening(PieceOf(sent, i, k), content)))
  {
    hide EntryOk, First, InWindow, DataOf, Unwanted, ReliableSpot, ReliableData, Counted, Ready, Pieces;
    var p := PieceOf(sent, i, k);
    PieceFits(sent, i, k);
    PlacedPiece(s, p, content);
    SpotTrue(sent, n, ids, s.reliables, s.current, i, |s.reliables|);
    NewGroup(sent, n, i, k, content);
    InsertOk(sent, n, ids, s.reliables, s.current, i, PieceSpot(s, p).at, NewIncoming(Opening(p, content)));
  }

  /** A fragment arrives. */
  lemma PieceLinked(sent: seq<Packet>, n: nat, ids: seq<nat>, s: State, i: nat, k: nat, content: seq<Byte>,
                    maximum: nat, maximumPacketSize: nat)
    requires Linked(sent, n, ids, s) && i < |sent| && k < Pieces(sent[i]) && |content| == |sent[i].data|
    requires Timely(First(sent, i), First(sent, n) - 1)
    ensures Safe(sent, Assemble(s, PieceOf(sent, i, k), content, maximum, maximumPacketSize))
  {
    hide First, InWindow, DataOf, ReliableSpot, ReliableData, Counted, Ready, Pieces, EntryOk, Place, FillAt, Near,
      Timely;
    var p := PieceOf(sent, i, k);
    PieceFits(sent, i, k);
    if InWindow(p.start, s.current) && !Malformed(p, maximumPacketSize) {
      WindowTest(First(sent, i), First(sent, n) - 1);
      OldNotNear(sent, n, i);
      var spot := PieceSpot(s, p);
      if p.start == s.current {
        CurrentNotQueued(sent, n, ids, s.reliables, s.current, |s.reliables|);
      } else {
        SpotTrue(sent, n, ids, s.reliables, s.current, i, |s.reliables|);
        if spot.Same? {
          FillLinked(sent, n, ids, s, spot.at, k);
        } else if !Unwanted(s, Opening(p, content)) {
          OpenedLinked(sent, n, ids, s, i, k, content);
          var ids' := ids[..spot.at] + [i] + ids[spot.at..];
          QueueLength(sent, n, ids', Place(s, Opening(p, content)).reliables, s.current);
          if QueueOutcome(s, Opening(p, content), maximum).Queued? {
            PlacedPiece(s, p, content);
            FillLinked(sent, n, ids', Place(s, Opening(p, content)), spot.at, k);
          }
        }
      }
    }
  }

  /** Unreliable traffic arrives on the same channel. */
  lemma OtherLinked(sent: seq<Packet>, n: nat, ids: seq<nat>, s: State, c: Command, maximum: nat)
    requires Linked(sent, n, ids, s) && !IsReliable(c.kind)
    ensures Safe(sent, Queue(s, c, maximum))
  {
    hide QueueOk, ReliableData, DispatchUnreliable, Counted, Ready, UnreliableSpot, InWindow, DataOf;
    if !Unwanted(s, c) && !Refused(s, c, maximum) {
      var s' := Place(s, c);
      assert Linked(sent, n, ids, s');
      UnreliableLinked(sent, n, ids, s');
    } else {
      assert Linked(sent, n, ids, s);
    }
  }

  // ---- runs ----

  /** What has been sent so far and the receiving channel. */
  datatype System = System(sent: seq<Packet>, channel: State)

  /** How many reliable packets have been dispatched. */
  function Dispatched(s: State): nat {
    |ReliableData(s.dispatched)|
  }

  /** A copy of packet i may arrive now. */
  predicate Arrives(y: System, i: nat) {
    && i < |y.sent| && AllSendable(y.sent)
    && (Dispatched(y.channel) <= |y.sent| ==> Timely(First(y.sent, i), First(y.sent, Dispatched(y.channel)) - 1))
  }

  /** One step: a packet is sent; a copy of anything ever sent arrives, however often and in
      whatever order; unreliable traffic arrives; the application receives a packet; the peer
      begins to disconnect. */
  ghost predicate Step(y: System, y': System, maximum: nat, maximumPacketSize: nat) {
    || (exists p :: SendStep(y, p, y'))
    || (y'.sent == y.sent && exists i :: WholeStep(y, i, y', maximum))
    || (y'.sent == y.sent && exists i, k, content :: PieceStep(y, i, k, content, y', maximum, maximumPacketSize))
    || (y'.sent == y.sent && exists c :: OtherStep(y, c, y', maximum))
    || (exists w: nat :: ReceiveStep(y, w, y'))
    || y' == y.(channel := y.channel.(discarding := true))
  }

  ghost predicate SendStep(y: System, p: Packet, y': System) {
    Sendable(p) && y' == y.(sent := y.sent + [p])
  }

  ghost predicate WholeStep(y: System, i: nat, y': System, maximum: nat) {
    Arrives(y, i) && Pieces(y.sent[i]) == 0 && y'.channel == Queue(y.channel, WholeCommand(y.sent, i), maximum)
  }

  ghost predicate PieceStep(y: System, i: nat, k: nat, content: seq<Byte>, y': System, maximum: nat,
                            maximumPacketSize: nat) {
    && Arrives(y, i) && k < Pieces(y.sent[i]) && |content| == |y.sent[i].data|
    && (Settled(y.channel) ==>
          y'.channel == Assemble(y.channel, PieceOf(y.sent, i, k), content, maximum, maximumPacketSize))
  }

  ghost predicate OtherStep(y: System, c: Command, y': System, maximum: nat) {
    !IsReliable(c.kind) && y'.channel == Queue(y.channel, c, maximum)
  }

  /** The application takes a packet, which leaves w bytes waiting. */
  ghost predicate ReceiveStep(y: System, w: nat, y': System) {
    y' == y.(channel := y.channel.(waiting := w))
  }

  ghost predicate Run(ys: seq<System>, maximum: nat, maximumPacketSize: nat) {
    && |ys| > 0 && ys[0] == System([], Initial())
    && forall t :: 0 <= t < |ys| - 1 ==> Step(ys[t], ys[t + 1], maximum, maximumPacketSize)
  }

  lemma SendSafe(sent: seq<Packet>, n: nat, ids: seq<nat>, s: State, p: Packet)
    requires Linked(sent, n, ids, s) && Sendable(p)
    ensures Linked(sent + [p], n, ids, s)
  {
    hide Holds, Near, Settled, ReliableData, DataOf;
    var more := sent + [p];
    FirstKept(sent, more, n);
    assert more[..n] == sent[..n];
    forall k | 0 <= k < |ids|
      ensures EntryOk(more, n, ids[k], s.reliables[k])
    {
      assert EntryOk(sent, n, ids[k], s.reliables[k]);
      FirstKept(sent, more, ids[k]);
    }
  }

  lemma LinkedCount(sent: seq<Packet>, n: nat, ids: seq<nat>, s: State)
    requires Linked(sent, n, ids, s)
    ensures Dispatched(s) == n
  {
  }

  /** Every step keeps the channel safe. */
  lemma StepSafe(y: System, y': System, maximum: nat, maximumPacketSize: nat)
    requires Safe(y.sent, y.channel) && Step(y, y', maximum, maximumPacketSize)
    ensures Safe(y'.sent, y'.channel)
  {
    hide Linked, Queue, Assemble, Arrives;
    var n: nat, ids: seq<nat> :| Linked(y.sent, n, ids, y.channel);
    var sent, s := y.sent, y.channel;
    LinkedCount(sent, n, ids, s);
    LinkedSettled(sent, n, ids, s);
    if p :| SendStep(y, p, y') {
      SendSafe(sent, n, ids, s, p);
    } else if y'.sent == y.sent && exists i :: WholeStep(y, i, y', maximum) {
      var i :| WholeStep(y, i, y', maximum);
      ArrivesTimely(y, i, n);
      WholeLinked(sent, n, ids, s, i, maximum);
    } else if y'.sent == y.sent && exists i, k, content :: PieceStep(y, i, k, content, y', maximum, maximumPacketSize) {
      var i, k, content :| PieceStep(y, i, k, content, y', maximum, maximumPacketSize);
      ArrivesTimely(y, i, n);
      PieceLinked(sent, n, ids, s, i, k, content, maximum, maximumPacketSize);
    } else if y'.sent == y.sent && exists c :: OtherStep(y, c, y', maximum) {
      var c :| OtherStep(y, c, y', maximum);
      OtherLinked(sent, n, ids, s, c, maximum);
    } else if w: nat :| ReceiveStep(y, w, y') {
      WaitingLinked(sent, n, ids, s, w);
    } else {
      DiscardingLinked(sent, n, ids, s);
    }
  }

  lemma LinkedSettled(sent: seq<Packet>, n: nat, ids: seq<nat>, s: State)
    requires Linked(sent, n, ids, s)
    ensures Settled(s) && AllSendable(sent) && n <= |sent|
  {
  }

  lemma ArrivesTimely(y: System, i: nat, n: nat)
    requires Arrives(y, i) && Dispatched(y.channel) == n && n <= |y.sent|
    ensures i < |y.sent| && AllSendable(y.sent) && Timely(First(y.sent, i), First(y.sent, n) - 1)
  {
  }

  lemma DiscardingLinked(sent: seq<Packet>, n: nat, ids: seq<nat>, s: State)
    requires Linked(sent, n, ids, s)
    ensures Linked(sent, n, ids, s.(discarding := true))
  {
  }

  lemma WaitingLinked(sent: seq<Packet>, n: nat, ids: seq<nat>, s: State, w: nat)
    requires Linked(sent, n, ids, s)
    ensures Linked(sent, n, ids, s.(waiting := w))
  {
  }

  lemma {:induction false} RunSafe(ys: seq<System>, maximum: nat, maximumPacketSize: nat, t: nat)
    requires Run(ys, maximum, maximumPacketSize) && t < |ys|
    ensures Safe(ys[t].sent, ys[t].channel)
  {
    if t == 0 {
      assert Linked([], 0, [], Initial());
    } else {
      RunSafe(ys, maximum, maximumPacketSize, t - 1);
      assert Step(ys[t - 1], ys[t - 1 + 1], maximum, maximumPacketSize);
      StepSafe(ys[t - 1], ys[t], maximum, maximumPacketSize);
    }
  }

  /** At every moment of every run the reliable data dispatched is a prefix of the data sent. */
  lemma ReliableSafety(ys: seq<System>, maximum: nat, maximumPacketSize: nat, t: nat)
    requires Run(ys, maximum, maximumPacketSize) && t < |ys|
    ensures ReliableData(ys[t].channel.dispatched) <= DataOf(ys[t].sent)
  {
    hide Safe, Run;
    RunSafe(ys, maximum, maximumPacketSize, t);
    SafePrefix(ys[t].sent, ys[t].channel);
  }

  lemma SafePrefix(sent: seq<Packet>, s: State)
    requires Safe(sent, s)
    ensures ReliableData(s.dispatched) <= DataOf(sent)
  {
    hide QueueOk, Settled, ReliableData;
    var n: nat, ids: seq<nat> :| Linked(sent, n, ids, s);
    assert DataOf(sent[..n]) == DataOf(sent)[..n];
  }

  /** The next packet, arriving whole and not refused, is dispatched at once. */
  lemma NextWhole(sent: seq<Packet>, n: nat, ids: seq<nat>, s: State, maximum: nat)
    requires Linked(sent, n, ids, s) && n < |sent| && Pieces(sent[n]) == 0
    requires !s.discarding && s.waiting < maximum
    ensures Dispatched(Queue(s, WholeCommand(sent, n), maximum)) > n
  {
    hide ReliableData, DispatchReliable, ReliableSpot, InWindow, DataOf, Counted, Holds, Near, Timely, Unwanted, IsNext,
      QueueOk, First;
    var c := WholeCommand(sent, n);
    NextWanted(sent, n, ids, s);
    WholeInserted(sent, n, ids, s, n);
    var at := Position(s, c);
    var ids' := ids[..at] + [n] + ids[at..];
    var q := Place(s, c).reliables;
    DispatchLinked(sent, n, ids', Place(s, c));
    var r := Ready(q, s.current);
    LinkedCount(sent, n + r, ids'[r..], DispatchReliable(Place(s, c)));
    QueueLength(sent, n, ids, s.reliables, s.current);
    HeadDispatched(sent, n, s);
  }

  lemma NextWanted(sent: seq<Packet>, n: nat, ids: seq<nat>, s: State)
    requires Linked(sent, n, ids, s) && n < |sent| && Pieces(sent[n]) == 0 && !s.discarding
    ensures Timely(First(sent, n), First(sent, n) - 1) && !Unwanted(s, WholeCommand(sent, n))
    ensures Position(s, WholeCommand(sent, n)) == 0
  {
    hide ReliableData, DataOf, ReliableSpot, Holds, First;
    var f := First(sent, n);
    WindowTest(f, f - 1);
    SpotTrue(sent, n, ids, s.reliables, s.current, n, |s.reliables|);
    NextNumber(f, f - 1);
    Compare(f, f, f - 1);
    HeadLater(sent, n, ids, s);
  }

  /** When the next packet is not fragmented, none of its copies waits in the queue. */
  lemma HeadLater(sent: seq<Packet>, n: nat, ids: seq<nat>, s: State)
    requires Linked(sent, n, ids, s) && n < |sent| && Pieces(sent[n]) == 0
    ensures forall k :: 0 <= k < |ids| ==> ids[k] > n
  {
    hide ReliableData, DataOf, Holds, First, Near;
    var x := s.reliables;
    forall k | 0 <= k < |ids|
      ensures ids[k] > n
    {
      assert EntryOk(sent, n, ids[0], x[0]);
      WholeHeld(x[0], sent[ids[0]], First(sent, ids[0]));
      NextNumber(First(sent, ids[0]), First(sent, n) - 1);
      assert ids[0] != n;
      assert k > 0 ==> ids[0] < ids[k];
    }
  }

  lemma WholeHeld(x: Incoming, p: Packet, f: nat)
    requires p.room > 0 && Holds(x, p, f)
    ensures x.reliable == f % WORDS && (Pieces(p) == 0 ==> x.remaining == 0)
  {
  }

  lemma HeadDispatched(sent: seq<Packet>, n: nat, s: State)
    requires AllSendable(sent) && n < |sent| && Pieces(sent[n]) == 0 && s.current == (First(sent, n) - 1) % WORDS
    requires !Unwanted(s, WholeCommand(sent, n)) && Position(s, WholeCommand(sent, n)) == 0
    ensures var q := Place(s, WholeCommand(sent, n)).reliables; q != [] && IsNext(q[0], s.current)
  {
    hide Unwanted, ReliableSpot;
    NextNumber(First(sent, n), First(sent, n) - 1);
  }

  /** The fragment that completes the next packet dispatches it at once. */
  lemma LastPiece(sent: seq<Packet>, n: nat, ids: seq<nat>, s: State, k: nat, content: seq<Byte>, maximum: nat,
                  maximumPacketSize: nat)
    requires Linked(sent, n, ids, s) && n < |sent| && k < Pieces(sent[n])
      && |content| == |sent[n].data| <= maximumPacketSize
    requires ids != [] && ids[0] == n && |s.reliables[0].got| > k && !s.reliables[0].got[k]
      && s.reliables[0].remaining == 1
    ensures Dispatched(Assemble(s, PieceOf(sent, n, k), content, maximum, maximumPacketSize)) > n
  {
    hide ReliableData, DispatchReliable, Pieces, First, DataOf, Missing, Holds, ReliableSpot, InWindow, Near, Timely,
      IsNext, EntryOk, Ready;
    var p, x := PieceOf(sent, n, k), s.reliables[0];
    HeadPiece(sent, n, ids, s, k, maximumPacketSize);
    EntryHolds(sent, n, ids, s.reliables, s.current, 0);
    FilledHolds(sent, n, k, x);
    var q := s.reliables[0 := Filled(x, p)];
    ReplaceOk(sent, n, ids, s.reliables, s.current, 0, Filled(x, p));
    AllCounted(sent, n, ids, q, s.current);
    DispatchLinked(sent, n, ids, s.(reliables := q));
    LinkedCount(sent, n + Ready(q, s.current), ids[Ready(q, s.current)..], DispatchReliable(s.(reliables := q)));
    CompletedNext(sent, n, ids, s, k);
    ReadyPositive(q, s.current);
  }

  lemma ReadyPositive(q: seq<Incoming>, current: Word)
    requires q != [] && IsNext(q[0], current)
    ensures Ready(q, current) > 0
  {
  }

  lemma EntryHolds(sent: seq<Packet>, n: nat, ids: seq<nat>, q: seq<Incoming>, current: Word, k: nat)
    requires QueueOk(sent, n, ids, q, current) && k < |ids|
    ensures |ids| == |q| && n <= ids[k] < |sent| && Holds(q[k], sent[ids[k]], First(sent, ids[k]))
    ensures Near(First(sent, ids[k]), First(sent, n) - 1)
  {
    hide Holds, First, Near;
    assert EntryOk(sent, n, ids[k], q[k]);
  }

  /** A fragment of the next packet finds its group at the head of the queue. */
  lemma HeadPiece(sent: seq<Packet>, n: nat, ids: seq<nat>, s: State, k: nat, maximumPacketSize: nat)
    requires Linked(sent, n, ids, s) && n < |sent| && k < Pieces(sent[n]) && |sent[n].data| <= maximumPacketSize
    requires ids != [] && ids[0] == n
    ensures var p := PieceOf(sent, n, k);
      && InWindow(p.start, s.current) && !Malformed(p, maximumPacketSize)
      && |s.reliables| > 0 && PieceSpot(s, p) == Same(0) && Belongs(s.reliables[0], p)
  {
    hide ReliableData, DataOf, ReliableSpot, Holds, First, Near, EntryOk, Pieces, InWindow;
    var f := First(sent, n);
    var p := PieceOf(sent, n, k);
    QueueLength(sent, n, ids, s.reliables, s.current);
    EntryHolds(sent, n, ids, s.reliables, s.current, 0);
    NextNumber(f, f - 1);
    WindowTest(f, f - 1);
    PieceFits(sent, n, k);
    PieceInside(sent[n], k);
    SpotTrue(sent, n, ids, s.reliables, s.current, n, |s.reliables|);
    HoldsFacts(s.reliables[0], sent[n], f);
  }

  lemma CompletedNext(sent: seq<Packet>, n: nat, ids: seq<nat>, s: State, k: nat)
    requires Linked(sent, n, ids, s) && n < |sent| && k < Pieces(sent[n]) && ids != [] && ids[0] == n
    requires |s.reliables| > 0 && Belongs(s.reliables[0], PieceOf(sent, n, k))
    requires |s.reliables[0].got| == s.reliables[0].count && k < |s.reliables[0].got| && !s.reliables[0].got[k]
    requires PieceOf(sent, n, k).offset + |PieceOf(sent, n, k).data| <= |sent[n].data| && s.reliables[0].remaining == 1
    ensures IsNext(Filled(s.reliables[0], PieceOf(sent, n, k)), s.current)
  {
    hide ReliableData, DataOf, ReliableSpot, Holds, First, Near, EntryOk, Pieces, InWindow;
    EntryHolds(sent, n, ids, s.reliables, s.current, 0);
    HoldsFacts(s.reliables[0], sent[n], First(sent, n));
    NextNumber(First(sent, n), First(sent, n) - 1);
  }
}
