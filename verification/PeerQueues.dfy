/** The incoming half of an ENet channel (Externals/enet/peer.c and the fragment handler of
    protocol.c): what each operation does to the two queues of waiting commands and to the
    list of dispatched ones. A queue is a sequence here; the rings under it are in ChannelRings. */
module PeerQueues {
  const RELIABLE_WINDOWS := 16
  const RELIABLE_WINDOW_SIZE := 0x1000
  const FREE_RELIABLE_WINDOWS := 8
  const MAXIMUM_FRAGMENT_COUNT := 1024 * 1024
  const WORDS := 0x1_0000

  type Byte = x: int | 0 <= x < 256
  type Word = x: int | 0 <= x < WORDS

  datatype Kind = Reliable | Fragment | Unreliable | UnreliableFragment | Unsequenced

  predicate IsReliable(kind: Kind) {
    kind == Reliable || kind == Fragment
  }

  /** A queued command; got has a bit for each fragment already copied into data. */
  datatype Incoming = Incoming(kind: Kind, reliable: Word, unreliable: Word, count: nat, remaining: nat,
                               got: seq<bool>, data: seq<Byte>)

  /** A command as it is handed to the queue. */
  datatype Command = Command(kind: Kind, reliable: Word, unreliable: Word, data: seq<Byte>, count: nat)

  datatype State = State(current: Word, unreliable: Word, reliables: seq<Incoming>, unreliables: seq<Incoming>,
                         dispatched: seq<Incoming>, freed: seq<Incoming>, waiting: nat, discarding: bool)

  function Initial(): State {
    State(0, 0, [], [], [], [], 0, false)
  }

  // ---- sequence windows ----

  /** How many windows number lies ahead of current, when numbers below current have wrapped. */
  function WindowsAhead(number: Word, current: Word): int {
    number / RELIABLE_WINDOW_SIZE + (if number < current then RELIABLE_WINDOWS else 0) - current / RELIABLE_WINDOW_SIZE
  }

  predicate InWindow(number: Word, current: Word) {
    0 <= WindowsAhead(number, current) < FREE_RELIABLE_WINDOWS - 1
  }

  function Next(current: Word): Word {
    (current + 1) % WORDS
  }

  // ---- dispatch of reliable commands ----

  /** The last sequence number a command takes: a fragmented one takes count of them. */
  function LastNumber(x: Incoming): Word {
    if x.count > 0 then (x.reliable + x.count - 1) % WORDS else x.reliable
  }

  predicate IsNext(x: Incoming, current: Word) {
    x.remaining == 0 && x.reliable == Next(current)
  }

  /** How many commands at the front of the queue continue the sequence. */
  function Ready(q: seq<Incoming>, current: Word): (n: nat)
    ensures n <= |q|
  {
    if q != [] && IsNext(q[0], current) then 1 + Ready(q[1..], LastNumber(q[0])) else 0
  }

  function Reached(q: seq<Incoming>, current: Word): Word {
    if q == [] then current else Reached(q[1..], LastNumber(q[0]))
  }

  function DispatchReliable(s: State): State {
    var n := Ready(s.reliables, s.current);
    if n == 0 then s else
      var s' := s.(current := Reached(s.reliables[..n], s.current), unreliable := 0,
                   reliables := s.reliables[n..], dispatched := s.dispatched + s.reliables[..n]);
      if s.unreliables == [] then s' else DispatchUnreliable(s')
  }

  // ---- dispatch of unreliable commands ----

  datatype Verdict = Deliver | Partial | Stale | Future

  function Judge(x: Incoming, current: Word): Verdict {
    if x.kind == Unsequenced then Deliver
    else if x.reliable == current then if x.remaining == 0 then Deliver else Partial
    else if InWindow(x.reliable, current) then Future
    else Stale
  }

  /** Where the scan stops: at the first command that waits for reliable ones. */
  function Stop(q: seq<Incoming>, current: Word): (n: nat)
    ensures n <= |q|
  {
    if q == [] || Judge(q[0], current) == Future then 0 else 1 + Stop(q[1..], current)
  }

  /** The commands to deliver, in order. */
  function Delivered(q: seq<Incoming>, current: Word): seq<Incoming> {
    if q == [] then []
    else Delivered(q[..|q| - 1], current) + if Judge(q[|q| - 1], current) == Deliver then [q[|q| - 1]] else []
  }

  /** The commands that are not delivered, in order. */
  function Withheld(q: seq<Incoming>, current: Word): seq<Incoming> {
    if q == [] then []
    else Withheld(q[..|q| - 1], current) + if Judge(q[|q| - 1], current) == Deliver then [] else [q[|q| - 1]]
  }

  /** How many scanned commands stay queued: only commands still missing fragments, at the
      end of the scan, and at most two of them. */
  function Staying(q: seq<Incoming>, current: Word): (n: nat)
    ensures n <= 2 && n <= |q|
  {
    var k := |q|;
    if k == 0 || Judge(q[k - 1], current) != Partial then 0
    else if k >= 2 && Judge(q[k - 2], current) == Partial then 2
    else 1
  }

  /** The unreliable number after delivering q: that of the last sequenced command in it. */
  function NumberAfter(q: seq<Incoming>, current: Word, number: Word): Word {
    if q == [] then number
    else if Judge(q[|q| - 1], current) == Deliver && q[|q| - 1].kind != Unsequenced then q[|q| - 1].unreliable
    else NumberAfter(q[..|q| - 1], current, number)
  }

  function DispatchUnreliable(s: State): State {
    var n := Stop(s.unreliables, s.current);
    var scanned := s.unreliables[..n];
    var withheld := Withheld(scanned, s.current);
    var stay := Staying(scanned, s.current);
    s.(unreliable := NumberAfter(scanned, s.current, s.unreliable),
       unreliables := scanned[n - stay..] + s.unreliables[n..],
       dispatched := s.dispatched + Delivered(scanned, s.current),
       freed := s.freed + Withheld(scanned[..n - stay], s.current))
  }

  // ---- queueing ----

  /** Where a new command goes, or the queued one with the same number. */
  datatype Spot = Insert(at: nat) | Same(at: nat)

  /** Scans the first k commands of the reliable queue from the back. */
  function ReliableSpot(q: seq<Incoming>, current: Word, number: Word, k: nat): (spot: Spot)
    requires k <= |q|
    ensures if spot.Insert? then spot.at <= k else spot.at < k && q[spot.at].reliable == number
  {
    if k == 0 then Insert(0)
    else
      var x := q[k - 1].reliable;
      if number >= current && x < current then ReliableSpot(q, current, number, k - 1)
      else if number < current && x >= current then Insert(k)
      else if x < number then Insert(k)
      else if x == number then Same(k - 1)
      else ReliableSpot(q, current, number, k - 1)
  }

  /** Scans the first k commands of the unreliable queue from the back. */
  function UnreliableSpot(q: seq<Incoming>, current: Word, number: Word, unreliable: Word, k: nat): (spot: Spot)
    requires k <= |q|
    ensures if spot.Insert? then spot.at <= k
      else spot.at < k && q[spot.at].reliable == number && q[spot.at].unreliable == unreliable
  {
    if k == 0 then Insert(0)
    else
      var x := q[k - 1].reliable;
      if number >= current && x < current then UnreliableSpot(q, current, number, unreliable, k - 1)
      else if number < current && x >= current then Insert(k)
      else if x < number then Insert(k)
      else if x > number then UnreliableSpot(q, current, number, unreliable, k - 1)
      else if q[k - 1].unreliable < unreliable then Insert(k)
      else if q[k - 1].unreliable == unreliable then Same(k - 1)
      else UnreliableSpot(q, current, number, unreliable, k - 1)
  }

  /** Whether a command is queued, discarded as a duplicate or as out of date, or refused. */
  datatype Outcome = Null | Dummy | Queued(at: nat)

  function Discard(c: Command): Outcome {
    if c.count > 0 then Null else Dummy
  }

  function UnreliableNumber(c: Command): Word {
    if c.kind == Unreliable || c.kind == UnreliableFragment then c.unreliable else 0
  }

  function NewIncoming(c: Command): Incoming {
    Incoming(c.kind, c.reliable, UnreliableNumber(c), c.count, c.count, seq(c.count, i => false), c.data)
  }

  /** The command is out of date or a duplicate. */
  predicate Unwanted(s: State, c: Command) {
    || s.discarding
    || (c.kind != Unsequenced && !InWindow(c.reliable, s.current))
    || (IsReliable(c.kind) && c.reliable == s.current)
    || (IsReliable(c.kind) && ReliableSpot(s.reliables, s.current, c.reliable, |s.reliables|).Same?)
    || ((c.kind == Unreliable || c.kind == UnreliableFragment)
        && ((c.reliable == s.current && c.unreliable <= s.unreliable)
            || UnreliableSpot(s.unreliables, s.current, c.reliable, c.unreliable, |s.unreliables|).Same?))
  }

  function InsertAt(q: seq<Incoming>, i: nat, x: Incoming): seq<Incoming>
    requires i <= |q|
  {
    q[..i] + [x] + q[i..]
  }

  /** Where the scan from the back stops; an unsequenced command goes to the front. */
  function Position(s: State, c: Command): (i: nat)
    requires !Unwanted(s, c)
    ensures i <= if IsReliable(c.kind) then |s.reliables| else |s.unreliables|
  {
    if IsReliable(c.kind) then ReliableSpot(s.reliables, s.current, c.reliable, |s.reliables|).at
    else if c.kind == Unsequenced then 0
    else UnreliableSpot(s.unreliables, s.current, c.reliable, c.unreliable, |s.unreliables|).at
  }

  predicate Refused(s: State, c: Command, maximum: nat) {
    s.waiting >= maximum || c.count > MAXIMUM_FRAGMENT_COUNT
  }

  function QueueOutcome(s: State, c: Command, maximum: nat): Outcome {
    if Unwanted(s, c) then Discard(c)
    else if Refused(s, c, maximum) then Null
    else Queued(Position(s, c))
  }

  /** The channel after a command has been put in its queue, before any dispatch. */
  function Place(s: State, c: Command): State
    requires !Unwanted(s, c)
  {
    var waiting := s.waiting + |c.data|;
    if IsReliable(c.kind) then
      s.(waiting := waiting, reliables := InsertAt(s.reliables, Position(s, c), NewIncoming(c)))
    else
      s.(waiting := waiting, unreliables := InsertAt(s.unreliables, Position(s, c), NewIncoming(c)))
  }

  function Queue(s: State, c: Command, maximum: nat): State {
    if Unwanted(s, c) || Refused(s, c, maximum) then s
    else if IsReliable(c.kind) then DispatchReliable(Place(s, c))
    else DispatchUnreliable(Place(s, c))
  }

  // ---- waiting data ----

  /** The bytes of the packets of these commands. */
  function Size(q: seq<Incoming>): nat {
    if q == [] then 0 else |q[0].data| + Size(q[1..])
  }

  /** What the waiting data stands for, when the application has taken the first commands dispatched:
      the packets still in a queue, and those freed, which nothing takes off. */
  predicate Owed(s: State, taken: nat) {
    && taken <= |s.dispatched|
    && s.waiting == Size(s.dispatched[taken..]) + Size(s.reliables) + Size(s.unreliables) + Size(s.freed)
  }
}
