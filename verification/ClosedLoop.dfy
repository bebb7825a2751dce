/**
 The server, one session and its client as a closed loop: what the client receives decides what it
 asks for, and what it asks for decides what it is sent. The two threads of the server, the datagrams
 and the requests all proceed in steps of their own, in any order; nothing is lost or reordered.
 */
module ClosedLoop {
  import opened Types
  import opened WorldSpec
  import opened Reference
  import opened Packets
  import opened Serializer
  import opened Client
  import opened Server
  import opened Mirroring
  import opened Replication

  /** The cached snapshot: the live cells of a world. */
  datatype Snapshot = Snapshot(world: WorldV, order: seq<Coord>)

  /** A broadcast waiting for the network thread: the dirty cells of a world, under the server's number. */
  datatype Post = Post(world: WorldV, order: seq<Coord>, deltaSeq: u32, seqNum: u32)

  datatype Loop = Loop(
    server: ServerV, ticking: bool, broadcastSeq: u32, cache: Snapshot,
    posted: seq<Post>, seqNum: u32, needsFull: bool, air: seq<Packet>,
    mirror: Mirror, last: Option<u32>, asked: nat)

  /**
   AddAccount: a player joins. Simulate: a tick up to the caching of the snapshot. Publish: the rest
   of the tick. Serve: the network thread runs the next posted broadcast for this session. Deliver: the
   client reads the next datagram. PressResync: the user asks for a snapshot. HearRequest: a resync
   request reaches the session.
   */
  datatype Step =
    | AddAccount(id: PlayerId)
    | Simulate(batch: seq<PlayerCommand>, cached: seq<Coord>)
    | Publish(order: seq<Coord>)
    | Serve
    | Deliver
    | PressResync
    | HearRequest

  /** order lists the chunks of w, and their coordinates fit the packet header. */
  ghost predicate Sendable(w: WorldV, order: seq<Coord>) {
    Enumerates(order, w) && forall c | c in order :: FitsCoord(c)
  }

  ghost predicate Valid(k: Loop) {
    && ValidServer(k.server) && AllFit(k.server.world)
    && Sendable(k.cache.world, k.cache.order)
    && forall b | b in k.posted :: Sendable(b.world, b.order)
  }

  ghost function DeltaOf(b: Post): seq<Packet>
    requires Sendable(b.world, b.order)
  {
    DeltaPackets(b.deltaSeq, b.order, b.world)
  }

  /** The cached snapshot as it is sent in place of a broadcast. */
  ghost function SnapshotFor(k: Loop, seqNum: u32): seq<Packet>
    requires Valid(k)
  {
    WithSeqNum(FullPackets(0, k.cache.order, k.cache.world), seqNum)
  }

  ghost predicate Enabled(k: Loop, step: Step)
    requires Valid(k)
  {
    match step
    case AddAccount(_) => true
    case Simulate(batch, cached) =>
      !k.ticking && ExchangeFits(k.server.world) && Enumerates(cached, TickV(k.server, batch).world)
    case Publish(order) => k.ticking && Enumerates(order, k.server.world)
    case Serve => k.posted != []
    case Deliver => k.air != []
    case PressResync => true
    case HearRequest => k.asked > 0
  }

  ghost function AfterSimulate(k: Loop, batch: seq<PlayerCommand>, cached: seq<Coord>): (r: Loop)
    requires Valid(k) && Enabled(k, Simulate(batch, cached))
    ensures Valid(r)
  {
    TickFits(k.server, batch);
    var t := TickV(k.server, batch);
    k.(server := t, ticking := true, broadcastSeq := Successor(k.broadcastSeq), cache := Snapshot(t.world, cached))
  }

  ghost function AfterPublish(k: Loop, order: seq<Coord>): (r: Loop)
    requires Valid(k) && Enabled(k, Publish(order))
    ensures Valid(r)
  {
    var b := Post(k.server.world, order, k.broadcastSeq, Successor(k.seqNum));
    var flushed := k.(server := FlushServer(k.server), ticking := false);
    if DeltaOf(b) == [] then flushed
    else flushed.(posted := k.posted + [b], seqNum := b.seqNum)
  }

  ghost function AfterServe(k: Loop): (r: Loop)
    requires Valid(k) && k.posted != []
    ensures Valid(r)
  {
    var b := k.posted[0];
    assert forall d | d in k.posted[1..] :: d in k.posted;
    k.(posted := k.posted[1..], needsFull := false,
       air := k.air + if k.needsFull then SnapshotFor(k, b.seqNum) else DeltaOf(b))
  }

  ghost function AfterDeliver(k: Loop): (r: Loop)
    requires Valid(k) && k.air != []
    ensures Valid(r)
  {
    var p := k.air[0];
    k.(air := k.air[1..], mirror := ApplyPacket(k.mirror, p), last := Some(p.seqNum),
       asked := k.asked + if AsksResync(k.last, ParsedOf(p)) then 1 else 0)
  }

  ghost function After(k: Loop, step: Step): (r: Loop)
    requires Valid(k) && Enabled(k, step)
    ensures Valid(r)
  {
    match step
    case AddAccount(id) => k.(server := NextV(k.server, Join(id)))
    case Simulate(batch, cached) => AfterSimulate(k, batch, cached)
    case Publish(order) => AfterPublish(k, order)
    case Serve => AfterServe(k)
    case Deliver => AfterDeliver(k)
    case PressResync => k.(asked := k.asked + 1)
    case HearRequest => k.(asked := k.asked - 1, needsFull := true)
  }

  /** Every step of the run can be taken when its turn comes. */
  ghost predicate Possible(k: Loop, steps: seq<Step>)
    requires Valid(k)
    decreases |steps|
  {
    steps != [] ==> Enabled(k, steps[0]) && Possible(After(k, steps[0]), steps[1..])
  }

  ghost function RunLoop(k: Loop, steps: seq<Step>): (r: Loop)
    requires Valid(k) && Possible(k, steps)
    ensures Valid(r)
    decreases |steps|
  {
    if steps == [] then k else RunLoop(After(k, steps[0]), steps[1..])
  }

  // ---------------------------------------------------------------- the game behind the loop

  /** What the steps mean for the game. */
  function EventsOf(steps: seq<Step>): seq<Event> {
    if steps == [] then [] else
      (match steps[0]
       case AddAccount(id) => [Join(id)]
       case Simulate(batch, _) => [Tick(batch)]
       case _ => [])
      + EventsOf(steps[1..])
  }

  /** Between ticks the dirty lists are empty. */
  ghost predicate Flushed(k: Loop)
    requires Valid(k)
  {
    !k.ticking ==> FlushServer(k.server) == k.server
  }

  lemma FlushTwice(s: ServerV)
    requires ValidServer(s)
    ensures FlushServer(FlushServer(s)) == FlushServer(s)
    ensures AbsServer(FlushServer(s)) == AbsServer(s)
  {
    FlushInvisible(s.world);
  }

  lemma GameStep(k: Loop, step: Step)
    requires Valid(k) && Enabled(k, step) && Flushed(k)
    ensures Flushed(After(k, step))
    ensures var s, t := FlushServer(k.server), FlushServer(After(k, step).server);
            match step
            case AddAccount(id) => t == NextV(s, Join(id))
            case Simulate(batch, _) => ExchangeFits(s.world) && t == NextV(s, Tick(batch))
            case _ => t == s
  {
    hide TickV, FlushAll, ExchangeFits, Enumerates, FitsCoord, Sendable, DeltaOf, SnapshotFor;
    FlushTwice(k.server);
  }

  /** The loop's ticks and joins are a run of the server, and no int overflows in it. */
  lemma {:induction false} LoopPlaysTheGame(k: Loop, steps: seq<Step>)
    requires Valid(k) && Possible(k, steps) && Flushed(k)
    ensures RunFits(FlushServer(k.server), EventsOf(steps))
    ensures AbsServer(RunLoop(k, steps).server) == AbsServer(RunV(FlushServer(k.server), EventsOf(steps)))
    decreases |steps|
  {
    hide Flushed, Enabled, After, FlushServer, NextV, ExchangeFits, AbsServer, Sendable, FitsCoord;
    if steps == [] {
      FlushTwice(k.server);
    } else {
      GameStep(k, steps[0]);
      var rest := EventsOf(steps[1..]);
      LoopPlaysTheGame(After(k, steps[0]), steps[1..]);
      match steps[0]
      case AddAccount(id) => assert ([Join(id)] + rest)[1..] == rest;
      case Simulate(batch, _) => assert ([Tick(batch)] + rest)[1..] == rest;
      case _ => assert EventsOf(steps) == rest;
    }
  }
}
