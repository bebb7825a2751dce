/**
 The closed loop in bytes: payloads, datagrams and numbers as the server's threads and the client
 handle them. It is shown to do what ClosedLoop says in terms of packets.
 */
module WireLoop {
  import opened Types
  import opened Reference
  import opened Codec
  import opened Packets
  import opened Serializer
  import opened Client
  import opened Server
  import opened Mirroring
  import opened Agreement
  import opened ClosedLoop

  datatype Wire = Wire(
    server: ServerV, ticking: bool, broadcastSeq: u32, cache: seq<byte>,
    posted: seq<Payload>, seqNum: u32, needsFull: bool, air: seq<seq<byte>>,
    mirror: Mirror, last: Option<u32>, asked: nat)

  /** What is sent for the payload first in line. */
  ghost function Chosen(x: Wire): seq<byte>
    requires x.posted != []
  {
    if x.needsFull then Renumber(x.cache, x.posted[0].seqNum) else x.posted[0].data
  }

  ghost predicate CanStep(x: Wire, step: Step) {
    && ValidServer(x.server)
    && match step
       case AddAccount(_) => true
       case Simulate(batch, cached) => Enumerates(cached, TickV(x.server, batch).world)
       case Publish(order) => Enumerates(order, x.server.world)
       case Serve => x.posted != [] && WellFramed(Chosen(x))
       case Deliver => x.air != []
       case PressResync => true
       case HearRequest => x.asked > 0
  }

  ghost function WireStep(x: Wire, step: Step): Wire
    requires CanStep(x, step)
  {
    match step
    case AddAccount(id) => x.(server := NextV(x.server, Join(id)))
    case Simulate(batch, cached) =>
      var t := TickV(x.server, batch);
      x.(server := t, ticking := true, broadcastSeq := Successor(x.broadcastSeq),
         cache := EncodeAll(FullPackets(0, cached, t.world)))
    case Publish(order) =>
      var data := EncodeAll(DeltaPackets(x.broadcastSeq, order, x.server.world));
      var flushed := x.(server := FlushServer(x.server), ticking := false);
      if data == [] then flushed
      else flushed.(posted := x.posted + [Payload(data, Successor(x.seqNum))], seqNum := Successor(x.seqNum))
    case Serve => x.(posted := x.posted[1..], needsFull := false, air := x.air + Cut(Chosen(x)))
    case Deliver => Read(x.(air := x.air[1..]), x.air[0])
    case PressResync => x.(asked := x.asked + 1)
    case HearRequest => x.(asked := x.asked - 1, needsFull := true)
  }

  /** The client's handling of one datagram. */
  ghost function Read(x: Wire, d: seq<byte>): Wire {
    match Parse(d)
    case None => x
    case Some(p) =>
      x.(mirror := Receive(x.mirror, d), last := Some(p.seqNum),
         asked := x.asked + if AsksResync(x.last, p) then 1 else 0)
  }

  // ---------------------------------------------------------------- from packets to bytes

  ghost function PayloadOf(b: Post): Payload
    requires Sendable(b.world, b.order)
  {
    Payload(EncodeAll(DeltaOf(b)), b.seqNum)
  }

  ghost function PayloadsOf(posted: seq<Post>): (r: seq<Payload>)
    requires forall b | b in posted :: Sendable(b.world, b.order)
    ensures |r| == |posted| && forall i | 0 <= i < |r| :: r[i] == PayloadOf(posted[i])
  {
    seq(|posted|, i requires 0 <= i < |posted| => assert posted[i] in posted; PayloadOf(posted[i]))
  }

  /** The bytes that stand for a loop. */
  ghost function OnWire(k: Loop): Wire
    requires Valid(k)
  {
    Wire(k.server, k.ticking, k.broadcastSeq, EncodeAll(FullPackets(0, k.cache.order, k.cache.world)),
         PayloadsOf(k.posted), k.seqNum, k.needsFull, Datagrams(k.air), k.mirror, k.last, k.asked)
  }

  lemma NoBytes(ps: seq<Packet>)
    ensures EncodeAll(ps) == [] <==> ps == []
  {
  }

  lemma DatagramsConcat(ps: seq<Packet>, qs: seq<Packet>)
    ensures Datagrams(ps + qs) == Datagrams(ps) + Datagrams(qs)
  {
    hide Encode;
  }

  lemma PublishOnWire(k: Loop, order: seq<Coord>)
    requires Valid(k) && Enabled(k, Publish(order))
    ensures WireStep(OnWire(k), Publish(order)) == OnWire(AfterPublish(k, order))
  {
    hide EncodeAll, DeltaPackets, FullPackets, FlushServer, FitsCoord;
    var b := Post(k.server.world, order, k.broadcastSeq, Successor(k.seqNum));
    NoBytes(DeltaOf(b));
    if DeltaOf(b) != [] {
      assert PayloadsOf(k.posted + [b]) == PayloadsOf(k.posted) + [PayloadOf(b)];
    }
  }

  /** The packets that are sent when the session is served. */
  ghost function SentPackets(k: Loop): seq<Packet>
    requires Valid(k) && k.posted != []
  {
    if k.needsFull then SnapshotFor(k, k.posted[0].seqNum) else DeltaOf(k.posted[0])
  }

  lemma ChosenIsSent(k: Loop)
    requires Valid(k) && k.posted != []
    ensures Fragmented(SentPackets(k)) && Chosen(OnWire(k)) == EncodeAll(SentPackets(k))
  {
    hide EncodeAll, DeltaPackets, FullPackets, FitsCoord, Renumber;
    SentIsFragmented(k);
    FullIsFragmented(0, k.cache.order, k.cache.world);
    RenumberEncoded(FullPackets(0, k.cache.order, k.cache.world), k.posted[0].seqNum);
  }

  lemma PayloadsTail(posted: seq<Post>)
    requires posted != [] && forall b | b in posted :: Sendable(b.world, b.order)
    ensures forall b | b in posted[1..] :: b in posted
    ensures PayloadsOf(posted)[1..] == PayloadsOf(posted[1..])
  {
    hide PayloadOf, Sendable;
  }

  lemma ServeOnWire(k: Loop)
    requires Valid(k) && k.posted != []
    ensures CanStep(OnWire(k), Serve)
    ensures WireStep(OnWire(k), Serve) == OnWire(AfterServe(k))
  {
    hide EncodeAll, DeltaOf, SnapshotFor, FullPackets, FitsCoord, Cut, WellFramed, Chosen, Sendable, PayloadsOf;
    ChosenIsSent(k);
    CutEncoded(SentPackets(k));
    DatagramsConcat(k.air, SentPackets(k));
    PayloadsTail(k.posted);
  }

  lemma DeliverOnWire(k: Loop)
    requires Valid(k) && k.air != [] && Fragmented(k.air)
    ensures WireStep(OnWire(k), Deliver) == OnWire(AfterDeliver(k))
  {
    hide EncodeAll, FullPackets, FitsCoord, Parse, Encode, AsksResync, ApplyUpdate;
    var p := k.air[0];
    assert p in k.air;
    ParseRoundTrip(p, []);
    assert Encode(p) + [] == Encode(p);
    assert Datagrams(k.air)[1..] == Datagrams(k.air[1..]);
  }

  /** Whatever step the loop takes in packets, it takes in bytes. */
  lemma StepOnWire(k: Loop, step: Step)
    requires Sound(k) && Enabled(k, step)
    ensures CanStep(OnWire(k), step)
    ensures WireStep(OnWire(k), step) == OnWire(After(k, step))
  {
    hide EncodeAll, FullPackets, FitsCoord, TickV, SoundAt, Cut, Renumber, WellFramed, Parse, Read;
    match step
    case Publish(order) => PublishOnWire(k, order);
    case Serve => ServeOnWire(k);
    case Deliver => DeliverOnWire(k);
    case _ =>
  }

  ghost predicate CanRun(x: Wire, steps: seq<Step>)
    decreases |steps|
  {
    steps != [] ==> CanStep(x, steps[0]) && CanRun(WireStep(x, steps[0]), steps[1..])
  }

  ghost function RunWire(x: Wire, steps: seq<Step>): Wire
    requires CanRun(x, steps)
    decreases |steps|
  {
    if steps == [] then x else RunWire(WireStep(x, steps[0]), steps[1..])
  }

  /** A whole run in bytes is the run in packets; no payload read past its end is ever met. */
  lemma {:induction false} LoopOnWire(k: Loop, steps: seq<Step>)
    requires Sound(k) && Possible(k, steps)
    ensures CanRun(OnWire(k), steps)
    ensures RunWire(OnWire(k), steps) == OnWire(RunLoop(k, steps))
    decreases |steps|
  {
    hide SoundAt, Proper, Fragmented, Sendable, FitsCoord, Enabled, After, OnWire, CanStep, WireStep;
    if steps != [] {
      StepOnWire(k, steps[0]);
      StepKeepsSound(k, steps[0]);
      LoopOnWire(After(k, steps[0]), steps[1..]);
    }
  }
}
