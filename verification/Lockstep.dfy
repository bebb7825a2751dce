/**
 The closed loop on the best network there is: after every tick the session is served, everything
 arrives and every request is heard before the next tick. Even so a client can be led astray.
 */
module Lockstep {
  import opened Types
  import opened Coordinates
  import opened WorldSpec
  import opened Reference
  import opened Packets
  import opened Serializer
  import opened Client
  import opened Server
  import opened Mirroring
  import opened Agreement
  import opened ClosedLoop
  import Replication

  /** A tick's commands, and the orders in which its snapshot and its delta list the chunks. */
  datatype Round = Round(batch: seq<PlayerCommand>, cached: seq<Coord>, order: seq<Coord>)

  /** Nothing is under way. */
  ghost predicate Idle(k: Loop) {
    Valid(k) && Quiet(k) && k.asked == 0
  }

  ghost predicate Ready(k: Loop, r: Round)
    requires Valid(k)
  {
    && Enabled(k, Simulate(r.batch, r.cached))
    && Enumerates(r.order, TickV(k.server, r.batch).world)
  }

  ghost function DeliverAll(k: Loop): (r: Loop)
    requires Valid(k)
    ensures Valid(r)
    decreases |k.air|
  {
    if k.air == [] then k else DeliverAll(After(k, Deliver))
  }

  ghost function HearAll(k: Loop): (r: Loop)
    requires Valid(k)
    ensures Valid(r)
    decreases k.asked
  {
    if k.asked == 0 then k else HearAll(After(k, HearRequest))
  }

  ghost function PlayRound(k: Loop, r: Round): (k': Loop)
    requires Valid(k) && Ready(k, r)
    ensures Valid(k')
  {
    var ticked := After(After(k, Simulate(r.batch, r.cached)), Publish(r.order));
    var served := if ticked.posted == [] then ticked else After(ticked, Serve);
    HearAll(DeliverAll(served))
  }

  /** The rounds can be played one after the other. */
  ghost predicate Playable(k: Loop, rounds: seq<Round>)
    requires Valid(k)
    decreases |rounds|
  {
    rounds != [] ==> Ready(k, rounds[0]) && Playable(PlayRound(k, rounds[0]), rounds[1..])
  }

  ghost function PlayRounds(k: Loop, rounds: seq<Round>): (r: Loop)
    requires Valid(k) && Playable(k, rounds)
    ensures Valid(r)
    decreases |rounds|
  {
    if rounds == [] then k else PlayRounds(PlayRound(k, rounds[0]), rounds[1..])
  }

  function ParsedAll(ps: seq<Packet>): (r: seq<Parsed>)
    ensures |r| == |ps| && forall i | 0 <= i < |ps| :: r[i] == ParsedOf(ps[i])
  {
    seq(|ps|, i requires 0 <= i < |ps| => ParsedOf(ps[i]))
  }

  function LastNumber(last: Option<u32>, ps: seq<Packet>): Option<u32> {
    if ps == [] then last else Some(ps[|ps| - 1].seqNum)
  }

  lemma DeliverIs(k: Loop)
    requires Valid(k) && k.air != []
    ensures var p := k.air[0];
            && ParsedOf(p).seqNum == p.seqNum
            && After(k, Deliver)
               == k.(air := k.air[1..], mirror := ApplyPacket(k.mirror, p), last := Some(p.seqNum),
                     asked := k.asked + if AsksResync(k.last, ParsedOf(p)) then 1 else 0)
  {
    hide ApplyPacket, AsksResync, Valid, UpdatesOf, ToInt32;
  }

  lemma {:induction false} Delivered(k: Loop)
    requires Valid(k)
    ensures DeliverAll(k) == k.(air := [], mirror := Arrived(k), last := LastNumber(k.last, k.air),
                                asked := k.asked + Resyncs(k.last, ParsedAll(k.air)))
    decreases |k.air|
  {
    hide ApplyPacket, AsksResync, ParsedOf, Valid, AfterDeliver;
    if k.air == [] {
      assert ParsedAll(k.air) == [];
    } else {
      var d := After(k, Deliver);
      DeliverIs(k);
      Delivered(d);
      assert ParsedAll(k.air)[1..] == ParsedAll(k.air[1..]);
    }
  }

  lemma {:induction false} Heard(k: Loop)
    requires Valid(k)
    ensures HearAll(k) == k.(asked := 0, needsFull := k.needsFull || k.asked > 0)
    decreases k.asked
  {
    hide Valid;
    if k.asked > 0 { Heard(After(k, HearRequest)); }
  }

  // ---------------------------------------------------------------- one round

  /** Full updates are never taken for a gap. */
  lemma {:induction false} FullNeverAsks(last: Option<u32>, ps: seq<Parsed>)
    requires forall p | p in ps :: p.full
    ensures Resyncs(last, ps) == 0
    decreases |ps|
  {
    if ps != [] {
      assert ps[0] in ps;
      FullNeverAsks(Some(ps[0].seqNum), ps[1..]);
    }
  }

  lemma SnapshotNeverAsks(k: Loop, last: Option<u32>, n: u32)
    requires Valid(k)
    ensures Resyncs(last, ParsedAll(SnapshotFor(k, n))) == 0
  {
    hide FullPackets, FitsCoord;
    var ps := FullPackets(0, k.cache.order, k.cache.world);
    FullHeaders(0, k.cache.order, k.cache.world);
    forall q | q in ParsedAll(SnapshotFor(k, n)) ensures q.full {
      var i :| 0 <= i < |ps| && ParsedAll(SnapshotFor(k, n))[i] == q;
      assert ps[i] in ps;
    }
    FullNeverAsks(last, ParsedAll(SnapshotFor(k, n)));
  }

  lemma DeltaAsks(last: Option<u32>, n: u32, order: seq<Coord>, w: WorldV)
    requires Listed(order, w) && DeltaPackets(n, order, w) != []
    ensures var ps := DeltaPackets(n, order, w);
            && Resyncs(last, ParsedAll(ps)) == (if last == None || n == Successor(last.value) then |ps| - 1 else |ps|)
            && LastNumber(last, ps) == Some(n)
  {
    hide DeltaPackets, Successor;
    var ps := DeltaPackets(n, order, w);
    DeltaHeaders(n, order, w);
    forall q | q in ParsedAll(ps) ensures !q.full && q.seqNum == n {
      var i :| 0 <= i < |ps| && ParsedAll(ps)[i] == q;
      assert ps[i] in ps;
    }
    LosslessTickAsksForResyncs(last, n, ParsedAll(ps));
    assert ps[|ps| - 1] in ps;
  }

  /** The delta a round posts, if it has any packets. */
  ghost function RoundDelta(k: Loop, r: Round): seq<Packet>
    requires Valid(k) && Ready(k, r)
  {
    DeltaPackets(Successor(k.broadcastSeq), r.order, TickV(k.server, r.batch).world)
  }

  /** The loop in the middle of a round, about to serve the session if there is anything to send. */
  ghost function Ticked(k: Loop, r: Round): (k': Loop)
    requires Valid(k) && Ready(k, r)
    ensures Valid(k')
  {
    After(After(k, Simulate(r.batch, r.cached)), Publish(r.order))
  }

  lemma TickedIs(k: Loop, r: Round)
    requires Idle(k) && Ready(k, r)
    ensures var t := TickV(k.server, r.batch);
            var sent := if RoundDelta(k, r) == [] then [] else
              [Post(t.world, r.order, Successor(k.broadcastSeq), Successor(k.seqNum))];
            Ticked(k, r) == k.(server := FlushServer(t), broadcastSeq := Successor(k.broadcastSeq),
                               cache := Snapshot(t.world, r.cached), posted := sent,
                               seqNum := if sent == [] then k.seqNum else Successor(k.seqNum))
  {
    hide TickV, FlushServer, DeltaPackets, ExchangeFits, Enumerates, FitsCoord, Successor;
  }

  lemma ServedIs(k: Loop)
    requires Valid(k) && |k.posted| == 1 && k.air == []
    ensures var b := k.posted[0];
            After(k, Serve) == k.(posted := [], needsFull := false,
                                  air := if k.needsFull then SnapshotFor(k, b.seqNum) else DeltaOf(b))
  {
    hide SnapshotFor, DeltaOf, Sendable, FitsCoord;
  }

  /** Serving a snapshot as the only thing under way. */
  lemma SnapshotRound(k: Loop)
    requires Valid(k) && |k.posted| == 1 && k.air == [] && k.asked == 0 && k.needsFull
    ensures var n, r := k.posted[0].seqNum, HearAll(DeliverAll(After(k, Serve)));
            r == k.(posted := [], needsFull := false,
                    last := if FullPackets(0, k.cache.order, k.cache.world) == [] then k.last else Some(n),
                    mirror := ApplyPackets(k.mirror, FullPackets(0, k.cache.order, k.cache.world)))
  {
    hide FullPackets, FitsCoord, Enumerates, ApplyPackets, Resyncs, HearAll, DeliverAll, SnapshotFor, After, Valid;
    var n, d := k.posted[0].seqNum, After(k, Serve);
    ServedIs(k);
    Delivered(d);
    SnapshotNeverAsks(k, d.last, n);
    SnapshotForUnnumbered(k, n);
    Heard(DeliverAll(d));
  }

  lemma SnapshotForUnnumbered(k: Loop, n: u32)
    requires Valid(k)
    ensures LastNumber(k.last, SnapshotFor(k, n))
            == if FullPackets(0, k.cache.order, k.cache.world) == [] then k.last else Some(n)
    ensures ApplyPackets(k.mirror, SnapshotFor(k, n))
            == ApplyPackets(k.mirror, FullPackets(0, k.cache.order, k.cache.world))
  {
    hide FullPackets, FitsCoord, ApplyPackets;
    RenumberingIsInvisible(k.mirror, FullPackets(0, k.cache.order, k.cache.world), n);
  }

  /** Serving a delta as the only thing under way. */
  lemma DeltaRound(k: Loop)
    requires Valid(k) && |k.posted| == 1 && k.air == [] && k.asked == 0 && !k.needsFull && DeltaOf(k.posted[0]) != []
    ensures var b, ps, r := k.posted[0], DeltaOf(k.posted[0]), HearAll(DeliverAll(After(k, Serve)));
            r == k.(posted := [], last := Some(b.deltaSeq), mirror := ApplyPackets(k.mirror, ps),
                    needsFull := |ps| >= 2 || (k.last.Some? && b.deltaSeq != Successor(k.last.value)))
  {
    hide DeltaPackets, FitsCoord, ApplyPackets, Resyncs, HearAll, DeliverAll, Successor, After;
    var b, d := k.posted[0], After(k, Serve);
    ServedIs(k);
    Delivered(d);
    DeltaAsks(k.last, b.deltaSeq, b.order, b.world);
    Heard(DeliverAll(d));
  }

  /** With nothing under way there is nothing to deliver or to hear. */
  lemma NothingRound(k: Loop)
    requires Valid(k) && k.air == [] && k.asked == 0
    ensures HearAll(DeliverAll(k)) == k
  {
  }

  lemma SuccessorInjective(m: u32, n: u32)
    ensures Successor(m) == Successor(n) <==> m == n
  {
  }

  /** What a round does to the client and to the session. */
  lemma RoundOutcome(k: Loop, r: Round)
    requires Idle(k) && Ready(k, r)
    ensures var w, k' := TickV(k.server, r.batch).world, PlayRound(k, r);
            && Idle(k') && k'.server == FlushServer(TickV(k.server, r.batch))
            && k'.broadcastSeq == Successor(k.broadcastSeq)
            && var ps := RoundDelta(k, r);
               if ps == [] then
                 k'.mirror == k.mirror && k'.seqNum == k.seqNum && k'.needsFull == k.needsFull && k'.last == k.last
               else
                 && k'.seqNum == Successor(k.seqNum)
                 && if k.needsFull then
                      && k'.mirror == ApplyPackets(k.mirror, FullPackets(0, r.cached, w))
                      && !k'.needsFull
                      && k'.last == if FullPackets(0, r.cached, w) == [] then k.last else Some(Successor(k.seqNum))
                    else
                      && k'.mirror == ApplyPackets(k.mirror, ps) && k'.last == Some(Successor(k.broadcastSeq))
                      && (k'.needsFull <==> |ps| >= 2 || (k.last.Some? && k.broadcastSeq != k.last.value))
  {
    hide TickV, FlushServer, DeltaPackets, FullPackets, ExchangeFits, Enumerates, FitsCoord, Successor, ApplyPackets,
      Ready, After, Enabled, HearAll, DeliverAll;
    TickedIs(k, r);
    var m := Ticked(k, r);
    if RoundDelta(k, r) == [] {
      NothingRound(m);
    } else if k.needsFull {
      SnapshotRound(m);
    } else {
      DeltaRound(m);
      if k.last.Some? { SuccessorInjective(k.broadcastSeq, k.last.value); }
    }
  }

  // ---------------------------------------------------------------- the two counters

  /** How far the server's number runs ahead of the network manager's. */
  function Gap(k: Loop): u32 {
    Ahead(k.broadcastSeq, k.seqNum)
  }

  function Ahead(m: u32, n: u32): u32 {
    if m >= n then m - n else m - n + 0x1_0000_0000
  }

  lemma SuccessorIs(n: u32)
    ensures Successor(n) == if n == 0xFFFF_FFFF then 0 else n + 1
  {
  }

  lemma AheadStep(m: u32, n: u32)
    ensures Ahead(Successor(m), n) == Successor(Ahead(m, n))
    ensures Ahead(Successor(m), Successor(n)) == Ahead(m, n)
  {
    hide Successor;
    SuccessorIs(m);
    SuccessorIs(n);
    SuccessorIs(Ahead(m, n));
  }

  lemma GapIsZero(k: Loop)
    ensures Gap(k) == 0 <==> k.broadcastSeq == k.seqNum
  {
  }

  /** Every tick with nothing to send widens the gap by one, and no other tick changes it. */
  lemma EmptyTickWidensGap(k: Loop, r: Round)
    requires Idle(k) && Ready(k, r)
    ensures Gap(PlayRound(k, r)) == if RoundDelta(k, r) == [] then Successor(Gap(k)) else Gap(k)
  {
    hide Idle, Ready, PlayRound, RoundDelta, TickV, FlushServer, FullPackets, ApplyPackets, Ahead, Successor;
    RoundOutcome(k, r);
    AheadStep(k.broadcastSeq, k.seqNum);
  }

  /**
   The round after a served snapshot: unless the counters agree, its very first delta packet asks for
   a snapshot again; if they do, the second one does.
   */
  lemma SnapshotsBringSnapshots(k: Loop, r: Round, q: Round)
    requires Idle(k) && k.needsFull && Ready(k, r) && RoundDelta(k, r) != []
    requires FullPackets(0, r.cached, TickV(k.server, r.batch).world) != []
    requires Ready(PlayRound(k, r), q) && RoundDelta(PlayRound(k, r), q) != []
    ensures PlayRound(PlayRound(k, r), q).needsFull
            <==> Gap(k) != 0 || |RoundDelta(PlayRound(k, r), q)| >= 2
  {
    hide Quiet, Ready, PlayRound, RoundDelta, TickV, FlushServer, FullPackets, ApplyPackets, Gap, Successor, Sendable;
    RoundOutcome(k, r);
    RoundOutcome(PlayRound(k, r), q);
    GapIsZero(k);
    SuccessorInjective(k.broadcastSeq, k.seqNum);
  }

  // ---------------------------------------------------------------- what the server shows and sends

  lemma RoundGame(k: Loop, r: Round)
    requires Idle(k) && Ready(k, r)
    requires forall j | 0 <= j < |r.batch| :: InRange(r.batch[j].x) && InRange(r.batch[j].y)
    ensures AbsServer(PlayRound(k, r).server) == Next(AbsServer(k.server), Tick(r.batch))
    ensures forall p :: Shown(TickV(k.server, r.batch).world, p)
                        == OwnerAt(MirrorOf(Next(AbsServer(k.server), Tick(r.batch)).plane), p)
  {
    hide Ready, PlayRound, TickV, FlushAll, Next, WrapBatch, Abs, MirrorOf, Shown, InRange, RoundDelta,
      ApplyPackets, FullPackets, Sendable;
    RoundOutcome(k, r);
    WrapNothing(r.batch);
    NextRefines(k.server, Tick(r.batch));
    var w := TickV(k.server, r.batch).world;
    Replication.NextIsFlushedTick(k.server, r.batch);
    FlushInvisible(w);
    forall p ensures Shown(w, p) == OwnerAt(MirrorOf(Abs(w)), p) { MirrorShows(w, p); }
  }

  /** A round whose tick lists or changes a cell sends something. */
  lemma RoundSends(k: Loop, r: Round, p: Pos)
    requires Idle(k) && Ready(k, r)
    requires var w := TickV(k.server, r.batch).world; Dirty(w, p) || Shown(w, p) != Shown(k.server.world, p)
    ensures Dirty(TickV(k.server, r.batch).world, p) && RoundDelta(k, r) != []
  {
    hide TickV, Dirty, Shown, DeltaPackets, FitsCoord;
    Replication.UndirtyShown(k.server, r.batch, p);
    Replication.TickFits(k.server, r.batch);
    if RoundDelta(k, r) == [] {
      NothingToSend(TickV(k.server, r.batch).world, r.order, Successor(k.broadcastSeq), p);
    }
  }

  lemma {:induction false} DirtyChunkIsSent(n: u32, order: seq<Coord>, w: WorldV, p: Pos)
    requires Listed(order, w) && Dirty(w, p) && Home(p) in order
    ensures exists q :: q in DeltaPackets(n, order, w) && q.chunk == Home(p)
    decreases |order|
  {
    var first, rest := Fragments(n, FLAG_DELTA, order[0], DirtyEntries(w[order[0]])), DeltaPackets(n, order[1..], w);
    if order[0] == Home(p) {
      assert DirtyEntries(w[order[0]]) != [];
      assert first[0] in first + rest;
    } else {
      DirtyChunkIsSent(n, order[1..], w, p);
      var q :| q in rest && q.chunk == Home(p);
      assert q in first + rest;
    }
  }

  /** Dirty cells in two chunks take two packets. */
  lemma TwoChunksTwoPackets(k: Loop, r: Round, p: Pos, q: Pos)
    requires Idle(k) && Ready(k, r) && Home(p) != Home(q)
    requires Dirty(TickV(k.server, r.batch).world, p) && Dirty(TickV(k.server, r.batch).world, q)
    ensures |RoundDelta(k, r)| >= 2
  {
    hide TickV, DeltaPackets, Home, LocalOf, FitsCoord;
    var n, w := Successor(k.broadcastSeq), TickV(k.server, r.batch).world;
    DirtyChunkIsSent(n, r.order, w, p);
    DirtyChunkIsSent(n, r.order, w, q);
  }

  // ---------------------------------------------------------------- requests are heard

  /** Joining and asking are always possible. */
  lemma AlwaysPossible(k: Loop, id: PlayerId)
    requires Valid(k)
    ensures Enabled(k, AddAccount(id)) && Enabled(k, PressResync)
    ensures k.asked > 0 ==> Enabled(k, HearRequest)
    ensures k.air != [] ==> Enabled(k, Deliver)
    ensures k.posted != [] ==> Enabled(k, Serve)
  {
  }

  lemma ServedToWaiting(k: Loop)
    requires Valid(k) && k.posted != [] && k.needsFull
    ensures After(k, Serve) == k.(air := k.air + SnapshotFor(k, k.posted[0].seqNum), posted := k.posted[1..],
                                  needsFull := false)
  {
    hide Valid, SnapshotFor, DeltaOf;
  }

  /** A request the user makes reaches the session, and the next broadcast sends the cached snapshot for it. */
  lemma PressedResyncIsServed(k: Loop)
    requires Valid(k) && k.posted != []
    ensures var pressed := After(k, PressResync);
            && Enabled(pressed, HearRequest)
            && var heard := After(pressed, HearRequest);
               && Enabled(heard, Serve)
               && After(heard, Serve)
                  == k.(air := k.air + SnapshotFor(k, k.posted[0].seqNum), posted := k.posted[1..], needsFull := false)
  {
    hide AfterServe, SnapshotFor, Sendable, FitsCoord, ExchangeFits;
    var heard := After(After(k, PressResync), HearRequest);
    assert heard == k.(needsFull := true);
    SameSnapshot(k, heard);
    ServedToWaiting(heard);
  }

  lemma SameSnapshot(k: Loop, h: Loop)
    requires Valid(k) && Valid(h) && h.cache == k.cache
    ensures forall n :: SnapshotFor(h, n) == SnapshotFor(k, n)
  {
    hide Sendable, FitsCoord, FullPackets;
  }
}
