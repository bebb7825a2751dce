/**
 When the client of the closed loop shows what the server shows: what every step does to the agreement,
 cell by cell, and exactly which runs keep it.
 */
module Agreement {
  import opened Types
  import opened Coordinates
  import opened WorldSpec
  import opened Packets
  import opened Serializer
  import opened Client
  import opened Server
  import opened Mirroring
  import opened Snapshots
  import opened Replication
  import opened ClosedLoop

  // ---------------------------------------------------------------- what the queue still says

  /** One of the posted broadcasts lists cell p. */
  ghost predicate ListedIn(posted: seq<Post>, p: Pos)
    decreases |posted|
  {
    posted != [] && (Dirty(posted[0].world, p) || ListedIn(posted[1..], p))
  }

  /** Of the broadcasts that list p, the last one tells its present owner, unless p is dirty again. */
  ghost predicate TellsTruth(posted: seq<Post>, w: WorldV, p: Pos)
    requires ValidWorld(w) && forall b | b in posted :: Sendable(b.world, b.order)
    decreases |posted|
  {
    posted != [] ==>
      var b, rest := posted[0], posted[1..];
      && Sendable(b.world, b.order)
      && TellsTruth(rest, w, p)
      && (Dirty(b.world, p) && !ListedIn(rest, p) && !Dirty(w, p) ==> Shown(b.world, p) == Shown(w, p))
  }

  lemma {:induction false} TruthSurvives(posted: seq<Post>, w: WorldV, u: WorldV, p: Pos)
    requires ValidWorld(w) && ValidWorld(u) && forall b | b in posted :: Sendable(b.world, b.order)
    requires TellsTruth(posted, w, p)
    requires (Dirty(w, p) ==> Dirty(u, p)) && (!Dirty(u, p) ==> Shown(u, p) == Shown(w, p))
    ensures TellsTruth(posted, u, p)
    decreases |posted|
  {
    hide Dirty, Shown, Sendable;
    if posted != [] { TruthSurvives(posted[1..], w, u, p); }
  }

  /** Posting the dirty cells of w and clearing its lists. */
  lemma {:induction false} TruthAppend(posted: seq<Post>, b: Post, u: WorldV, p: Pos)
    requires Sendable(b.world, b.order) && (forall d | d in posted :: Sendable(d.world, d.order)) && ValidWorld(u)
    requires TellsTruth(posted, b.world, p) && Shown(u, p) == Shown(b.world, p)
    ensures TellsTruth(posted + [b], u, p)
    ensures ListedIn(posted + [b], p) <==> ListedIn(posted, p) || Dirty(b.world, p)
    decreases |posted|
  {
    hide Dirty, Shown, Sendable;
    if posted == [] {
      assert posted + [b] == [b] && [b][1..] == [];
    } else {
      assert (posted + [b])[1..] == posted[1..] + [b];
      TruthAppend(posted[1..], b, u, p);
    }
  }

  // ---------------------------------------------------------------- the invariant

  ghost predicate SameCell(w: WorldV, u: WorldV, p: Pos)
    requires ValidWorld(w) && ValidWorld(u)
  {
    w.Keys == u.Keys && WorldAt(w, p) == WorldAt(u, p)
  }

  /** Queue and cache are up to date about p, and nothing is left unsent between ticks. */
  ghost predicate SoundAt(k: Loop, p: Pos)
    requires Valid(k)
  {
    && TellsTruth(k.posted, k.server.world, p)
    && SameCell(k.cache.world, k.server.world, p)
    && (!k.ticking ==> !Dirty(k.server.world, p))
  }

  ghost predicate Sound(k: Loop) {
    Valid(k) && Proper(k.mirror) && Fragmented(k.air) && forall p :: SoundAt(k, p)
  }

  /** The client's map once what is on its way has arrived. */
  ghost function Arrived(k: Loop): Mirror {
    ApplyPackets(k.mirror, k.air)
  }

  /** Cell p will be sent again. */
  ghost predicate Resent(k: Loop, p: Pos) {
    Dirty(k.server.world, p) || ListedIn(k.posted, p)
  }

  /** The client shows p rightly once everything on its way has arrived, or p will be sent again. */
  ghost predicate OnTrack(k: Loop, p: Pos)
    requires Valid(k)
  {
    Resent(k, p) || OwnerAt(Arrived(k), p) == Shown(k.server.world, p)
  }

  /**
   Whether the snapshot of w leaves cell p right in a map that was m: a chunk without live cells is not
   sent, so m must show nothing there; of any other chunk the live cells in its last packet survive.
   */
  ghost predicate Healed(m: Mirror, w: WorldV, p: Pos)
    requires ValidWorld(w)
  {
    if Home(p) in w && Live(w[Home(p)]) != []
    then Hit(LastPart(Live(w[Home(p)])), LocalOf(p)) || Shown(w, p) == 0
    else OwnerAt(m, p) == 0
  }

  /** What it takes for p when a snapshot is served in place of the next broadcast. */
  ghost predicate SnapshotSuits(k: Loop, p: Pos)
    requires Valid(k) && k.posted != []
  {
    Dirty(k.server.world, p) || ListedIn(k.posted[1..], p) || Healed(Arrived(k), k.cache.world, p)
  }

  // ---------------------------------------------------------------- step by step

  lemma SimulateStep(k: Loop, batch: seq<PlayerCommand>, cached: seq<Coord>, p: Pos)
    requires Valid(k) && SoundAt(k, p) && Enabled(k, Simulate(batch, cached))
    ensures var r := AfterSimulate(k, batch, cached);
            && SoundAt(r, p)
            && (OnTrack(r, p) <==> Dirty(r.server.world, p) || OnTrack(k, p))
  {
    hide TickV, Dirty, Shown, WorldAt, ApplyPackets, ExchangeFits, Sendable, Enumerates, FitsCoord, TellsTruth,
      ListedIn;
    TickTracks(k.server, batch, p);
    UndirtyShown(k.server, batch, p);
    TruthSurvives(k.posted, k.server.world, TickV(k.server, batch).world, p);
  }

  /** Without packets to send no cell is dirty. */
  lemma NothingToSend(w: WorldV, order: seq<Coord>, n: u32, p: Pos)
    requires Sendable(w, order) && DeltaPackets(n, order, w) == []
    ensures !Dirty(w, p)
  {
    hide DeltaPackets, Shown, FitsCoord;
    var m: Mirror := if Shown(w, p) == 0 then map[p := 1] else map[];
    DeltaShows(m, w, n, order, p);
  }

  lemma FlushedCell(w: WorldV, p: Pos)
    requires ValidWorld(w)
    ensures FlushAll(w).Keys == w.Keys && WorldAt(FlushAll(w), p) == WorldAt(w, p)
    ensures !Dirty(FlushAll(w), p)
  {
  }

  lemma PublishStep(k: Loop, order: seq<Coord>, p: Pos)
    requires Valid(k) && SoundAt(k, p) && Enabled(k, Publish(order))
    ensures var r := AfterPublish(k, order);
            SoundAt(r, p) && (OnTrack(r, p) <==> OnTrack(k, p))
  {
    hide Dirty, WorldAt, ApplyPackets, FitsCoord, TellsTruth, ListedIn, FlushAll, DeltaPackets;
    var w := k.server.world;
    var b := Post(w, order, k.broadcastSeq, Successor(k.seqNum));
    FlushedCell(w, p);
    if DeltaOf(b) == [] {
      NothingToSend(w, order, k.broadcastSeq, p);
      TruthSurvives(k.posted, w, FlushAll(w), p);
    } else {
      TruthAppend(k.posted, b, FlushAll(w), p);
    }
  }

  lemma ServeDeltaStep(k: Loop, p: Pos)
    requires Valid(k) && SoundAt(k, p) && k.posted != [] && !k.needsFull
    ensures var r := AfterServe(k);
            SoundAt(r, p) && (OnTrack(r, p) <==> OnTrack(k, p))
  {
    hide Dirty, Shown, WorldAt, ApplyPackets, FitsCoord, DeltaPackets;
    var b := k.posted[0];
    ApplyPacketsAppend(k.mirror, k.air, DeltaOf(b));
    DeltaShows(Arrived(k), b.world, b.deltaSeq, b.order, p);
    DirtyIsListed(b.world, b.order, p);
  }

  lemma DirtyIsListed(w: WorldV, order: seq<Coord>, p: Pos)
    requires Enumerates(order, w)
    ensures Dirty(w, p) ==> Home(p) in order
  {
  }

  lemma SnapshotShows(k: Loop, n: u32, p: Pos)
    requires Valid(k)
    ensures OwnerAt(ApplyPackets(Arrived(k), SnapshotFor(k, n)), p) == Shown(k.cache.world, p)
            <==> Healed(Arrived(k), k.cache.world, p)
  {
    hide Shown, ApplyPackets, FitsCoord, FullPackets, LiveEntries, Hit, LastPart, LocalOf, Home;
    var w := k.cache.world;
    RenumberingIsInvisible(Arrived(k), FullPackets(0, k.cache.order, w), n);
    FullShows(Arrived(k), w, 0, k.cache.order, p);
    if Shown(w, p) != 0 {
      ShownOnlyWhereLive(w, p);
      HitNonempty(Live(w[Home(p)]), LocalOf(p));
    }
  }

  lemma ServeSnapshotStep(k: Loop, p: Pos)
    requires Valid(k) && SoundAt(k, p) && k.posted != [] && k.needsFull
    ensures var r := AfterServe(k);
            SoundAt(r, p) && (OnTrack(r, p) <==> SnapshotSuits(k, p))
  {
    hide Dirty, WorldAt, ApplyPackets, FitsCoord, FullPackets, Healed;
    var b := k.posted[0];
    ApplyPacketsAppend(k.mirror, k.air, SnapshotFor(k, b.seqNum));
    SnapshotShows(k, b.seqNum, p);
  }

  lemma DeliverStep(k: Loop, p: Pos)
    requires Valid(k) && SoundAt(k, p) && k.air != []
    ensures var r := AfterDeliver(k);
            SoundAt(r, p) && (OnTrack(r, p) <==> OnTrack(k, p)) && Arrived(r) == Arrived(k)
  {
    hide Dirty, Shown, WorldAt, FitsCoord, ApplyPacket, Sendable;
  }

  /**
   What each step does to the agreement about cell p. A tick mends it exactly if it lists p; a snapshot
   decides it anew; no other step, at whatever time it is taken, makes any difference.
   */
  lemma StepDecides(k: Loop, step: Step, p: Pos)
    requires Valid(k) && SoundAt(k, p) && Enabled(k, step)
    ensures SoundAt(After(k, step), p)
    ensures OnTrack(After(k, step), p) <==>
            (match step
             case Simulate(_, _) => Dirty(After(k, step).server.world, p) || OnTrack(k, p)
             case Serve => if k.needsFull then SnapshotSuits(k, p) else OnTrack(k, p)
             case _ => OnTrack(k, p))
  {
    hide Dirty, Shown, WorldAt, FitsCoord, Sendable, TickV, AfterSimulate, AfterPublish, AfterServe, AfterDeliver,
      SnapshotSuits, TellsTruth, ListedIn, ApplyPackets;
    match step
    case Simulate(batch, cached) => SimulateStep(k, batch, cached, p);
    case Publish(order) => PublishStep(k, order, p);
    case Serve => if k.needsFull { ServeSnapshotStep(k, p); } else { ServeDeltaStep(k, p); }
    case Deliver => DeliverStep(k, p);
    case _ =>
  }

  lemma SentIsFragmented(k: Loop)
    requires Valid(k) && k.posted != []
    ensures Fragmented(SnapshotFor(k, k.posted[0].seqNum)) && Fragmented(DeltaOf(k.posted[0]))
  {
    hide FullPackets, DeltaPackets, FitsCoord;
    var b := k.posted[0];
    FullIsFragmented(0, k.cache.order, k.cache.world);
    RenumberedStaysFragmented(FullPackets(0, k.cache.order, k.cache.world), b.seqNum);
    DeltaIsFragmented(b.deltaSeq, b.order, b.world);
  }

  lemma StepKeepsSound(k: Loop, step: Step)
    requires Sound(k) && Enabled(k, step)
    ensures Sound(After(k, step))
  {
    hide SoundAt, Enabled, Valid, Proper, OnTrack, SnapshotSuits, AfterSimulate, AfterPublish,
      ApplyPacket, SnapshotFor, DeltaOf;
    forall p ensures SoundAt(After(k, step), p) { StepDecides(k, step, p); }
    AirStaysSound(k, step);
  }

  lemma AirStaysSound(k: Loop, step: Step)
    requires Sound(k) && Enabled(k, step)
    ensures Proper(After(k, step).mirror) && Fragmented(After(k, step).air)
  {
    hide SoundAt, Proper, TickV, FlushServer, ApplyPacket, SnapshotFor, DeltaOf, FitsCoord;
    match step
    case Serve => SentIsFragmented(k);
    case Deliver =>
      PacketsStayProper(k.mirror, [k.air[0]]);
      assert ApplyPackets(k.mirror, [k.air[0]]) == ApplyPacket(k.mirror, k.air[0]);
      assert forall q | q in k.air[1..] :: q in k.air;
    case _ =>
  }

  // ---------------------------------------------------------------- whole runs

  ghost predicate AllOnTrack(k: Loop)
    requires Valid(k)
  {
    forall p :: OnTrack(k, p)
  }

  /** The client is on track now and after every step. */
  ghost predicate AlwaysOnTrack(k: Loop, steps: seq<Step>)
    requires Valid(k) && Possible(k, steps)
    decreases |steps|
  {
    AllOnTrack(k) && (steps != [] ==> AlwaysOnTrack(After(k, steps[0]), steps[1..]))
  }

  /** Whenever a snapshot is served, it suits every cell. */
  ghost predicate SnapshotsSuit(k: Loop, steps: seq<Step>)
    requires Valid(k) && Possible(k, steps)
    decreases |steps|
  {
    steps != [] ==>
      && (steps[0] == Serve && k.needsFull ==> forall p :: SnapshotSuits(k, p))
      && SnapshotsSuit(After(k, steps[0]), steps[1..])
  }

  lemma StepKeepsOnTrack(k: Loop, step: Step)
    requires Sound(k) && Enabled(k, step) && AllOnTrack(k)
    ensures AllOnTrack(After(k, step)) <==> (step == Serve && k.needsFull ==> forall p :: SnapshotSuits(k, p))
  {
    hide SoundAt, OnTrack, SnapshotSuits, After, Valid, Dirty, ExchangeFits, Enumerates, TickV;
    forall p ensures OnTrack(After(k, step), p) <==> (step == Serve && k.needsFull ==> SnapshotSuits(k, p)) {
      assert OnTrack(k, p) && SoundAt(k, p);
      StepDecides(k, step, p);
    }
  }

  /**
   Over any run, in any order of its steps, a client on track stays on track if and only if every
   snapshot it is served suits it. Deltas never lead it astray, and neither do delays, stale
   broadcasts, fragmentation or superfluous requests as such.
   */
  lemma {:induction false} OnTrackExactly(k: Loop, steps: seq<Step>)
    requires Sound(k) && Possible(k, steps) && AllOnTrack(k)
    ensures AlwaysOnTrack(k, steps) <==> SnapshotsSuit(k, steps)
    ensures Sound(RunLoop(k, steps))
    ensures AlwaysOnTrack(k, steps) ==> AllOnTrack(RunLoop(k, steps))
    decreases |steps|
  {
    hide SoundAt, AllOnTrack, After, SnapshotSuits, Enabled, Valid, Proper, Fragmented;
    if steps != [] {
      StepKeepsSound(k, steps[0]);
      StepKeepsOnTrack(k, steps[0]);
      if AllOnTrack(After(k, steps[0])) {
        OnTrackExactly(After(k, steps[0]), steps[1..]);
      } else {
        SoundRun(After(k, steps[0]), steps[1..]);
      }
    }
  }

  lemma {:induction false} SoundRun(k: Loop, steps: seq<Step>)
    requires Sound(k) && Possible(k, steps)
    ensures Sound(RunLoop(k, steps))
    decreases |steps|
  {
    hide SoundAt, After, Enabled, Valid, Proper, Fragmented;
    if steps != [] {
      StepKeepsSound(k, steps[0]);
      SoundRun(After(k, steps[0]), steps[1..]);
    }
  }

  /** The tick is over and everything sent has arrived. */
  ghost predicate Quiet(k: Loop) {
    !k.ticking && k.posted == [] && k.air == []
  }

  /** A quiet loop is on track exactly if the client shows the server's plane. */
  lemma QuietMirror(k: Loop)
    requires Sound(k) && Quiet(k)
    ensures AllOnTrack(k) <==> k.mirror == MirrorOf(Abs(k.server.world))
  {
    hide Dirty, Shown, Abs, MirrorOf, TellsTruth, FitsCoord, Sendable, SameCell, Enumerates;
    var shown := MirrorOf(Abs(k.server.world));
    forall p ensures OnTrack(k, p) <==> OwnerAt(k.mirror, p) == OwnerAt(shown, p) {
      assert SoundAt(k, p);
      MirrorShows(k.server.world, p);
    }
    MirrorShows(k.server.world, Pos(0, 0));
    if AllOnTrack(k) {
      forall p ensures OwnerAt(k.mirror, p) == OwnerAt(shown, p) { assert OnTrack(k, p); }
      MirrorsEqual(k.mirror, shown);
    }
  }

  /** The same condition on the chunks suffices at any time, whatever is still to follow. */
  lemma ChunksSuitSuffices(k: Loop)
    requires Sound(k) && k.posted != [] && LiveCellsOwned(k.cache.world) && ChunksSuit(Arrived(k), k.cache.world)
    ensures forall p :: SnapshotSuits(k, p)
  {
    hide SoundAt, Proper, Dirty, Shown, FitsCoord, FullPackets, ChunksSuit, ApplyPackets, LiveCellsOwned, Healed,
      ListedIn;
    var m, w, order := Arrived(k), k.cache.world, k.cache.order;
    SnapshotShowsAll(m, w, 0, order);
    forall p ensures Healed(m, w, p) {
      SnapshotShows(k, 0, p);
      RenumberingIsInvisible(m, FullPackets(0, order, w), 0);
    }
  }

  lemma ServedAlone(k: Loop, p: Pos)
    requires Valid(k) && SoundAt(k, p) && k.needsFull && |k.posted| == 1 && !k.ticking
    ensures OnTrack(AfterServe(k), p) <==>
            OwnerAt(ApplyPackets(Arrived(k), FullPackets(0, k.cache.order, k.cache.world)), p)
            == Shown(k.cache.world, p)
  {
    hide Dirty, Shown, TellsTruth, FitsCoord, Healed, FullPackets, WorldAt, AfterServe;
    ServeSnapshotStep(k, p);
    SnapshotShows(k, 0, p);
    RenumberingIsInvisible(Arrived(k), FullPackets(0, k.cache.order, k.cache.world), 0);
  }

  /**
   When a snapshot is served and nothing is to follow it, all cells are right afterwards if and only if
   every chunk has 1 to 125 live cells, or none where the client showed none, and the client showed
   nothing outside the server's chunks.
   */
  lemma SnapshotAgreesExactly(k: Loop)
    requires Sound(k) && k.needsFull && |k.posted| == 1 && !k.ticking && LiveCellsOwned(k.cache.world)
    ensures AllOnTrack(AfterServe(k)) <==> ChunksSuit(Arrived(k), k.cache.world)
  {
    hide SoundAt, OnTrack, Shown, FitsCoord, FullPackets, ChunksSuit, AfterServe, ApplyPackets, LiveCellsOwned;
    var m, w := Arrived(k), k.cache.world;
    forall p ensures OnTrack(AfterServe(k), p) <==>
                     OwnerAt(ApplyPackets(m, FullPackets(0, k.cache.order, w)), p) == Shown(w, p) {
      assert SoundAt(k, p);
      ServedAlone(k, p);
    }
    SnapshotShowsAll(m, w, 0, k.cache.order);
  }
}
