/**
 Replication over whole runs: the dirty lists miss no change, so a client that receives every delta
 shows the server's plane after every tick, and so does one that starts from a late snapshot.
 */
module Replication {
  import opened Types
  import opened Plane
  import opened Chunks
  import opened Coordinates
  import opened WorldSpec
  import opened Reference
  import Codec
  import opened Packets
  import opened Serializer
  import opened Client
  import opened Server
  import opened Mirroring
  import opened Snapshots

  // ---------------------------------------------------------------- dirty lists are complete

  /** From w to u every changed cell is listed, and nothing listed is forgotten. */
  ghost predicate Tracks(w: WorldV, u: WorldV, p: Pos)
    requires ValidWorld(w) && ValidWorld(u)
  {
    && (Dirty(w, p) ==> Dirty(u, p))
    && (!Dirty(u, p) ==> WorldAt(u, p) == WorldAt(w, p))
  }

  lemma AddedChunksAreClean(w: WorldV, cs: set<Coord>, c: Coord)
    requires ValidWorld(w) && c in AddChunks(w, cs)
    ensures AddChunks(w, cs)[c].dirty == if c in w then w[c].dirty else []
  {
  }

  lemma ListedCellChanges(w: WorldV, p: Pos)
    requires ValidWorld(w) && Home(p) in AddChunks(w, Margin(w))
    ensures LocalOf(p) in Changed(Window(AddChunks(w, Margin(w)), Home(p)), WIDTH * WIDTH)
            <==> WorldAt(StepWorld(w), p) != WorldAt(w, p)
  {
    hide Margin, NextInner, Changed, StepWorld, AddChunks, Index;
    var m, l := AddChunks(w, Margin(w)), LocalOf(p);
    StepOfChunk(w, Home(p));
    AddChunksInvisible(w, Margin(w), p);
    RankBound(l);
    ChangedIsComplete(Window(m, Home(p)), WIDTH * WIDTH, l);
    SplitJoin(p, Home(p), l);
    InnerStoragePos(Home(p), l);
    assert Window(m, Home(p))[Index(l.x + 1, l.y + 1)] == WorldAt(m, p);
  }

  /** A generation adds exactly the cells that change to the dirty lists. */
  lemma StepListsChanges(w: WorldV, p: Pos)
    requires ValidWorld(w)
    ensures Dirty(StepWorld(w), p) <==> Dirty(w, p) || WorldAt(StepWorld(w), p) != WorldAt(w, p)
  {
    hide Margin, Changed, StepWorld, Window, Home, LocalOf, AddChunks, WorldAt, NextBuffer;
    StepKeys(w);
    if Home(p) in AddChunks(w, Margin(w)) {
      StepOfChunk(w, Home(p));
      AddedChunksAreClean(w, Margin(w), Home(p));
      ListedCellChanges(w, p);
    } else {
      StepOutsideChunks(w, p);
      DeadOutsideChunks(w, p);
    }
  }

  lemma DeadOutsideChunks(w: WorldV, p: Pos)
    requires ValidWorld(w) && Home(p) !in w
    ensures WorldAt(w, p) == DEAD
  {
  }

  lemma StepTracks(w: WorldV, p: Pos)
    requires ValidWorld(w)
    ensures Tracks(w, StepWorld(w), p)
  {
    hide StepWorld, WorldAt, Dirty;
    StepListsChanges(w, p);
  }

  lemma CommandTracks(s: ServerV, cmd: PlayerCommand, p: Pos)
    requires ValidServer(s)
    ensures Tracks(s.world, CommandV(s, cmd).world, p)
  {
    hide Edit, CommandChunk, CommandLocal, WorldAt;
    var c, l := CommandChunk(cmd.x, cmd.y), CommandLocal(cmd.x, cmd.y);
    var w := AddChunks(s.world, {c});
    var o := Edit(w[c].Get(l.x, l.y), cmd.player, cmd.kind, s.balances);
    AddChunksInvisible(s.world, {c}, p);
    SetCellAt(w, c, l, o.cell, p);
    SplitJoin(p, c, l);
  }

  /** A command lists the cell it addresses, whether or not it is accepted, and no other. */
  lemma CommandLists(s: ServerV, cmd: PlayerCommand, p: Pos)
    requires ValidServer(s)
    ensures Dirty(CommandV(s, cmd).world, p) <==> Dirty(s.world, p) || p == Pos(Wrap(cmd.x), Wrap(cmd.y))
  {
    hide Edit, CommandChunk, CommandLocal, Wrap, AddChunks;
    var c, l := CommandChunk(cmd.x, cmd.y), CommandLocal(cmd.x, cmd.y);
    CommandWraps(cmd.x, cmd.y);
    SplitJoin(p, c, l);
    AddedChunksAreClean(s.world, {c}, c);
    if Home(p) in s.world { AddedChunksAreClean(s.world, {c}, Home(p)); }
  }

  ghost predicate Addressed(cmds: seq<PlayerCommand>, p: Pos) {
    exists i :: 0 <= i < |cmds| && p == Pos(Wrap(cmds[i].x), Wrap(cmds[i].y))
  }

  lemma {:induction false} CommandsList(s: ServerV, cmds: seq<PlayerCommand>, p: Pos)
    requires ValidServer(s)
    ensures Dirty(CommandsV(s, cmds).world, p) <==> Dirty(s.world, p) || Addressed(cmds, p)
    decreases |cmds|
  {
    hide CommandV, Dirty, Wrap;
    if cmds != [] {
      var first := Pos(Wrap(cmds[0].x), Wrap(cmds[0].y));
      CommandLists(s, cmds[0], p);
      CommandsList(CommandV(s, cmds[0]), cmds[1..], p);
      if Addressed(cmds, p) && p != first {
        var i :| 0 <= i < |cmds| && p == Pos(Wrap(cmds[i].x), Wrap(cmds[i].y));
        assert cmds[1..][i - 1] == cmds[i];
      }
      if Addressed(cmds[1..], p) {
        var i :| 0 <= i < |cmds[1..]| && p == Pos(Wrap(cmds[1..][i].x), Wrap(cmds[1..][i].y));
        assert cmds[i + 1] == cmds[1..][i];
      }
    }
  }

  /** What a tick lists: the cells the generation changes, those the commands address, and nothing else. */
  lemma TickListsExactly(s: ServerV, batch: seq<PlayerCommand>, p: Pos)
    requires ValidServer(s)
    ensures Dirty(TickV(s, batch).world, p) <==>
            || Dirty(s.world, p)
            || At(LifeStep(Abs(s.world)), p) != At(Abs(s.world), p)
            || Addressed(batch, p)
  {
    hide StepWorld, CommandsV, Dirty, Award, Income, Abs, LifeStep, Addressed, WorldAt;
    StepListsChanges(s.world, p);
    TickRefinesLife(s.world);
    AbsAt(s.world, p);
    AbsAt(StepWorld(s.world), p);
    CommandsList(ServerV(StepWorld(s.world), s.balances), batch, p);
  }

  lemma TracksTransitive(w: WorldV, u: WorldV, v: WorldV, p: Pos)
    requires ValidWorld(w) && ValidWorld(u) && ValidWorld(v) && Tracks(w, u, p) && Tracks(u, v, p)
    ensures Tracks(w, v, p)
  {
  }

  lemma {:induction false} CommandsTrack(s: ServerV, cmds: seq<PlayerCommand>, p: Pos)
    requires ValidServer(s)
    ensures Tracks(s.world, CommandsV(s, cmds).world, p)
    decreases |cmds|
  {
    hide CommandV, Tracks;
    if cmds == [] {
      TracksSelf(s.world, p);
    } else {
      CommandTracks(s, cmds[0], p);
      CommandsTrack(CommandV(s, cmds[0]), cmds[1..], p);
      TracksTransitive(s.world, CommandV(s, cmds[0]).world, CommandsV(s, cmds).world, p);
    }
  }

  lemma TracksSelf(w: WorldV, p: Pos)
    requires ValidWorld(w)
    ensures Tracks(w, w, p)
  {
  }

  /** In a tick, every cell that ends up different is on its chunk's dirty list. */
  lemma TickTracks(s: ServerV, batch: seq<PlayerCommand>, p: Pos)
    requires ValidServer(s)
    ensures Tracks(s.world, TickV(s, batch).world, p)
  {
    hide StepWorld, CommandsV, Tracks, Award, Income, Abs;
    StepTracks(s.world, p);
    CommandsTrack(ServerV(StepWorld(s.world), s.balances), batch, p);
    TracksTransitive(s.world, StepWorld(s.world), TickV(s, batch).world, p);
  }

  // ---------------------------------------------------------------- coordinates on the wire

  /** The coordinates of all chunks fit the packet header. */
  ghost predicate AllFit(w: WorldV) {
    forall c | c in w :: FitsCoord(c)
  }

  lemma CommandFits(s: ServerV, cmd: PlayerCommand)
    requires ValidServer(s) && AllFit(s.world)
    ensures AllFit(CommandV(s, cmd).world)
  {
    hide FitsInt32, ChunkIndex, CommandLocal, Edit, SetCellV;
    var c := CommandChunk(cmd.x, cmd.y);
    assert CommandV(s, cmd).world.Keys == s.world.Keys + {c};
  }

  lemma {:induction false} CommandsFit(s: ServerV, cmds: seq<PlayerCommand>)
    requires ValidServer(s) && AllFit(s.world)
    ensures AllFit(CommandsV(s, cmds).world)
    decreases |cmds|
  {
    hide CommandV, AllFit;
    if cmds != [] {
      CommandFits(s, cmds[0]);
      CommandsFit(CommandV(s, cmds[0]), cmds[1..]);
    }
  }

  /** If the exchange overflows no int, all chunks of the tick have 32-bit coordinates. */
  lemma TickFits(s: ServerV, batch: seq<PlayerCommand>)
    requires ValidServer(s) && ExchangeFits(s.world)
    ensures AllFit(TickV(s, batch).world)
  {
    hide StepWorld, Margin, CommandsV, Award, Income, Abs;
    StepKeys(s.world);
    forall c | c in StepWorld(s.world) ensures FitsCoord(c) { assert NeighboursFit(c); }
    CommandsFit(ServerV(StepWorld(s.world), s.balances), batch);
  }

  // ---------------------------------------------------------------- one tick

  /** order lists the chunks after the tick, and their coordinates fit the packet header. */
  ghost predicate GoodOrder(s: ServerV, batch: seq<PlayerCommand>, order: seq<Coord>)
    requires ValidServer(s)
  {
    Enumerates(order, TickV(s, batch).world) && forall c | c in order :: FitsCoord(c)
  }

  /** The bytes broadcast at the end of a tick. */
  ghost function TickPayload(s: ServerV, batch: seq<PlayerCommand>, order: seq<Coord>, seqNum: u32): seq<Codec.byte>
    requires ValidServer(s) && GoodOrder(s, batch, order)
  {
    EncodeAll(DeltaPackets(seqNum, order, TickV(s, batch).world))
  }

  lemma PayloadIsWellFramed(s: ServerV, batch: seq<PlayerCommand>, order: seq<Coord>, seqNum: u32)
    requires ValidServer(s) && GoodOrder(s, batch, order)
    ensures WellFramed(TickPayload(s, batch, order, seqNum))
  {
    hide EncodeAll, DeltaPackets, WellFramed, TickV;
    DeltaIsFragmented(seqNum, order, TickV(s, batch).world);
    CutEncoded(DeltaPackets(seqNum, order, TickV(s, batch).world));
  }

  /** The client's map after the tick's datagrams, delivered in order. */
  ghost function AfterTick(m: Mirror, s: ServerV, batch: seq<PlayerCommand>, order: seq<Coord>, seqNum: u32): Mirror
    requires ValidServer(s) && GoodOrder(s, batch, order)
  {
    PayloadIsWellFramed(s, batch, order, seqNum);
    ReceiveAll(m, Cut(TickPayload(s, batch, order, seqNum)))
  }

  lemma TickShows(m: Mirror, s: ServerV, batch: seq<PlayerCommand>, order: seq<Coord>, seqNum: u32, p: Pos)
    requires ValidServer(s) && GoodOrder(s, batch, order)
    ensures var w := TickV(s, batch).world;
            OwnerAt(AfterTick(m, s, batch, order, seqNum), p) == if Dirty(w, p) then Shown(w, p) else OwnerAt(m, p)
    ensures Proper(m) ==> Proper(AfterTick(m, s, batch, order, seqNum))
  {
    hide EncodeAll, Cut, WellFramed, DeltaPackets, ReceiveAll, ApplyPackets, TickV, Shown, FitsCoord;
    var w := TickV(s, batch).world;
    var ps := DeltaPackets(seqNum, order, w);
    DeltaIsFragmented(seqNum, order, w);
    WireIsTransparent(m, ps);
    DeltaShows(m, w, seqNum, order, p);
    if Proper(m) { PacketsStayProper(m, ps); }
  }

  lemma TickKeepsMirror(s: ServerV, batch: seq<PlayerCommand>, order: seq<Coord>, seqNum: u32)
    requires ValidServer(s) && GoodOrder(s, batch, order)
    ensures AfterTick(MirrorOf(Abs(s.world)), s, batch, order, seqNum)
            == MirrorOf(Abs(NextV(s, Tick(batch)).world))
  {
    hide AfterTick, MirrorOf, Abs, TickV, GoodOrder, Dirty, WorldAt, Shown;
    var m, w := MirrorOf(Abs(s.world)), TickV(s, batch).world;
    var r := AfterTick(m, s, batch, order, seqNum);
    forall p ensures OwnerAt(r, p) == OwnerAt(MirrorOf(Abs(w)), p) {
      TickShows(m, s, batch, order, seqNum, p);
      MirrorShows(s.world, p);
      MirrorShows(w, p);
      UndirtyShown(s, batch, p);
    }
    MirrorShows(s.world, Pos(0, 0));
    MirrorShows(w, Pos(0, 0));
    TickShows(m, s, batch, order, seqNum, Pos(0, 0));
    MirrorsEqual(r, MirrorOf(Abs(w)));
    NextIsFlushedTick(s, batch);
    FlushInvisible(w);
  }

  lemma UndirtyShown(s: ServerV, batch: seq<PlayerCommand>, p: Pos)
    requires ValidServer(s)
    ensures !Dirty(TickV(s, batch).world, p) ==> Shown(TickV(s, batch).world, p) == Shown(s.world, p)
  {
    hide TickV, Dirty, WorldAt;
    TickTracks(s, batch, p);
  }

  lemma NextIsFlushedTick(s: ServerV, batch: seq<PlayerCommand>)
    requires ValidServer(s)
    ensures NextV(s, Tick(batch)).world == FlushAll(TickV(s, batch).world)
  {
    hide TickV, FlushAll;
  }

  // ---------------------------------------------------------------- whole runs

  /** One chunk order for every event; those of joins are not used. */
  ghost predicate GoodOrders(s: ServerV, es: seq<Event>, orders: seq<seq<Coord>>)
    requires ValidServer(s)
    decreases |es|
  {
    && |orders| == |es|
    && (es != [] ==>
          && (es[0].Tick? ==> GoodOrder(s, es[0].batch, orders[0]))
          && GoodOrders(NextV(s, es[0]), es[1..], orders[1..]))
  }

  /** The client's map after every datagram of every tick of a run; n is the last number sent. */
  ghost function Feed(m: Mirror, s: ServerV, n: u32, es: seq<Event>, orders: seq<seq<Coord>>): Mirror
    requires ValidServer(s) && GoodOrders(s, es, orders)
    decreases |es|
  {
    if es == [] then m
    else if es[0].Join? then Feed(m, NextV(s, es[0]), n, es[1..], orders[1..])
    else
      var n' := (n + 1) % 0x1_0000_0000;
      Feed(AfterTick(m, s, es[0].batch, orders[0], n'), NextV(s, es[0]), n', es[1..], orders[1..])
  }

  ghost function Broadcasts(n: u32, es: seq<Event>): u32
    decreases |es|
  {
    if es == [] then n else
      Broadcasts(if es[0].Join? then n else (n + 1) % 0x1_0000_0000, es[1..])
  }

  lemma JoinKeepsWorld(s: ServerV, e: Event)
    requires ValidServer(s) && e.Join?
    ensures NextV(s, e).world == s.world
  {
  }

  /**
   A client that shows the server's plane and receives every delta of a run in order shows the
   server's plane at the end of it, whatever the chunk orders and however the deltas are fragmented.
   */
  lemma {:induction false} DeltasKeepMirror(s: ServerV, n: u32, es: seq<Event>, orders: seq<seq<Coord>>)
    requires ValidServer(s) && GoodOrders(s, es, orders)
    ensures Feed(MirrorOf(Abs(s.world)), s, n, es, orders) == MirrorOf(Abs(RunV(s, es).world))
    decreases |es|
  {
    hide MirrorOf, Abs, AfterTick, NextV, GoodOrder;
    if es != [] {
      if es[0].Join? {
        JoinKeepsWorld(s, es[0]);
        DeltasKeepMirror(NextV(s, es[0]), n, es[1..], orders[1..]);
      } else {
        var n' := (n + 1) % 0x1_0000_0000;
        TickKeepsMirror(s, es[0].batch, orders[0], n');
        DeltasKeepMirror(NextV(s, es[0]), n', es[1..], orders[1..]);
      }
    }
  }

  /** Cell p is not sent in any tick of the run. */
  ghost predicate NeverSent(s: ServerV, es: seq<Event>, p: Pos)
    requires ValidServer(s)
    decreases |es|
  {
    es != [] ==>
      && (es[0].Tick? ==> !Dirty(TickV(s, es[0].batch).world, p))
      && NeverSent(NextV(s, es[0]), es[1..], p)
  }

  lemma FlushedShown(w: WorldV, p: Pos)
    requires ValidWorld(w)
    ensures Shown(FlushAll(w), p) == Shown(w, p)
  {
  }

  /** A cell that is sent at all ends up right, whatever the client started from. */
  lemma {:induction false} FeedShows(m: Mirror, s: ServerV, n: u32, es: seq<Event>, orders: seq<seq<Coord>>, p: Pos)
    requires ValidServer(s) && GoodOrders(s, es, orders)
    ensures OwnerAt(Feed(m, s, n, es, orders), p)
            == if NeverSent(s, es, p) then OwnerAt(m, p) else Shown(RunV(s, es).world, p)
    ensures NeverSent(s, es, p) ==> Shown(RunV(s, es).world, p) == Shown(s.world, p)
    ensures Proper(m) ==> Proper(Feed(m, s, n, es, orders))
    decreases |es|
  {
    hide Shown, AfterTick, NextV, TickV, GoodOrder, Dirty, Proper;
    if es != [] {
      if es[0].Join? {
        JoinKeepsWorld(s, es[0]);
        FeedShows(m, NextV(s, es[0]), n, es[1..], orders[1..], p);
      } else {
        var n' := (n + 1) % 0x1_0000_0000;
        var m' := AfterTick(m, s, es[0].batch, orders[0], n');
        TickShows(m, s, es[0].batch, orders[0], n', p);
        UndirtyShown(s, es[0].batch, p);
        NextIsFlushedTick(s, es[0].batch);
        FlushedShown(TickV(s, es[0].batch).world, p);
        FeedShows(m', NextV(s, es[0]), n', es[1..], orders[1..], p);
      }
    }
  }

  /** Replaying deltas that are older than the client's snapshot does no harm. */
  lemma StaleDeltasAreHarmless(s: ServerV, n: u32, es: seq<Event>, orders: seq<seq<Coord>>)
    requires ValidServer(s) && GoodOrders(s, es, orders)
    ensures var late := MirrorOf(Abs(RunV(s, es).world));
            Feed(late, s, n, es, orders) == late
  {
    hide MirrorOf, Abs, Feed, RunV, GoodOrders, Shown, NeverSent;
    var late := MirrorOf(Abs(RunV(s, es).world));
    var r := Feed(late, s, n, es, orders);
    forall p ensures OwnerAt(r, p) == OwnerAt(late, p) {
      FeedShows(late, s, n, es, orders, p);
      MirrorShows(RunV(s, es).world, p);
    }
    MirrorShows(RunV(s, es).world, Pos(0, 0));
    FeedShows(late, s, n, es, orders, Pos(0, 0));
    MirrorsEqual(r, late);
  }

  lemma {:induction false} RunVAppend(s: ServerV, es: seq<Event>, fs: seq<Event>)
    requires ValidServer(s)
    ensures RunV(s, es + fs) == RunV(RunV(s, es), fs)
    decreases |es|
  {
    hide NextV;
    if es == [] {
      assert es + fs == fs;
    } else {
      assert (es + fs)[1..] == es[1..] + fs;
      RunVAppend(NextV(s, es[0]), es[1..], fs);
    }
  }

  lemma {:induction false} FeedAppend(m: Mirror, s: ServerV, n: u32, es: seq<Event>, fs: seq<Event>,
                                      orders: seq<seq<Coord>>, more: seq<seq<Coord>>)
    requires ValidServer(s) && GoodOrders(s, es, orders) && GoodOrders(RunV(s, es), fs, more)
    ensures GoodOrders(s, es + fs, orders + more)
    ensures Feed(m, s, n, es + fs, orders + more)
            == Feed(Feed(m, s, n, es, orders), RunV(s, es), Broadcasts(n, es), fs, more)
    decreases |es|
  {
    hide NextV, AfterTick, GoodOrder;
    if es == [] {
      assert es + fs == fs && orders + more == more;
    } else {
      assert (es + fs)[1..] == es[1..] + fs && (orders + more)[1..] == orders[1..] + more;
      assert (es + fs)[0] == es[0] && (orders + more)[0] == orders[0];
      if es[0].Join? {
        FeedAppend(m, NextV(s, es[0]), n, es[1..], fs, orders[1..], more);
      } else {
        var n' := (n + 1) % 0x1_0000_0000;
        FeedAppend(AfterTick(m, s, es[0].batch, orders[0], n'), NextV(s, es[0]), n', es[1..], fs, orders[1..], more);
      }
    }
  }

  /** The cached snapshot a session is sent: serialised with number 0, renumbered, cut and parsed. */
  ghost function FreshFromSnapshot(w: WorldV, order: seq<Coord>, seqNum: u32): Mirror
    requires Enumerates(order, w)
  {
    SnapshotIsWellFramed(w, order, seqNum);
    ReceiveAll(map[], Cut(Renumber(EncodeAll(FullPackets(0, order, w)), seqNum)))
  }

  lemma SnapshotIsWellFramed(w: WorldV, order: seq<Coord>, seqNum: u32)
    requires Enumerates(order, w)
    ensures WellFramed(Renumber(EncodeAll(FullPackets(0, order, w)), seqNum))
    ensures Fragmented(FullPackets(0, order, w)) && Fragmented(WithSeqNum(FullPackets(0, order, w), seqNum))
    ensures Renumber(EncodeAll(FullPackets(0, order, w)), seqNum)
            == EncodeAll(WithSeqNum(FullPackets(0, order, w), seqNum))
  {
    hide EncodeAll, Renumber, FullPackets, WellFramed, Cut;
    FullIsFragmented(0, order, w);
    var ps := FullPackets(0, order, w);
    RenumberEncoded(ps, seqNum);
    forall p | p in WithSeqNum(ps, seqNum) ensures 1 <= |p.cells| <= MAX_CELLS {
      var i :| 0 <= i < |ps| && WithSeqNum(ps, seqNum)[i] == p;
      assert ps[i] in ps;
    }
    CutEncoded(WithSeqNum(ps, seqNum));
  }

  lemma FreshSnapshotIsMirror(w: WorldV, order: seq<Coord>, seqNum: u32)
    requires Enumerates(order, w) && Sparse(w) && forall c | c in order :: FitsCoord(c)
    ensures FreshFromSnapshot(w, order, seqNum) == MirrorOf(Abs(w))
  {
    hide EncodeAll, Renumber, FullPackets, WellFramed, Cut, ReceiveAll, ApplyPackets, MirrorOf, Abs, FitsCoord, Sparse;
    SnapshotIsWellFramed(w, order, seqNum);
    var ps := FullPackets(0, order, w);
    WireIsTransparent(map[], WithSeqNum(ps, seqNum));
    RenumberingIsInvisible(map[], ps, seqNum);
    SnapshotForFreshClient(w, 0, order);
  }

  /**
   A client joins at state s but is served the snapshot cached later, after the events in skipped.
   It then receives the deltas of skipped as well as of rest: at the end it shows the server's plane,
   although the first deltas replayed older states of some cells.
   */
  lemma LateSnapshotConverges(s: ServerV, n: u32, skipped: seq<Event>, rest: seq<Event>,
                              orders: seq<seq<Coord>>, more: seq<seq<Coord>>, order: seq<Coord>, seqNum: u32)
    requires ValidServer(s) && GoodOrders(s, skipped, orders) && GoodOrders(RunV(s, skipped), rest, more)
    requires Enumerates(order, RunV(s, skipped).world) && Sparse(RunV(s, skipped).world)
    requires forall c | c in order :: FitsCoord(c)
    ensures GoodOrders(s, skipped + rest, orders + more)
    ensures Feed(FreshFromSnapshot(RunV(s, skipped).world, order, seqNum), s, n, skipped + rest, orders + more)
            == MirrorOf(Abs(RunV(s, skipped + rest).world))
  {
    hide Feed, RunV, GoodOrders, MirrorOf, Abs, FreshFromSnapshot, Sparse, FitsCoord;
    var late := RunV(s, skipped);
    FreshSnapshotIsMirror(late.world, order, seqNum);
    var m := MirrorOf(Abs(late.world));
    StaleDeltasAreHarmless(s, n, skipped, orders);
    FeedAppend(m, s, n, skipped, rest, orders, more);
    DeltasKeepMirror(late, Broadcasts(n, skipped), rest, more);
    RunVAppend(s, skipped, rest);
  }
}
