/** The chunked, replicated server as a player experiences it, over whole runs. */
module EndToEnd {
  import opened Types
  import opened Plane
  import opened Coordinates
  import opened WorldSpec
  import opened Reference
  import opened Economy
  import opened LightCone
  import opened Translation
  import Codec
  import Packets
  import StatsStream
  import Serializer
  import Client
  import opened Server
  import opened Mirroring
  import opened Replication
  import opened PendingEdits
  import opened Agreement
  import opened ClosedLoop
  import opened WireLoop

  const START: ServerV := ServerV(map[], map[])
  const NEW_GAME: State := State(map[], map[])

  lemma StartIsNewGame()
    ensures ValidServer(START) && AbsServer(START) == NEW_GAME
  {
    assert AllCells(map[]) == {};
  }

  // ---------------------------------------------------------------- on the server

  lemma WrappedPlayersNonzero(es: seq<Event>)
    requires NonzeroEvents(es)
    ensures NonzeroEvents(WrapEvents(es))
    ensures forall id :: Join(id) in WrapEvents(es) <==> Join(id) in es
  {
    forall i | 0 <= i < |es| && es[i].Tick? ensures NonzeroPlayers(WrapEvents(es)[i].batch) {
      forall j | 0 <= j < |es[i].batch| ensures WrapEvents(es)[i].batch[j].player != 0 {
        assert es[i].batch[j].player != 0;
      }
    }
    forall id ensures Join(id) in WrapEvents(es) <==> Join(id) in es {
      if Join(id) in es {
        var i :| 0 <= i < |es| && es[i] == Join(id);
        assert WrapEvents(es)[i] == Join(id);
      }
      if Join(id) in WrapEvents(es) {
        var i :| 0 <= i < |es| && WrapEvents(es)[i] == Join(id);
        assert es[i] == Join(id);
      }
    }
  }

  /** With nonzero player ids the chunked world stays well formed for ever, and accounts come from joins. */
  lemma ServerStaysWellFormed(s: ServerV, es: seq<Event>)
    requires ValidServer(s) && RunFits(s, es) && WellFormed(AbsServer(s)) && NonzeroEvents(es)
    ensures WellFormed(AbsServer(RunV(s, es)))
    ensures forall id | id in RunV(s, es).balances :: id in s.balances || Join(id) in es
  {
    hide WellFormed, Run, RunV, RunFits, WrapEvents, Abs;
    RunRefines(s, es);
    WrappedPlayersNonzero(es);
    RunKeepsWellFormed(AbsServer(s), WrapEvents(es));
  }

  /** The books of the chunked server balance over every run, wherever the commands really land. */
  lemma ServerLedger(s: ServerV, es: seq<Event>, id: PlayerId)
    requires ValidServer(s) && RunFits(s, es) && WellFormed(AbsServer(s)) && NonzeroEvents(es)
    requires id != 0 && Join(id) !in es
    ensures var r, fs := AbsServer(s), WrapEvents(es);
            Balance(RunV(s, es).balances, id) + 2 * RunPlaced(r, fs, id)
            == Balance(s.balances, id) + RunIncome(r, fs, id) + RunRemoved(r, fs, id)
  {
    hide WellFormed, Run, RunV, RunFits, WrapEvents, Abs, RunPlaced, RunIncome, RunRemoved;
    RunRefines(s, es);
    WrappedPlayersNonzero(es);
    RunLedger(AbsServer(s), WrapEvents(es), id);
  }

  /** Shifting every command by any vector, not just by whole chunks, shifts what the server shows. */
  lemma ServerIsTranslationInvariant(s: ServerV, t: ServerV, es: seq<Event>, d: Pos)
    requires ValidServer(s) && ValidServer(t) && AbsServer(t) == MoveState(AbsServer(s), d)
    requires RunFits(s, es) && RunFits(t, MoveEvents(es, d))
    requires EventsInRange(es) && EventsInRange(MoveEvents(es, d))
    ensures AbsServer(RunV(t, MoveEvents(es, d))) == MoveState(AbsServer(RunV(s, es)), d)
  {
    hide Run, RunV, RunFits, MoveEvents, MoveState, Abs, EventsInRange;
    GridIsInvisible(s, es);
    GridIsInvisible(t, MoveEvents(es, d));
    AbsAt(s.world, d);
    RunIsTranslationInvariant(AbsServer(s), es, d);
  }

  /** The commands of a queue of edits, as the chunked server carries them out. */
  ghost function Edited(s: ServerV, me: PlayerId, edits: Pending, order: seq<Pos>): ServerV
    requires ValidServer(s) && forall p | p in order :: p in edits
  {
    CommandsV(s, CommandsFor(me, edits, order))
  }

  lemma EditedRefines(s: ServerV, me: PlayerId, edits: Pending, order: seq<Pos>)
    requires ValidServer(s) && OrderOf(order, edits) && forall p | p in edits :: InRange(p.x) && InRange(p.y)
    ensures AbsServer(Edited(s, me, edits, order)) == ApplyAll(AbsServer(s), CommandsFor(me, edits, order))
  {
    hide AbsServer, CommandsV, ApplyAll, WrapBatch, InRange;
    CommandsRefine(s, CommandsFor(me, edits, order));
    WrapNothing(CommandsFor(me, edits, order));
  }

  /**
   On the chunked server: every edit of a queue admitted by a client in sync is accepted, whatever
   order the queue is sent in, and all orders lead to the same plane and the same balances.
   */
  lemma ServerAcceptsAdmittedQueue(s: ServerV, mirror: Client.Mirror, me: PlayerId, balance: Option<nat>,
                                   edits: Pending, order: seq<Pos>, other: seq<Pos>)
    requires ValidServer(s) && forall p | p in edits :: InRange(p.x) && InRange(p.y)
    requires InSync(AbsServer(s), mirror, me, balance) && Admitted(edits, mirror, me, balance)
    requires OrderOf(order, edits) && OrderOf(other, edits)
    ensures Expected(AbsServer(s), AbsServer(Edited(s, me, edits, order)), me, edits.Keys)
    ensures AbsServer(Edited(s, me, edits, order)) == AbsServer(Edited(s, me, edits, other))
  {
    hide InSync, Admitted, Expected, AbsServer, ApplyAll, Edited, InRange;
    EditedRefines(s, me, edits, order);
    EditedRefines(s, me, edits, other);
    AdmittedQueueIsAccepted(AbsServer(s), mirror, me, balance, edits, order);
    OrderDoesNotMatter(AbsServer(s), mirror, me, balance, edits, order, other);
  }

  // ---------------------------------------------------------------- the statistics

  /**
   What the statistics of a tick tell a client: the accounts in ascending order, each with its balance
   and, for a nonzero id, the number of its live cells on the plane. An account is missing only if there
   are 65535 with smaller ids.
   */
  lemma ReportTellsTheGame(payload: seq<Codec.byte>, n: Packets.u32, s: ServerV, id: PlayerId)
    requires ValidServer(s) && StatsStream.Reports(payload, n, s.balances, Income(Abs(s.world)))
    ensures StatsStream.TryParse(payload).0.Some?
    ensures var report := StatsStream.TryParse(payload).0.value;
            var players := report.players;
            && report.generation == n && StatsStream.TryParse(payload).1 == []
            && (forall i, j | 0 <= i < j < |players| :: players[i].id < players[j].id)
            && (forall i | 0 <= i < |players| :: players[i].id in s.balances)
            && (id in s.balances && |set j | j in s.balances && j < id| < 65535 ==>
                  exists i :: 0 <= i < |players| && players[i].id == id)
            && forall i | 0 <= i < |players| && players[i].id == id ::
                 && players[i].balance == s.balances[id]
                 && (id != 0 ==>
                       players[i].liveCells
                       == |set p | p in Abs(s.world) && Abs(s.world)[p].alive && Abs(s.world)[p].owner == id|)
  {
    hide Abs, Income, StatsStream.TryParse;
    var players := StatsStream.TryParse(payload).0.value.players;
    if id != 0 { IncomeIsLiveCells(Abs(s.world), id); }
    forall i | 0 <= i < |players|
      ensures StatsStream.EntryOf(players[i], s.balances, Income(Abs(s.world)))
    {
    }
    if id in s.balances {
      StatsStream.ReportListsSmallest(players, s.balances, Income(Abs(s.world)), id);
      assert StatsStream.SmallerThan(s.balances, id) == set j | j in s.balances && j < id;
    }
  }

  // ---------------------------------------------------------------- at the client

  /** One enumeration of the chunks for every tick, in whatever order the hash map yields. */
  ghost predicate AnyOrders(s: ServerV, es: seq<Event>, orders: seq<seq<Coord>>)
    requires ValidServer(s)
    decreases |es|
  {
    && |orders| == |es|
    && (es != [] ==>
          && (es[0].Tick? ==> Serializer.Enumerates(orders[0], TickV(s, es[0].batch).world))
          && AnyOrders(NextV(s, es[0]), es[1..], orders[1..]))
  }

  lemma {:induction false} OrdersFit(s: ServerV, es: seq<Event>, orders: seq<seq<Coord>>, k: int)
    requires ValidServer(s) && AnyOrders(s, es, orders)
    requires 0 <= k && k + Ticks(es) < 0x20_0000_0000 - 128
    requires ChunksWithin(s.world, k) && Within(Abs(s.world), k) && CommandsWithin(es, k)
    ensures GoodOrders(s, es, orders)
    decreases |es|
  {
    hide Abs, CoordWithin, Near, TickV, Serializer.Enumerates, Within;
    if es != [] {
      var t := NextV(s, es[0]);
      assert CommandsWithin(es[1..], k);
      if es[0].Tick? {
        var batch := es[0].batch;
        TickStaysWithin(s, batch, k);
        WidenCommands(es[1..], k);
        TickOrderFits(s, batch, orders[0], k + 1);
        OrdersFit(t, es[1..], orders[1..], k + 1);
      } else {
        OrdersFit(t, es[1..], orders[1..], k);
      }
    }
  }

  lemma TickOrderFits(s: ServerV, batch: seq<PlayerCommand>, order: seq<Coord>, k: int)
    requires ValidServer(s) && Serializer.Enumerates(order, TickV(s, batch).world)
    requires 0 <= k < 0x20_0000_0000 - 128 && ChunksWithin(NextV(s, Tick(batch)).world, k)
    ensures GoodOrder(s, batch, order)
  {
    hide TickV, NextV, Serializer.Distinct;
    NextIsFlushedTick(s, batch);
    assert FlushAll(TickV(s, batch).world).Keys == TickV(s, batch).world.Keys;
    forall c | c in order ensures FitsCoord(c) { assert CoordWithin(c, k); }
  }

  /**
   A client that is present from the start and served the delta in every tick shows after any run
   exactly the cells of the chunkless game, if commands stay within [-k, k] with k plus the ticks below
   2^37 - 128.
   */
  lemma DeltasShowTheGame(es: seq<Event>, orders: seq<seq<Coord>>, n: Packets.u32, k: int)
    requires ValidServer(START) && AnyOrders(START, es, orders)
    requires 0 <= k && k + Ticks(es) < 0x20_0000_0000 - 128 && CommandsWithin(es, k)
    ensures GoodOrders(START, es, orders)
    ensures Feed(map[], START, n, es, orders) == MirrorOf(Run(NEW_GAME, es).plane)
    ensures RunV(START, es).balances == Run(NEW_GAME, es).balances
  {
    hide AnyOrders, GoodOrders, Feed, Run, RunV, RunFits, Abs;
    StartIsNewGame();
    assert Abs(START.world) == map[];
    OrdersFit(START, es, orders, k);
    DeltasKeepMirror(START, n, es, orders);
    assert MirrorOf(map[]) == map[];
    WithinIsInRange(es, k);
    ChunkCoordinatesNeverOverflow(START, es, k);
    GridIsInvisible(START, es);
  }

  lemma WithinIsInRange(es: seq<Event>, k: int)
    requires CommandsWithin(es, k) && k < 0x20_0000_0000
    ensures EventsInRange(es)
  {
    forall i, j | 0 <= i < |es| && es[i].Tick? && 0 <= j < |es[i].batch|
      ensures InRange(es[i].batch[j].x) && InRange(es[i].batch[j].y)
    {
      assert Near(Pos(es[i].batch[j].x, es[i].batch[j].y), k);
    }
  }

  /** A new server, and a client that has just connected to it. */
  const NEW_LOOP: Loop := Loop(START, false, 0, Snapshot(map[], []), [], 0, true, [], map[], None, 0)

  lemma NewLoopIsOnTrack()
    ensures Sound(NEW_LOOP) && AllOnTrack(NEW_LOOP) && Flushed(NEW_LOOP)
    ensures FlushServer(START) == START
  {
    assert ApplyPackets(map[], []) == map[];
  }

  /**
   Server, session and client from the start, over any run of the closed loop, in bytes: the server
   plays the chunkless game; the client is on track all along if and only if every snapshot it is
   served suits it; and then, whenever everything sent has arrived, it shows exactly the cells of the
   game: through chunks, borders, dirty lists, fragments, datagrams and late snapshots.
   */
  lemma ClientShowsTheGame(steps: seq<Step>)
    requires Possible(NEW_LOOP, steps) && EventsInRange(EventsOf(steps))
    ensures CanRun(OnWire(NEW_LOOP), steps)
    ensures var k, x := RunLoop(NEW_LOOP, steps), RunWire(OnWire(NEW_LOOP), steps);
            var game := Run(NEW_GAME, EventsOf(steps));
            && Abs(k.server.world) == game.plane && k.server.balances == game.balances
            && x.server == k.server && x.mirror == k.mirror
            && (AlwaysOnTrack(NEW_LOOP, steps) <==> SnapshotsSuit(NEW_LOOP, steps))
            && (SnapshotsSuit(NEW_LOOP, steps) && Quiet(k) ==> x.mirror == MirrorOf(game.plane))
  {
    hide Sound, AllOnTrack, Possible, RunLoop, RunWire, CanRun, EventsOf, Run, RunV, RunFits, Abs, MirrorOf,
      SnapshotsSuit, AlwaysOnTrack, Flushed, FlushServer, EventsInRange;
    NewLoopIsOnTrack();
    StartIsNewGame();
    OnTrackExactly(NEW_LOOP, steps);
    LoopOnWire(NEW_LOOP, steps);
    LoopPlaysTheGame(NEW_LOOP, steps);
    GridIsInvisible(START, EventsOf(steps));
    var k := RunLoop(NEW_LOOP, steps);
    if SnapshotsSuit(NEW_LOOP, steps) && Quiet(k) { QuietMirror(k); }
  }

  /** What the mirror shows of a player is the income the server pays them next. */
  lemma MirrorCountsIncome(m: Plane, id: PlayerId)
    requires id != 0
    ensures |set p | p in MirrorOf(m) && MirrorOf(m)[p] == id| == |OwnedBy(m, id)|
  {
    assert (set p | p in MirrorOf(m) && MirrorOf(m)[p] == id) == OwnedBy(m, id);
  }
}
