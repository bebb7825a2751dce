/**
 A run, on the best of networks, after which a client shows a cell for good that is long dead: the
 snapshot it is served in place of the delta with the death says nothing about a chunk without live
 cells.
 */
module GhostCells {
  import opened Types
  import opened Plane
  import opened Coordinates
  import opened WorldSpec
  import opened Reference
  import opened LightCone
  import opened Serializer
  import opened Client
  import opened Server
  import opened Mirroring
  import opened Snapshots
  import opened Agreement
  import opened ClosedLoop
  import opened Lockstep
  import Chunks
  import Replication

  const ME: PlayerId := 1
  const STAYS: Pos := Pos(5, 5)
  const LEAVES: Pos := Pos(100, 5)

  function Placing(p: Pos): PlayerCommand {
    PlayerCommand(ME, PlaceCell, p.x, p.y)
  }

  /** A new server with one player, whose client has just connected. */
  ghost function Connected(): (k: Loop)
    ensures Idle(k)
  {
    Loop(ServerV(map[], map[ME := START_BALANCE]), false, 0, Snapshot(map[], []), [], 0, true, [], map[], None, 0)
  }

  function Mine(): CellState {
    CellState(true, ME)
  }

  lemma FirstTick(s: State)
    requires s == State(map[], map[ME := START_BALANCE])
    ensures var t := Next(s, Tick([Placing(STAYS), Placing(LEAVES)]));
            t.plane == map[STAYS := Mine(), LEAVES := Mine()] && CanPay(t.balances, ME, PLACE_COST)
  {
    hide LifeStep, Income;
    LonelyCellsDie(map[]);
    var a := Apply(s, Placing(STAYS));
    assert a == State(map[STAYS := Mine()], map[ME := 8]);
    var b := Apply(a, Placing(LEAVES));
    assert b == State(map[STAYS := Mine(), LEAVES := Mine()], map[ME := 6]);
    assert [Placing(STAYS), Placing(LEAVES)][1..] == [Placing(LEAVES)];
    assert ApplyAll(s, [Placing(STAYS), Placing(LEAVES)]) == b by {
      assert ApplyAll(a, [Placing(LEAVES)]) == ApplyAll(b, []);
    }
  }

  lemma SecondTick(s: State)
    requires s.plane == map[STAYS := Mine(), LEAVES := Mine()] && CanPay(s.balances, ME, PLACE_COST)
    ensures Next(s, Tick([Placing(STAYS)])).plane == map[STAYS := Mine()]
  {
    hide LifeStep, Income, Award;
    LonelyCellsDie(s.plane);
    var a := State(map[], s.balances);
    assert ApplyAll(a, [Placing(STAYS)]) == ApplyAll(Apply(a, Placing(STAYS)), []);
  }

  lemma ThirdTick(s: State)
    requires s.plane == map[STAYS := Mine()]
    ensures Next(s, Tick([])).plane == map[]
  {
    hide LifeStep, Income, Award;
    LonelyCellsDie(s.plane);
  }

  /** A chunk of an empty plane has no live cells to send. */
  lemma NothingLive(w: WorldV, c: Coord)
    requires ValidWorld(w) && Abs(w) == map[] && c in w
    ensures Live(w[c]) == []
  {
    hide Abs, LiveEntries, Hit, Ascending;
    LiveEntriesFacts(w, c, Chunks.WIDTH * Chunks.WIDTH);
    if Live(w[c]) != [] {
      var e := Live(w[c])[0];
      var l := Local(e.x, e.y);
      assert e in Live(w[c]);
      GetIsWorldAt(w, c, l);
      AbsAt(w, CellPos(c, l));
      assert false;
    }
  }

  /** A snapshot of an empty plane leaves every cell of the client as it was. */
  lemma SnapshotOfNothing(m: Mirror, w: WorldV, order: seq<Coord>, p: Pos)
    requires Sendable(w, order) && Abs(w) == map[]
    ensures OwnerAt(ApplyPackets(m, FullPackets(0, order, w)), p) == OwnerAt(m, p)
  {
    hide Abs, ApplyPackets, FullPackets, FitsCoord, LiveEntries;
    FullShows(m, w, 0, order, p);
    if Home(p) in w { NothingLive(w, Home(p)); }
  }

  lemma PlanesShow(w: WorldV, p: Pos)
    requires ValidWorld(w)
    ensures Shown(w, p) == OwnerAt(MirrorOf(Abs(w)), p)
  {
    hide Abs, MirrorOf, Shown;
    MirrorShows(w, p);
  }

  /** Both cells are placed, and the client is served a snapshot. */
  lemma FirstRound(a: Round)
    requires a.batch == [Placing(STAYS), Placing(LEAVES)] && Ready(Connected(), a)
    ensures var k := PlayRound(Connected(), a);
            && Idle(k) && !k.needsFull
            && Abs(k.server.world) == map[STAYS := Mine(), LEAVES := Mine()]
            && CanPay(k.server.balances, ME, PLACE_COST)
  {
    hide Ready, PlayRound, TickV, Abs, Next, Shown, Dirty, ApplyPackets, FullPackets, RoundDelta, Income, Successor;
    var k := Connected();
    EmptyServer();
    RoundGame(k, a);
    FirstTick(AbsServer(k.server));
    PlanesShow(k.server.world, STAYS);
    RoundSends(k, a, STAYS);
    RoundOutcome(k, a);
  }

  lemma EmptyServer()
    ensures AbsServer(Connected().server) == State(map[], map[ME := START_BALANCE])
  {
    assert AllCells(map[]) == {};
  }

  lemma CommandIsListed(s: ServerV, p: Pos)
    requires ValidServer(s) && InRange(p.x) && InRange(p.y)
    ensures Dirty(TickV(s, [Placing(p)]).world, p)
  {
    hide TickV, Dirty, Wrap, InRange, Abs, LifeStep;
    WrapIsIdentityInRange(p.x);
    WrapIsIdentityInRange(p.y);
    Replication.TickListsExactly(s, [Placing(p)], p);
    assert [Placing(p)][0] == Placing(p);
  }

  /** Both cells die and one is placed again: two packets, hence a request. */
  lemma SecondRound(k: Loop, b: Round)
    requires Idle(k) && !k.needsFull && b.batch == [Placing(STAYS)] && Ready(k, b)
    requires Abs(k.server.world) == map[STAYS := Mine(), LEAVES := Mine()] && CanPay(k.server.balances, ME, PLACE_COST)
    ensures var k' := PlayRound(k, b);
            && Idle(k') && k'.needsFull && Abs(k'.server.world) == map[STAYS := Mine()]
            && OwnerAt(k'.mirror, STAYS) == ME
  {
    hide Ready, PlayRound, TickV, Abs, Next, Shown, Dirty, ApplyPackets, RoundDelta, DeltaPackets, Successor;
    RoundGame(k, b);
    SecondTick(AbsServer(k.server));
    PlanesShow(k.server.world, LEAVES);
    RoundSends(k, b, LEAVES);
    CommandIsListed(k.server, STAYS);
    TwoChunksTwoPackets(k, b, STAYS, LEAVES);
    RoundOutcome(k, b);
    DeltaBrings(k, b, STAYS);
  }

  lemma DeltaBrings(k: Loop, b: Round, p: Pos)
    requires Valid(k) && Ready(k, b) && Dirty(TickV(k.server, b.batch).world, p)
    ensures OwnerAt(ApplyPackets(k.mirror, RoundDelta(k, b)), p) == Shown(TickV(k.server, b.batch).world, p)
  {
    hide TickV, Shown, ApplyPackets, DeltaPackets, FitsCoord;
    var w := TickV(k.server, b.batch).world;
    Replication.TickFits(k.server, b.batch);
    DeltaShows(k.mirror, w, Successor(k.broadcastSeq), b.order, p);
  }

  /** The cell dies, and the snapshot served in place of the delta does not say so. */
  lemma ThirdRound(k: Loop, c: Round)
    requires Idle(k) && k.needsFull && c.batch == [] && Ready(k, c)
    requires Abs(k.server.world) == map[STAYS := Mine()] && OwnerAt(k.mirror, STAYS) == ME
    ensures var k' := PlayRound(k, c);
            && Idle(k') && !k'.needsFull && Abs(k'.server.world) == map[]
            && OwnerAt(k'.mirror, STAYS) == ME && !Dirty(k'.server.world, STAYS)
  {
    hide PlayRound, TickV, Abs, Next, Shown, Dirty, ApplyPackets, FullPackets, RoundDelta, FitsCoord, ExchangeFits,
      FlushAll;
    RoundGame(k, c);
    ThirdTick(AbsServer(k.server));
    PlanesShow(k.server.world, STAYS);
    RoundSends(k, c, STAYS);
    RoundOutcome(k, c);
    var w := TickV(k.server, []).world;
    Replication.TickFits(k.server, []);
    Replication.NextIsFlushedTick(k.server, []);
    FlushInvisible(w);
    FlushedCell(w, STAYS);
    SnapshotOfNothing(k.mirror, w, c.cached, STAYS);
  }

  lemma {:induction false} SomeOrder(w: WorldV, cs: set<Coord>) returns (order: seq<Coord>)
    requires ValidWorld(w) && cs <= w.Keys
    ensures Listed(order, w) && Distinct(order) && forall c :: c in order <==> c in cs
    decreases cs
  {
    if cs == {} {
      order := [];
    } else {
      var c :| c in cs;
      order := SomeOrder(w, cs - {c});
      order := order + [c];
    }
  }

  /** Cells and chunks lie within [-b, b]. */
  ghost predicate Nearby(k: Loop, b: int)
    requires Valid(k)
  {
    ChunksWithin(k.server.world, b) && Within(Abs(k.server.world), b)
  }

  /** A round with given commands that can be played, as long as nothing is far out. */
  lemma SomeRound(k: Loop, batch: seq<PlayerCommand>, b: int) returns (r: Round)
    requires Idle(k) && 0 <= b < 1000 && Nearby(k, b)
    requires forall j | 0 <= j < |batch| :: Near(Pos(batch[j].x, batch[j].y), b)
    ensures Ready(k, r) && r.batch == batch && Nearby(PlayRound(k, r), b + 1)
  {
    hide TickV, Abs, ChunksWithin, Within, Near, FlushAll, PlayRound, ApplyPackets, DeltaPackets, FullPackets,
      ExchangeFits;
    var w := TickV(k.server, batch).world;
    var order := SomeOrder(w, w.Keys);
    r := Round(batch, order, order);
    WithinFits(k.server.world, b);
    RoundOutcome(k, r);
    Replication.NextIsFlushedTick(k.server, batch);
    TickStaysWithin(k.server, batch, b);
  }

  /**
   The player places two cells in different chunks, which both die; the player places one of them
   again, which takes two packets, so the client asks for a snapshot; the cell dies, and the snapshot,
   empty by now, is served in place of its death. Nothing was lost, nothing is under way, no cell is
   alive, and the client shows one.
   */
  lemma GhostSurvives() returns (rounds: seq<Round>)
    ensures Playable(Connected(), rounds) && |rounds| == 3
    ensures rounds[0].batch == [Placing(STAYS), Placing(LEAVES)]
    ensures rounds[1].batch == [Placing(STAYS)] && rounds[2].batch == []
    ensures var k := PlayRounds(Connected(), rounds);
            && Idle(k) && !k.needsFull && Abs(k.server.world) == map[]
            && OwnerAt(k.mirror, STAYS) == ME && !Dirty(k.server.world, STAYS)
  {
    hide Ready, PlayRound, Abs, Dirty, Nearby;
    NearbyAtFirst();
    var a := SomeRound(Connected(), [Placing(STAYS), Placing(LEAVES)], 100);
    FirstRound(a);
    var k1 := PlayRound(Connected(), a);
    var b := SomeRound(k1, [Placing(STAYS)], 101);
    SecondRound(k1, b);
    var k2 := PlayRound(k1, b);
    var c := SomeRound(k2, [], 102);
    ThirdRound(k2, c);
    rounds := [a, b, c];
    ThreeRounds(Connected(), a, b, c);
  }

  lemma NearbyAtFirst()
    ensures Nearby(Connected(), 100)
  {
    assert AllCells(map[]) == {};
  }

  lemma ThreeRounds(k: Loop, a: Round, b: Round, c: Round)
    requires Valid(k) && Ready(k, a) && Ready(PlayRound(k, a), b) && Ready(PlayRound(PlayRound(k, a), b), c)
    ensures Playable(k, [a, b, c])
    ensures PlayRounds(k, [a, b, c]) == PlayRound(PlayRound(PlayRound(k, a), b), c)
  {
    hide Valid, Ready, PlayRound;
    var k1 := PlayRound(k, a);
    var k2 := PlayRound(k1, b);
    var k3 := PlayRound(k2, c);
    assert [a, b, c][1..] == [b, c] && [b, c][1..] == [c] && [c][1..] == [];
    assert Playable(k3, []) && PlayRounds(k3, []) == k3;
    assert Playable(k2, [c]) && PlayRounds(k2, [c]) == k3;
    assert Playable(k1, [b, c]) && PlayRounds(k1, [b, c]) == k3;
  }

  /** On an empty plane a tick without commands lists nothing. */
  lemma EmptyTickListsNothing(s: ServerV, p: Pos)
    requires ValidServer(s) && Abs(s.world) == map[] && !Dirty(s.world, p)
    ensures Abs(TickV(s, []).world) == map[] && !Dirty(TickV(s, []).world, p)
  {
    hide Abs, StepWorld, LifeStep, Award, Income, Dirty, WorldAt;
    TickRefinesLife(s.world);
    LonelyCellsDie(map[]);
    AbsAt(s.world, p);
    AbsAt(StepWorld(s.world), p);
    Replication.StepListsChanges(s.world, p);
  }

  /** From then on a round without commands leaves the client as it is. */
  lemma GhostStaysOneRound(k: Loop, r: Round, p: Pos)
    requires Idle(k) && Abs(k.server.world) == map[] && !Dirty(k.server.world, p)
    requires Ready(k, r) && r.batch == []
    ensures var k' := PlayRound(k, r);
            && Idle(k') && Abs(k'.server.world) == map[] && !Dirty(k'.server.world, p)
            && OwnerAt(k'.mirror, p) == OwnerAt(k.mirror, p)
  {
    hide PlayRound, TickV, Abs, Shown, Dirty, ApplyPackets, FullPackets, DeltaPackets, FitsCoord, ExchangeFits,
      FlushAll;
    var w := TickV(k.server, []).world;
    RoundOutcome(k, r);
    EmptyTickListsNothing(k.server, p);
    FlushInvisible(w);
    FlushedCell(w, p);
    Replication.TickFits(k.server, []);
    SnapshotOfNothing(k.mirror, w, r.cached, p);
    DeltaShows(k.mirror, w, Successor(k.broadcastSeq), r.order, p);
  }

  /** And so does any number of them. */
  lemma {:induction false} GhostStays(k: Loop, rounds: seq<Round>, p: Pos)
    requires Idle(k) && Abs(k.server.world) == map[] && !Dirty(k.server.world, p)
    requires Playable(k, rounds) && forall i | 0 <= i < |rounds| :: rounds[i].batch == []
    ensures OwnerAt(PlayRounds(k, rounds).mirror, p) == OwnerAt(k.mirror, p)
    ensures Abs(PlayRounds(k, rounds).server.world) == map[]
    decreases |rounds|
  {
    hide Valid, Quiet, Ready, PlayRound, Abs, Dirty;
    if rounds != [] {
      GhostStaysOneRound(k, rounds[0], p);
      GhostStays(PlayRound(k, rounds[0]), rounds[1..], p);
    }
  }
}
