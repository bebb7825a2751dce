/**
 The server as a value: the chunked world plus the balances, driven by the same events as the
 chunkless reference machine, and the proof that no run can tell the two apart.
 */
module Server {
  import opened Types
  import opened Plane
  import opened Chunks
  import opened Coordinates
  import opened WorldSpec
  import opened Reference
  import opened LightCone

  datatype ServerV = ServerV(world: WorldV, balances: Balances)

  ghost predicate ValidServer(s: ServerV) {
    ValidWorld(s.world)
  }

  /** One command: find or create its chunk, edit the cell, and list it as dirty in any case. */
  ghost function CommandV(s: ServerV, cmd: PlayerCommand): (r: ServerV)
    requires ValidServer(s)
    ensures ValidServer(r)
  {
    var c, l := CommandChunk(cmd.x, cmd.y), CommandLocal(cmd.x, cmd.y);
    var w := AddChunks(s.world, {c});
    var o := Edit(w[c].Get(l.x, l.y), cmd.player, cmd.kind, s.balances);
    ServerV(w[c := SetCellV(w[c], l.x, l.y, o.cell)], o.balances)
  }

  ghost function CommandsV(s: ServerV, cmds: seq<PlayerCommand>): (r: ServerV)
    requires ValidServer(s)
    ensures ValidServer(r)
    decreases |cmds|
  {
    if cmds == [] then s else CommandsV(CommandV(s, cmds[0]), cmds[1..])
  }

  ghost function PlayV(s: ServerV, batch: seq<PlayerCommand>): (r: ServerV)
    requires ValidServer(s)
    ensures ValidServer(r)
  {
    CommandsV(ServerV(StepWorld(s.world), s.balances), batch)
  }

  /** A tick before its changes are sent out. */
  ghost function TickV(s: ServerV, batch: seq<PlayerCommand>): (r: ServerV)
    requires ValidServer(s)
    ensures ValidServer(r)
  {
    var t := PlayV(s, batch);
    ServerV(t.world, Award(t.balances, Income(Abs(t.world))))
  }

  ghost function FlushServer(s: ServerV): (r: ServerV)
    requires ValidServer(s)
    ensures ValidServer(r)
  {
    ServerV(FlushAll(s.world), s.balances)
  }

  ghost function NextV(s: ServerV, e: Event): (r: ServerV)
    requires ValidServer(s)
    ensures ValidServer(r)
  {
    match e
    case Join(id) => ServerV(s.world, s.balances[id := START_BALANCE])
    case Tick(batch) => FlushServer(TickV(s, batch))
  }

  ghost function RunV(s: ServerV, es: seq<Event>): (r: ServerV)
    requires ValidServer(s)
    ensures ValidServer(r)
    decreases |es|
  {
    if es == [] then s else RunV(NextV(s, es[0]), es[1..])
  }

  ghost function AbsServer(s: ServerV): State
    requires ValidServer(s)
  {
    State(Abs(s.world), s.balances)
  }

  // ---------------------------------------------------------------- commands

  /** The command the 32-bit chunk coordinates really address. */
  function WrapCommand(c: PlayerCommand): PlayerCommand {
    PlayerCommand(c.player, c.kind, Wrap(c.x), Wrap(c.y))
  }

  function WrapBatch(cmds: seq<PlayerCommand>): (r: seq<PlayerCommand>)
    ensures |r| == |cmds|
    ensures forall i | 0 <= i < |cmds| :: r[i] == WrapCommand(cmds[i])
  {
    seq(|cmds|, i requires 0 <= i < |cmds| => WrapCommand(cmds[i]))
  }

  function WrapEvent(e: Event): Event {
    match e
    case Join(id) => Join(id)
    case Tick(batch) => Tick(WrapBatch(batch))
  }

  function WrapEvents(es: seq<Event>): (r: seq<Event>)
    ensures |r| == |es|
    ensures forall i | 0 <= i < |es| :: r[i] == WrapEvent(es[i])
  {
    seq(|es|, i requires 0 <= i < |es| => WrapEvent(es[i]))
  }

  lemma SetCellAt(w: WorldV, c: Coord, l: Local, cell: CellState, p: Pos)
    requires ValidWorld(w) && c in w && l.x < WIDTH && l.y < WIDTH
    ensures WorldAt(w[c := SetCellV(w[c], l.x, l.y, cell)], p)
            == if p == CellPos(c, l) then cell else WorldAt(w, p)
  {
    SplitJoin(p, c, l);
    var m := LocalOf(p);
    if Home(p) == c && m != l {
      if Index(m.x + 1, m.y + 1) == Index(l.x + 1, l.y + 1) {
        IndexInjective(m.x + 1, m.y + 1, l.x + 1, l.y + 1);
      }
    }
  }

  lemma CommandRefines(s: ServerV, cmd: PlayerCommand)
    requires ValidServer(s)
    ensures AbsServer(CommandV(s, cmd)) == Apply(AbsServer(s), WrapCommand(cmd))
  {
    hide Abs, WorldAt, Edit, Wrap, AddChunks, SetCellV, CommandChunk, CommandLocal, CellPos, Put;
    var c, l := CommandChunk(cmd.x, cmd.y), CommandLocal(cmd.x, cmd.y);
    var p := Pos(Wrap(cmd.x), Wrap(cmd.y));
    CommandWraps(cmd.x, cmd.y);
    var w := AddChunks(s.world, {c});
    GetIsWorldAt(w, c, l);
    AbsAt(s.world, p);
    AddChunksInvisible(s.world, {c}, p);
    var o := Edit(At(Abs(s.world), p), cmd.player, cmd.kind, s.balances);
    var w' := w[c := SetCellV(w[c], l.x, l.y, o.cell)];
    forall q ensures WorldAt(w', q) == At(Put(Abs(s.world), p, o.cell), q) {
      SetCellAt(w, c, l, o.cell, q);
      AddChunksInvisible(s.world, {c}, q);
      AbsAt(s.world, q);
    }
    AbsEqual(w', Put(Abs(s.world), p, o.cell));
  }

  lemma GetIsWorldAt(w: WorldV, c: Coord, l: Local)
    requires ValidWorld(w) && c in w && l.x < WIDTH && l.y < WIDTH
    ensures w[c].Get(l.x, l.y) == WorldAt(w, CellPos(c, l))
  {
    SplitJoin(CellPos(c, l), c, l);
  }

  lemma {:induction false} CommandsRefine(s: ServerV, cmds: seq<PlayerCommand>)
    requires ValidServer(s)
    ensures AbsServer(CommandsV(s, cmds)) == ApplyAll(AbsServer(s), WrapBatch(cmds))
    decreases |cmds|
  {
    hide AbsServer, CommandV, Apply, WrapCommand;
    if cmds != [] {
      CommandRefines(s, cmds[0]);
      CommandsRefine(CommandV(s, cmds[0]), cmds[1..]);
      assert WrapBatch(cmds)[1..] == WrapBatch(cmds[1..]);
    }
  }

  // ---------------------------------------------------------------- whole runs

  lemma FlushInvisible(w: WorldV)
    requires ValidWorld(w)
    ensures Abs(FlushAll(w)) == Abs(w)
  {
    hide Abs;
    forall p ensures WorldAt(FlushAll(w), p) == At(Abs(w), p) { AbsAt(w, p); }
    AbsAt(w, Pos(0, 0));
    AbsEqual(FlushAll(w), Abs(w));
  }

  lemma PlayRefines(s: ServerV, batch: seq<PlayerCommand>)
    requires ValidServer(s)
    ensures AbsServer(PlayV(s, batch)) == Play(AbsServer(s), WrapBatch(batch))
  {
    hide Abs, StepWorld, LifeStep, CommandsV, WrapBatch;
    TickRefinesLife(s.world);
    CommandsRefine(ServerV(StepWorld(s.world), s.balances), batch);
  }

  lemma NextRefines(s: ServerV, e: Event)
    requires ValidServer(s)
    ensures AbsServer(NextV(s, e)) == Next(AbsServer(s), WrapEvent(e))
  {
    hide Abs, PlayV, Play, WrapBatch, FlushAll, Award, Income;
    if e.Tick? {
      PlayRefines(s, e.batch);
      FlushInvisible(PlayV(s, e.batch).world);
    }
  }

  /** Before every tick of the run, the chunks' neighbour coordinates fit an int. */
  ghost predicate RunFits(s: ServerV, es: seq<Event>)
    requires ValidServer(s)
    decreases |es|
  {
    es != [] ==>
      && (es[0].Tick? ==> ExchangeFits(s.world))
      && RunFits(NextV(s, es[0]), es[1..])
  }

  /**
   For every run in which no int overflows, the chunked server shows the plane and the balances of the
   chunkless machine fed with the commands its 32-bit chunk coordinates address.
   */
  lemma {:induction false} RunRefines(s: ServerV, es: seq<Event>)
    requires ValidServer(s) && RunFits(s, es)
    ensures AbsServer(RunV(s, es)) == Run(AbsServer(s), WrapEvents(es))
    decreases |es|
  {
    hide AbsServer, NextV, Next, WrapEvent, ExchangeFits;
    if es != [] {
      NextRefines(s, es[0]);
      RunRefines(NextV(s, es[0]), es[1..]);
      assert WrapEvents(es)[1..] == WrapEvents(es[1..]);
    }
  }

  ghost predicate EventsInRange(es: seq<Event>) {
    forall i, j | 0 <= i < |es| && es[i].Tick? && 0 <= j < |es[i].batch| ::
      InRange(es[i].batch[j].x) && InRange(es[i].batch[j].y)
  }

  /** Commands in range reach the cells they name. */
  lemma WrapNothing(batch: seq<PlayerCommand>)
    requires forall j | 0 <= j < |batch| :: InRange(batch[j].x) && InRange(batch[j].y)
    ensures WrapBatch(batch) == batch
  {
    hide Wrap, InRange;
    forall j | 0 <= j < |batch| ensures WrapCommand(batch[j]) == batch[j] {
      WrapIsIdentityInRange(batch[j].x);
      WrapIsIdentityInRange(batch[j].y);
    }
  }

  /** Within the range of 32-bit chunk coordinates the chunk grid is invisible. */
  lemma GridIsInvisible(s: ServerV, es: seq<Event>)
    requires ValidServer(s) && RunFits(s, es) && EventsInRange(es)
    ensures AbsServer(RunV(s, es)) == Run(AbsServer(s), es)
  {
    hide AbsServer, RunV, Run, Wrap, RunFits;
    forall i | 0 <= i < |es| ensures WrapEvents(es)[i] == es[i] {
      if es[i].Tick? {
        WrapNothing(es[i].batch);
      }
    }
    assert WrapEvents(es) == es;
    RunRefines(s, es);
  }

  /** Chunks that happen to exist already, whatever their buffers hold, change nothing. */
  lemma ExtraChunksNeverMatter(s: ServerV, t: ServerV, es: seq<Event>)
    requires ValidServer(s) && ValidServer(t) && AbsServer(s) == AbsServer(t)
    requires RunFits(s, es) && RunFits(t, es)
    ensures AbsServer(RunV(s, es)) == AbsServer(RunV(t, es))
  {
    hide AbsServer, RunV, Run, WrapEvents, RunFits;
    RunRefines(s, es);
    RunRefines(t, es);
  }

  // ---------------------------------------------------------------- 32-bit chunk coordinates

  predicate CoordWithin(c: Coord, k: int) {
    -(k / WIDTH) - 2 <= c.x <= k / WIDTH + 1 && -(k / WIDTH) - 2 <= c.y <= k / WIDTH + 1
  }

  ghost predicate ChunksWithin(w: WorldV, k: int) {
    forall c | c in w :: CoordWithin(c, k)
  }

  lemma CoordWithinGrows(c: Coord, k: int)
    requires CoordWithin(c, k)
    ensures CoordWithin(c, k + 1)
  {
  }

  lemma MarginStaysWithin(w: WorldV, k: int)
    requires ValidWorld(w) && 0 <= k && ChunksWithin(w, k) && Within(Abs(w), k)
    ensures ChunksWithin(StepWorld(w), k)
  {
    hide Abs, CoordWithin, Changed;
    forall d | d in Margin(w) ensures CoordWithin(d, k) {
      var c :| c in w && HasLife(w[c]) && d in Neighbours(c);
      var x, y :| 0 <= x < WIDTH && 0 <= y < WIDTH && w[c].Get(x, y).alive;
      var p := CellPos(c, Local(x, y));
      GetIsWorldAt(w, c, Local(x, y));
      AbsAt(w, p);
      assert p in Abs(w);
      SplitJoin(p, c, Local(x, y));
      NeighbourOfNear(p, d, k);
    }
    assert StepWorld(w).Keys == w.Keys + Margin(w);
  }

  lemma NeighbourOfNear(p: Pos, d: Coord, k: int)
    requires Near(p, k) && 0 <= k && Adjacent(Home(p), d)
    ensures CoordWithin(d, k)
  {
  }

  lemma {:induction false} CommandsStayWithin(s: ServerV, cmds: seq<PlayerCommand>, k: int)
    requires ValidServer(s) && 0 <= k < 0x20_0000_0000 && ChunksWithin(s.world, k)
    requires forall j | 0 <= j < |cmds| :: Near(Pos(cmds[j].x, cmds[j].y), k)
    ensures ChunksWithin(CommandsV(s, cmds).world, k)
    decreases |cmds|
  {
    hide CoordWithin, Near, CommandChunk, Edit, SetCellV;
    if cmds != [] {
      assert Near(Pos(cmds[0].x, cmds[0].y), k);
      CommandChunkWithin(cmds[0], k);
      assert CommandV(s, cmds[0]).world.Keys == s.world.Keys + {CommandChunk(cmds[0].x, cmds[0].y)};
      CommandsStayWithin(CommandV(s, cmds[0]), cmds[1..], k);
    }
  }

  lemma CommandChunkWithin(cmd: PlayerCommand, k: int)
    requires 0 <= k < 0x20_0000_0000 && Near(Pos(cmd.x, cmd.y), k)
    ensures CoordWithin(CommandChunk(cmd.x, cmd.y), k)
  {
    ServerCoordinatesAreFloor(cmd.x);
    ServerCoordinatesAreFloor(cmd.y);
  }

  lemma TickStaysWithin(s: ServerV, batch: seq<PlayerCommand>, k: int)
    requires ValidServer(s) && 0 <= k && k + 1 < 0x20_0000_0000
    requires ChunksWithin(s.world, k) && Within(Abs(s.world), k)
    requires forall j | 0 <= j < |batch| :: Near(Pos(batch[j].x, batch[j].y), k)
    ensures ChunksWithin(NextV(s, Tick(batch)).world, k + 1)
    ensures Within(Abs(NextV(s, Tick(batch)).world), k + 1)
  {
    hide Abs, CoordWithin, StepWorld, LifeStep, CommandsV, PlayV, Award, Income;
    var w := StepWorld(s.world);
    MarginStaysWithin(s.world, k);
    forall c | c in w ensures CoordWithin(c, k + 1) { CoordWithinGrows(c, k); }
    CommandsStayWithin(ServerV(w, s.balances), batch, k + 1);
    assert NextV(s, Tick(batch)).world.Keys == PlayV(s, batch).world.Keys by { PlayIsCommands(s, batch); }
    PlayIsCommands(s, batch);
    TickPlaneStaysWithin(s, batch, k);
  }

  lemma PlayIsCommands(s: ServerV, batch: seq<PlayerCommand>)
    requires ValidServer(s)
    ensures PlayV(s, batch) == CommandsV(ServerV(StepWorld(s.world), s.balances), batch)
  {
  }

  lemma TickPlaneStaysWithin(s: ServerV, batch: seq<PlayerCommand>, k: int)
    requires ValidServer(s) && 0 <= k && k + 1 < 0x20_0000_0000
    requires Within(Abs(s.world), k)
    requires forall j | 0 <= j < |batch| :: Near(Pos(batch[j].x, batch[j].y), k)
    ensures Within(Abs(NextV(s, Tick(batch)).world), k + 1)
  {
    hide Abs, NextV, Next, RunV, Run;
    var es := [Tick(batch)];
    assert EventsInRange(es);
    NextRefines(s, es[0]);
    WrapNothing(batch);
    OneTickInLightCone(AbsServer(s), batch, k);
  }

  lemma OneTickInLightCone(s: State, batch: seq<PlayerCommand>, k: int)
    requires Within(s.plane, k)
    requires forall j | 0 <= j < |batch| :: Near(Pos(batch[j].x, batch[j].y), k)
    ensures Within(Next(s, Tick(batch)).plane, k + 1)
  {
    hide LifeStep, ApplyAll, Award, Income;
    LifeStepSpreadsByOne(s.plane, k);
    BatchStaysWithin(State(LifeStep(s.plane), s.balances), batch, k + 1);
  }

  lemma CoordWithinFits(c: Coord, k: int)
    requires 0 <= k < 0x20_0000_0000 - 128 && CoordWithin(c, k)
    ensures NeighboursFit(c)
  {
  }

  lemma WithinFits(w: WorldV, k: int)
    requires ValidWorld(w) && 0 <= k < 0x20_0000_0000 - 128 && ChunksWithin(w, k) && Within(Abs(w), k)
    ensures ExchangeFits(w)
  {
    hide Abs, Margin, Within, StepWorld, CoordWithin, NeighboursFit;
    MarginStaysWithin(w, k);
    StepKeys(w);
    forall c | c in w.Keys + Margin(w) ensures NeighboursFit(c) { CoordWithinFits(c, k); }
  }

  lemma StepKeys(w: WorldV)
    requires ValidWorld(w)
    ensures StepWorld(w).Keys == w.Keys + Margin(w)
  {
    hide Margin, Window;
  }

  /**
   If cells, chunks and commands lie within [-k, k] and k plus the number of ticks stays below
   2^37 - 128, no int overflows in the run, nor would in one more tick.
   */
  lemma {:induction false} ChunkCoordinatesNeverOverflow(s: ServerV, es: seq<Event>, k: int)
    requires ValidServer(s) && 0 <= k && k + Ticks(es) < 0x20_0000_0000 - 128
    requires ChunksWithin(s.world, k) && Within(Abs(s.world), k) && CommandsWithin(es, k)
    ensures RunFits(s, es) && ExchangeFits(RunV(s, es).world)
    decreases |es|
  {
    hide Abs, CoordWithin, Near, TickV, FlushServer, Within, ChunksWithin, ExchangeFits;
    WithinFits(s.world, k);
    if es != [] {
      var t := NextV(s, es[0]);
      assert CommandsWithin(es[1..], k);
      if es[0].Tick? {
        TickStaysWithin(s, es[0].batch, k);
        WidenCommands(es[1..], k);
        ChunkCoordinatesNeverOverflow(t, es[1..], k + 1);
      } else {
        ChunkCoordinatesNeverOverflow(t, es[1..], k);
      }
    }
  }

  /** The outermost column commands can reach: its chunk has no eastern neighbour an int could name. */
  const EDGE: int := 0x1F_FFFF_FFFF

  /**
   One command at the edge, in range and perhaps even refused, lets the next tick overflow, whatever
   the server held before.
   */
  lemma EdgeCommandOverflows(s: ServerV, cmd: PlayerCommand)
    requires ValidServer(s) && cmd.x == EDGE && cmd.y == 0
    ensures InRange(cmd.x) && InRange(cmd.y) && !ExchangeFits(NextV(s, Tick([cmd])).world)
  {
    hide NextV, CommandChunk, Margin;
    TickCreatesChunk(s, cmd);
    EdgeChunk();
    var c, w := Coord(0x7FFF_FFFF, 0), NextV(s, Tick([cmd])).world;
    assert c in w.Keys + Margin(w) && !NeighboursFit(c);
  }

  /** So a run of a tick with this command and one more tick is not one without overflow. */
  lemma EdgeRunOverflows(s: ServerV, cmd: PlayerCommand, es: seq<Event>)
    requires ValidServer(s) && cmd.x == EDGE && cmd.y == 0 && es == [Tick([cmd]), Tick([])]
    ensures EventsInRange(es) && !RunFits(s, es)
  {
    hide NextV, ExchangeFits;
    EdgeCommandOverflows(s, cmd);
    assert es[1..] == [Tick([])];
  }

  lemma TickCreatesChunk(s: ServerV, cmd: PlayerCommand)
    requires ValidServer(s)
    ensures CommandChunk(cmd.x, cmd.y) in NextV(s, Tick([cmd])).world
  {
    hide Edit, SetCellV, StepWorld, Award, Income, Abs, CommandChunk, CommandLocal;
    var t := ServerV(StepWorld(s.world), s.balances);
    assert [cmd][1..] == [];
    assert CommandsV(t, [cmd]) == CommandV(t, cmd);
  }

  lemma EdgeChunk()
    ensures CommandChunk(EDGE, 0) == Coord(0x7FFF_FFFF, 0)
  {
    ServerCoordinatesAreFloor(EDGE);
    ServerCoordinatesAreFloor(0);
  }
}
