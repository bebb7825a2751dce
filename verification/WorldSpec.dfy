/**
 The chunked world as a value, the steps of one simulation tick over it, and the proof that a tick
 is one step of Life on the whole infinite plane.
 */
module WorldSpec {
  import opened Types
  import opened Plane
  import opened Chunks
  import opened Coordinates

  type WorldV = map<Coord, ChunkV>

  ghost predicate ValidWorld(w: WorldV) {
    forall c | c in w :: w[c].Valid()
  }

  /** The cell at p, DEAD where there is no chunk. */
  ghost function WorldAt(w: WorldV, p: Pos): CellState
    requires ValidWorld(w)
  {
    if Home(p) in w then w[Home(p)].Get(LocalOf(p).x, LocalOf(p).y) else DEAD
  }

  ghost function AllCells(w: WorldV): set<Pos> {
    set c, l | c in w.Keys && l in AllLocals() :: CellPos(c, l)
  }

  /** The plane a chunked world stands for. */
  ghost function Abs(w: WorldV): (m: Plane)
    requires ValidWorld(w)
  {
    map p | p in AllCells(w) && WorldAt(w, p) != DEAD :: WorldAt(w, p)
  }

  lemma AbsAt(w: WorldV, p: Pos)
    requires ValidWorld(w)
    ensures At(Abs(w), p) == WorldAt(w, p)
    ensures Normal(Abs(w))
    ensures p in AllCells(w) <==> Home(p) in w
  {
    if Home(p) in w {
      SplitJoin(p, Home(p), LocalOf(p));
      assert LocalOf(p) in AllLocals();
      assert p in AllCells(w);
    }
    if p in AllCells(w) {
      var c, l :| c in w.Keys && l in AllLocals() && CellPos(c, l) == p;
      SplitJoin(p, c, l);
    }
  }

  /** Two worlds show the same plane when they agree cell by cell, whatever chunks they have. */
  lemma AbsEqual(w: WorldV, m: Plane)
    requires ValidWorld(w) && Normal(m)
    requires forall p :: WorldAt(w, p) == At(m, p)
    ensures Abs(w) == m
  {
    forall p ensures At(Abs(w), p) == At(m, p) { AbsAt(w, p); }
    AbsAt(w, Pos(0, 0));
    NormalPlanesEqual(Abs(w), m);
  }

  // ---------------------------------------------------------------- the steps of a tick

  predicate HasLife(v: ChunkV)
    requires |v.cur| == TOTAL_CELLS
  {
    exists x, y :: 0 <= x < WIDTH && 0 <= y < WIDTH && v.Get(x, y).alive
  }

  predicate Adjacent(c: Coord, d: Coord) {
    c != d && -1 <= d.x - c.x <= 1 && -1 <= d.y - c.y <= 1
  }

  function Neighbours(c: Coord): (r: set<Coord>)
    ensures forall d :: d in r <==> Adjacent(c, d)
  {
    {Coord(c.x - 1, c.y - 1), Coord(c.x, c.y - 1), Coord(c.x + 1, c.y - 1),
     Coord(c.x - 1, c.y), Coord(c.x + 1, c.y),
     Coord(c.x - 1, c.y + 1), Coord(c.x, c.y + 1), Coord(c.x + 1, c.y + 1)}
  }

  /** The eight coordinates around c can be computed in 32-bit ints. */
  predicate NeighboursFit(c: Coord) {
    FitsInt32(c.x - 1) && FitsInt32(c.x + 1) && FitsInt32(c.y - 1) && FitsInt32(c.y + 1)
  }

  /** The absent chunks next to a chunk with a live cell. */
  ghost function Margin(w: WorldV): (r: set<Coord>)
    requires ValidWorld(w)
  {
    set c, d | c in w.Keys && HasLife(w[c]) && d in Neighbours(c) && d !in w :: d
  }

  /**
   What the border exchange demands of its caller: it computes the neighbours of every chunk, the new
   margin chunks included, and an overflowing int would be undefined.
   */
  ghost predicate ExchangeFits(w: WorldV)
    requires ValidWorld(w)
  {
    forall c | c in w.Keys + Margin(w) :: NeighboursFit(c)
  }

  ghost function AddChunks(w: WorldV, cs: set<Coord>): (r: WorldV)
    requires ValidWorld(w)
    ensures ValidWorld(r) && r.Keys == w.Keys + cs
  {
    map c | c in w.Keys + cs :: if c in w then w[c] else EmptyChunk()
  }

  /** The 66x66 window of the plane around chunk c. */
  ghost function Window(w: WorldV, c: Coord): (r: seq<CellState>)
    requires ValidWorld(w)
    ensures |r| == TOTAL_CELLS
    ensures forall sx: nat, sy: nat | sx < TOTAL_WIDTH && sy < TOTAL_WIDTH ::
              r[Index(sx, sy)] == WorldAt(w, StoragePos(c, sx, sy))
  {
    seq(TOTAL_CELLS, i requires 0 <= i < TOTAL_CELLS =>
      WorldAt(w, StoragePos(c, i % TOTAL_WIDTH, i / TOTAL_WIDTH)))
  }

  /** Every shown buffer, border included, becomes its window of the plane. */
  ghost function FillBorders(w: WorldV): (r: WorldV)
    requires ValidWorld(w)
    ensures ValidWorld(r)
  {
    map c | c in w :: ChunkV(Window(w, c), w[c].next, w[c].dirty)
  }

  ghost function ExchangeBordersV(w: WorldV): (r: WorldV)
    requires ValidWorld(w)
    ensures ValidWorld(r)
  {
    FillBorders(AddChunks(w, Margin(w)))
  }

  ghost function CalculateAll(w: WorldV): (r: WorldV)
    requires ValidWorld(w)
    ensures ValidWorld(r)
  {
    map c | c in w :: CalculateNextV(w[c])
  }

  ghost function SwapAll(w: WorldV): (r: WorldV)
    requires ValidWorld(w)
    ensures ValidWorld(r)
  {
    map c | c in w :: SwapV(w[c])
  }

  ghost function FlushAll(w: WorldV): (r: WorldV)
    requires ValidWorld(w)
    ensures ValidWorld(r)
  {
    map c | c in w :: FlushV(w[c])
  }

  ghost function StepWorld(w: WorldV): (r: WorldV)
    requires ValidWorld(w)
    ensures ValidWorld(r)
  {
    SwapAll(CalculateAll(ExchangeBordersV(w)))
  }

  // ---------------------------------------------------------------- refinement of Life

  lemma AddChunksInvisible(w: WorldV, cs: set<Coord>, p: Pos)
    requires ValidWorld(w)
    ensures WorldAt(AddChunks(w, cs), p) == WorldAt(w, p)
  {
  }

  lemma InnerStoragePos(c: Coord, l: Local)
    requires l.x < WIDTH && l.y < WIDTH
    ensures StoragePos(c, l.x + 1, l.y + 1) == CellPos(c, l)
  {
  }

  /** The exchange leaves every cell of the plane as it was. */
  lemma ExchangeBordersInvisible(w: WorldV, p: Pos)
    requires ValidWorld(w)
    ensures WorldAt(ExchangeBordersV(w), p) == WorldAt(w, p)
  {
    var m := AddChunks(w, Margin(w));
    AddChunksInvisible(w, Margin(w), p);
    if Home(p) in m {
      var l := LocalOf(p);
      InnerStoragePos(Home(p), l);
      SplitJoin(p, Home(p), l);
      assert Window(m, Home(p))[Index(l.x + 1, l.y + 1)] == WorldAt(m, p);
    }
  }

  lemma WindowAt(w: WorldV, c: Coord, l: Local, dx: int, dy: int)
    requires ValidWorld(w) && l.x < WIDTH && l.y < WIDTH && -1 <= dx <= 1 && -1 <= dy <= 1
    ensures Window(w, c)[Index(l.x + 1 + dx, l.y + 1 + dy)]
            == At(Abs(w), Pos(CellPos(c, l).x + dx, CellPos(c, l).y + dy))
  {
    hide Abs, WorldAt, Index, At;
    AbsAt(w, StoragePos(c, l.x + 1 + dx, l.y + 1 + dy));
  }

  /** The neighbours the code reads in the buffer are the neighbours on the plane. */
  lemma RingIsPlaneNeighbourhood(w: WorldV, c: Coord, l: Local)
    requires ValidWorld(w) && l.x < WIDTH && l.y < WIDTH
    ensures Ring(Window(w, c), l.x + 1, l.y + 1) == CellsAround(Abs(w), CellPos(c, l))
    ensures Window(w, c)[Index(l.x + 1, l.y + 1)] == At(Abs(w), CellPos(c, l))
  {
    hide Abs, WorldAt, Index, At, Window, StoragePos;
    WindowAt(w, c, l, 0, 0);
    WindowAt(w, c, l, -1, -1); WindowAt(w, c, l, 0, -1); WindowAt(w, c, l, 1, -1);
    WindowAt(w, c, l, -1, 0); WindowAt(w, c, l, 1, 0);
    WindowAt(w, c, l, -1, 1); WindowAt(w, c, l, 0, 1); WindowAt(w, c, l, 1, 1);
  }

  /** After the exchange, all 66x66 entries of every chunk are the plane's cells they stand for. */
  lemma BordersAreExact(w: WorldV, c: Coord, sx: nat, sy: nat)
    requires ValidWorld(w) && c in ExchangeBordersV(w) && sx < TOTAL_WIDTH && sy < TOTAL_WIDTH
    ensures ExchangeBordersV(w)[c].cur[Index(sx, sy)] == At(Abs(w), StoragePos(c, sx, sy))
  {
    hide Abs, WorldAt, Margin, Index;
    var p := StoragePos(c, sx, sy);
    AddChunksInvisible(w, Margin(w), p);
    AbsAt(w, p);
  }

  lemma HomesOfNeighbours(p: Pos, q: Pos)
    requires -1 <= q.x - p.x <= 1 && -1 <= q.y - p.y <= 1
    ensures Home(q) == Home(p) || Adjacent(Home(q), Home(p))
  {
  }

  /** The margin is exactly the absent chunks next to the chunk of a live cell. */
  lemma MarginIsExact(w: WorldV, d: Coord)
    requires ValidWorld(w)
    ensures d in Margin(w) <==>
            d !in w && exists p :: WorldAt(w, p).alive
                                   && -1 <= d.x - Home(p).x <= 1 && -1 <= d.y - Home(p).y <= 1
  {
    hide Neighbours, Index;
    if d in Margin(w) {
      var c :| c in w && HasLife(w[c]) && d in Neighbours(c);
      var x, y :| 0 <= x < WIDTH && 0 <= y < WIDTH && w[c].Get(x, y).alive;
      var p := CellPos(c, Local(x, y));
      SplitJoin(p, c, Local(x, y));
      assert WorldAt(w, p).alive;
    }
    if p: Pos :| WorldAt(w, p).alive && -1 <= d.x - Home(p).x <= 1 && -1 <= d.y - Home(p).y <= 1 {
      if d !in w {
        assert w[Home(p)].Get(LocalOf(p).x, LocalOf(p).y).alive;
        assert d in Neighbours(Home(p));
      }
    }
  }

  /** The margin reaches every cell next to a live one. */
  lemma LiveCellHasMargin(w: WorldV, p: Pos, q: Pos)
    requires ValidWorld(w) && -1 <= q.x - p.x <= 1 && -1 <= q.y - p.y <= 1
    requires WorldAt(w, q).alive
    ensures Home(p) in AddChunks(w, Margin(w))
  {
    HomesOfNeighbours(p, q);
    var l := LocalOf(q);
    assert w[Home(q)].Get(l.x, l.y).alive;
    if Home(p) !in w { assert Home(p) in Neighbours(Home(q)); }
  }

  /** Where there is no chunk even after the margin was added, nothing can be born. */
  lemma NoBirthOutsideMargin(w: WorldV, p: Pos)
    requires ValidWorld(w) && Home(p) !in AddChunks(w, Margin(w))
    ensures NextAt(Abs(w), p) == DEAD
  {
    hide Abs, Margin, LiveCount;
    var ns := CellsAround(Abs(w), p);
    forall i | 0 <= i < 8 ensures !Counted(ns[i]) {
      var q := Around(p)[i];
      assert ns[i] == At(Abs(w), q);
      AbsAt(w, q);
      if WorldAt(w, q).alive { LiveCellHasMargin(w, p, q); }
    }
    AbsAt(w, p);
    LiveCountWitness(ns);
  }

  /** What a tick makes of chunk c: the next generation of its window, with the changed cells listed. */
  lemma StepOfChunk(w: WorldV, c: Coord)
    requires ValidWorld(w) && c in AddChunks(w, Margin(w))
    ensures var m := AddChunks(w, Margin(w));
            && c in StepWorld(w)
            && StepWorld(w)[c] == ChunkV(NextBuffer(Window(m, c), m[c].next), Window(m, c),
                                         m[c].dirty + Changed(Window(m, c), WIDTH * WIDTH))
  {
    hide Margin, NextBuffer, Changed, EmptyChunk, AddChunks, Window;
  }

  /** On a window the rule gives what it gives on the plane. */
  lemma WindowRuleIsPlaneRule(w: WorldV, c: Coord, l: Local)
    requires ValidWorld(w) && l.x < WIDTH && l.y < WIDTH
    ensures NextInner(Window(w, c), l.x, l.y) == NextAt(Abs(w), CellPos(c, l))
  {
    hide Abs, Window, NextCell, Ring, CellsAround, CellPos;
    RingIsPlaneNeighbourhood(w, c, l);
  }

  lemma AddChunksSamePlane(w: WorldV, cs: set<Coord>)
    requires ValidWorld(w)
    ensures Abs(AddChunks(w, cs)) == Abs(w)
  {
    hide Abs, AddChunks, WorldAt;
    forall p ensures WorldAt(AddChunks(w, cs), p) == At(Abs(w), p) {
      AbsAt(w, p);
      AddChunksInvisible(w, cs, p);
    }
    AbsAt(w, Pos(0, 0));
    AbsEqual(AddChunks(w, cs), Abs(w));
  }

  lemma StepInsideChunk(w: WorldV, p: Pos)
    requires ValidWorld(w) && Home(p) in AddChunks(w, Margin(w))
    ensures WorldAt(StepWorld(w), p) == NextAt(Abs(w), p)
  {
    hide Abs, NextAt, NextInner, Margin, AddChunks, StepWorld, Window, Home, LocalOf, CellPos;
    SplitJoin(p, Home(p), LocalOf(p));
    StepOfChunk(w, Home(p));
    WindowRuleIsPlaneRule(AddChunks(w, Margin(w)), Home(p), LocalOf(p));
    AddChunksSamePlane(w, Margin(w));
  }

  /** One tick of the chunked engine is one simultaneous step of Life on the whole plane. */
  lemma TickRefinesLife(w: WorldV)
    requires ValidWorld(w)
    ensures Abs(StepWorld(w)) == LifeStep(Abs(w))
  {
    hide NextAt, LifeStep, Abs, StepWorld;
    forall p ensures WorldAt(StepWorld(w), p) == At(LifeStep(Abs(w)), p) {
      LifeStepEverywhere(Abs(w), p);
      if Home(p) in AddChunks(w, Margin(w)) {
        StepInsideChunk(w, p);
      } else {
        NoBirthOutsideMargin(w, p);
        StepOutsideChunks(w, p);
      }
    }
    LifeStepEverywhere(Abs(w), Pos(0, 0));
    AbsEqual(StepWorld(w), LifeStep(Abs(w)));
  }

  lemma StepOutsideChunks(w: WorldV, p: Pos)
    requires ValidWorld(w) && Home(p) !in AddChunks(w, Margin(w))
    ensures WorldAt(StepWorld(w), p) == DEAD
  {
  }
}
