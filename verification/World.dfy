/**
 The chunked world as the server keeps it (server/src/World.cpp): a map from coordinates to chunk
 objects. Each method is proved to take the world's value to the value WorldSpec or Server gives.
 */
module Worlds {
  import opened Types
  import opened Chunks
  import opened Coordinates
  import opened WorldSpec
  import opened Reference
  import Resources
  import opened Server

  /** Two chunk objects share no storage. */
  ghost predicate Apart(a: Chunk, b: Chunk) {
    && a != b
    && a.buffer0 != b.buffer0 && a.buffer0 != b.buffer1
    && a.buffer1 != b.buffer0 && a.buffer1 != b.buffer1
  }

  /** The chunk object found at d, or its absence, shows what w holds there. */
  ghost predicate Shows(chunk: Chunk?, w: WorldV, d: Coord)
    requires ValidWorld(w)
    reads chunk, if chunk == null then {} else {chunk.buffer0, chunk.buffer1}
  {
    if chunk == null then d !in w else
      && d in w && chunk.Valid()
      && forall x: nat, y: nat | x < WIDTH && y < WIDTH :: chunk.View().Get(x, y) == w[d].Get(x, y)
  }

  lemma NeighbourCell(w: WorldV, d: Coord, l: Local, p: Pos)
    requires ValidWorld(w) && l.x < WIDTH && l.y < WIDTH && p == CellPos(d, l)
    ensures WorldAt(w, p) == if d in w then w[d].Get(l.x, l.y) else DEAD
  {
    SplitJoin(p, d, l);
  }

  /** The part of the margin that the chunks in done ask for. */
  ghost function MarginOf(w: WorldV, done: set<Coord>): (r: set<Coord>)
    requires ValidWorld(w) && done <= w.Keys
  {
    set c, d | c in done && HasLife(w[c]) && d in Neighbours(c) && d !in w :: d
  }

  lemma MarginOfGrows(w: WorldV, done: set<Coord>, c: Coord)
    requires ValidWorld(w) && done <= w.Keys && c in w
    ensures MarginOf(w, done + {c}) == MarginOf(w, done) +
            (if HasLife(w[c]) then set d | d in Neighbours(c) && d !in w else {})
  {
    hide HasLife, Neighbours;
  }

  lemma AddOneMore(w: WorldV, cs: set<Coord>, c: Coord)
    requires ValidWorld(w)
    ensures AddChunks(AddChunks(w, cs), {c}) == AddChunks(w, cs + {c})
  {
  }

  lemma ElementsConcat(a: seq<Coord>, b: seq<Coord>)
    ensures Elements(a + b) == Elements(a) + Elements(b)
  {
  }

  lemma ElementsGrow(cs: seq<Coord>, i: nat)
    requires i < |cs|
    ensures Elements(cs[..i + 1]) == Elements(cs[..i]) + {cs[i]}
  {
    assert cs[..i + 1] == cs[..i] + [cs[i]];
  }

  lemma AddNothing(w: WorldV)
    requires ValidWorld(w)
    ensures AddChunks(w, Elements([])) == w
  {
  }

  /** Every entry of now is as before or already its window entry. */
  ghost predicate Towards(was: seq<CellState>, now: seq<CellState>, win: seq<CellState>) {
    && |was| == |now| == |win| == TOTAL_CELLS
    && forall i | 0 <= i < TOTAL_CELLS :: now[i] == was[i] || now[i] == win[i]
  }

  ghost predicate Filled(buf: seq<CellState>, win: seq<CellState>, sx: nat, sy: nat)
    requires |buf| == |win| == TOTAL_CELLS && sx < TOTAL_WIDTH && sy < TOTAL_WIDTH
  {
    buf[Index(sx, sy)] == win[Index(sx, sy)]
  }

  lemma TowardsKeepsFilled(was: seq<CellState>, now: seq<CellState>, win: seq<CellState>)
    requires Towards(was, now, win)
    ensures forall sx: nat, sy: nat | sx < TOTAL_WIDTH && sy < TOTAL_WIDTH && Filled(was, win, sx, sy) ::
              Filled(now, win, sx, sy)
  {
  }

  lemma TowardsTransitive(a: seq<CellState>, b: seq<CellState>, c: seq<CellState>, win: seq<CellState>)
    requires Towards(a, b, win) && Towards(b, c, win)
    ensures Towards(a, c, win)
  {
  }

  /** The first n entries of the top and bottom rows, and of the two outer columns, are in place. */
  ghost predicate RowsFilled(buf: seq<CellState>, win: seq<CellState>, n: nat)
    requires |buf| == |win| == TOTAL_CELLS && n <= WIDTH
  {
    forall k: nat | 1 <= k <= n :: Filled(buf, win, k, 0) && Filled(buf, win, k, WIDTH + 1)
  }

  ghost predicate ColumnsFilled(buf: seq<CellState>, win: seq<CellState>, n: nat)
    requires |buf| == |win| == TOTAL_CELLS && n <= WIDTH
  {
    forall k: nat | 1 <= k <= n :: Filled(buf, win, 0, k) && Filled(buf, win, WIDTH + 1, k)
  }

  lemma RowsGrow(a: seq<CellState>, b: seq<CellState>, c: seq<CellState>, win: seq<CellState>, n: nat)
    requires n < WIDTH && Towards(a, b, win) && Towards(b, c, win) && RowsFilled(a, win, n)
    requires Filled(b, win, n + 1, 0) && Filled(c, win, n + 1, WIDTH + 1)
    ensures RowsFilled(c, win, n + 1)
  {
    hide Filled;
    TowardsKeepsFilled(a, b, win);
    TowardsKeepsFilled(b, c, win);
    forall k: nat | 1 <= k <= n + 1 ensures Filled(c, win, k, 0) && Filled(c, win, k, WIDTH + 1) {
      if k <= n {
        assert Filled(a, win, k, 0) && Filled(a, win, k, WIDTH + 1);
        assert Filled(b, win, k, 0) && Filled(b, win, k, WIDTH + 1);
      }
    }
  }

  lemma ColumnsGrow(a: seq<CellState>, b: seq<CellState>, c: seq<CellState>, win: seq<CellState>, n: nat)
    requires n < WIDTH && Towards(a, b, win) && Towards(b, c, win) && ColumnsFilled(a, win, n)
    requires Filled(b, win, 0, n + 1) && Filled(c, win, WIDTH + 1, n + 1)
    ensures ColumnsFilled(c, win, n + 1)
  {
    hide Filled;
    TowardsKeepsFilled(a, b, win);
    TowardsKeepsFilled(b, c, win);
    forall k: nat | 1 <= k <= n + 1 ensures Filled(c, win, 0, k) && Filled(c, win, WIDTH + 1, k) {
      if k <= n {
        assert Filled(a, win, 0, k) && Filled(a, win, WIDTH + 1, k);
        assert Filled(b, win, 0, k) && Filled(b, win, WIDTH + 1, k);
      }
    }
  }

  lemma StartRows(buf: seq<CellState>, win: seq<CellState>)
    requires |buf| == |win| == TOTAL_CELLS
    ensures Towards(buf, buf, win) && RowsFilled(buf, win, 0) && ColumnsFilled(buf, win, 0)
  {
  }

  ghost predicate CornersFilled(buf: seq<CellState>, win: seq<CellState>)
    requires |buf| == |win| == TOTAL_CELLS
  {
    && Filled(buf, win, 0, 0) && Filled(buf, win, WIDTH + 1, 0)
    && Filled(buf, win, 0, WIDTH + 1) && Filled(buf, win, WIDTH + 1, WIDTH + 1)
  }

  ghost predicate InnerPartFilled(buf: seq<CellState>, win: seq<CellState>)
    requires |buf| == |win| == TOTAL_CELLS
  {
    forall sx: nat, sy: nat | Inner(sx, sy) :: Filled(buf, win, sx, sy)
  }

  lemma NothingLost(a: seq<CellState>, b: seq<CellState>, win: seq<CellState>)
    requires Towards(a, b, win)
    ensures InnerPartFilled(a, win) ==> InnerPartFilled(b, win)
    ensures RowsFilled(a, win, WIDTH) ==> RowsFilled(b, win, WIDTH)
    ensures ColumnsFilled(a, win, WIDTH) ==> ColumnsFilled(b, win, WIDTH)
  {
    hide Filled;
    TowardsKeepsFilled(a, b, win);
  }

  lemma AllFilled(buf: seq<CellState>, win: seq<CellState>)
    requires |buf| == |win| == TOTAL_CELLS
    requires InnerPartFilled(buf, win) && RowsFilled(buf, win, WIDTH)
    requires ColumnsFilled(buf, win, WIDTH) && CornersFilled(buf, win)
    ensures buf == win
  {
    forall sx: nat, sy: nat | sx < TOTAL_WIDTH && sy < TOTAL_WIDTH
      ensures buf[Index(sx, sy)] == win[Index(sx, sy)]
    {
      hide Index;
      assert Filled(buf, win, sx, sy) by {
        if Inner(sx, sy) {
        } else if sy == 0 || sy == WIDTH + 1 {
          if 1 <= sx <= WIDTH { assert Filled(buf, win, sx, 0) && Filled(buf, win, sx, WIDTH + 1); }
        } else {
          assert Filled(buf, win, 0, sy) && Filled(buf, win, WIDTH + 1, sy);
        }
      }
    }
    BuffersEqual(buf, win);
  }

  /** A chunk's own cells are the inner part of its window. */
  lemma InnerFilled(buf: seq<CellState>, w: WorldV, c: Coord)
    requires ValidWorld(w) && c in w && |buf| == TOTAL_CELLS
    requires forall x: nat, y: nat | x < WIDTH && y < WIDTH :: buf[Index(x + 1, y + 1)] == w[c].Get(x, y)
    ensures InnerPartFilled(buf, Window(w, c))
  {
    hide Index, WorldAt;
    forall sx: nat, sy: nat | Inner(sx, sy) ensures Filled(buf, Window(w, c), sx, sy) {
      var l := Local(sx - 1, sy - 1);
      assert buf[Index(l.x + 1, l.y + 1)] == w[c].Get(l.x, l.y);
      InnerStoragePos(c, l);
      NeighbourCell(w, c, l, StoragePos(c, sx, sy));
    }
  }

  lemma OwnCellsFilled(chunk: Chunk, w: WorldV, c: Coord)
    requires ValidWorld(w) && chunk.Valid() && Shows(chunk, w, c)
    ensures InnerPartFilled(chunk.View().cur, Window(w, c))
  {
    hide Window, Filled;
    forall x: nat, y: nat | x < WIDTH && y < WIDTH
      ensures chunk.View().cur[Index(x + 1, y + 1)] == w[c].Get(x, y)
    {
      assert chunk.View().Get(x, y) == w[c].Get(x, y);
    }
    InnerFilled(chunk.View().cur, w, c);
  }

  /** The chunks not in todo have their borders, the others are as in w. */
  ghost predicate PartlyFilled(w: WorldV, u: WorldV, todo: set<Coord>)
  {
    && ValidWorld(w) && u.Keys == w.Keys
    && forall c | c in w :: u[c] == if c in todo then w[c] else ChunkV(Window(w, c), w[c].next, w[c].dirty)
  }

  lemma PartlyFilledShape(w: WorldV, u: WorldV, todo: set<Coord>)
    requires PartlyFilled(w, u, todo)
    ensures ValidWorld(w) && ValidWorld(u) && u.Keys == w.Keys
    ensures forall c | c in w :: u[c].cur == w[c].cur || u[c].cur == Window(w, c)
  {
  }

  lemma PartlyFilledSameCells(w: WorldV, u: WorldV, todo: set<Coord>)
    requires PartlyFilled(w, u, todo)
    ensures ValidWorld(w) && ValidWorld(u) && u.Keys == w.Keys
    ensures forall c, x: nat, y: nat | c in w && x < WIDTH && y < WIDTH :: u[c].Get(x, y) == w[c].Get(x, y)
  {
    hide Index, Window, PartlyFilled;
    PartlyFilledShape(w, u, todo);
    forall c, x: nat, y: nat | c in w && x < WIDTH && y < WIDTH
      ensures u[c].Get(x, y) == w[c].Get(x, y)
    {
      WindowShowsOwnCells(w, c, Local(x, y));
    }
  }

  lemma PartlyFilledStarts(w: WorldV)
    requires ValidWorld(w)
    ensures PartlyFilled(w, w, w.Keys)
  {
  }

  lemma PartlyFilledGrows(w: WorldV, u: WorldV, todo: set<Coord>, c: Coord)
    requires PartlyFilled(w, u, todo) && c in todo && c in w
    ensures ValidWorld(w) && c in u && u[c] == w[c]
    ensures PartlyFilled(w, u[c := ChunkV(Window(w, c), u[c].next, u[c].dirty)], todo - {c})
  {
    hide Window;
  }

  lemma PartlyFilledEnds(w: WorldV, u: WorldV)
    requires PartlyFilled(w, u, {})
    ensures u == FillBorders(w)
  {
    hide Window;
  }

  lemma WindowShowsOwnCells(w: WorldV, c: Coord, l: Local)
    requires ValidWorld(w) && c in w && l.x < WIDTH && l.y < WIDTH
    ensures Window(w, c)[Index(l.x + 1, l.y + 1)] == w[c].Get(l.x, l.y)
  {
    hide Index;
    InnerStoragePos(c, l);
    NeighbourCell(w, c, l, CellPos(c, l));
  }

  /** The coordinate beside c, computed in 32-bit ints. */
  function Beside(c: Coord, dx: int, dy: int): Coord
    requires FitsInt32(c.x + dx) && FitsInt32(c.y + dy)
  {
    Coord(c.x + dx, c.y + dy)
  }

  class World {
    var chunks: map<Coord, Chunk>
    const resources: Resources.ResourceManager

    ghost function Footprint(): set<object>
      reads this
    {
      (set c | c in chunks :: chunks[c])
      + (set c | c in chunks :: chunks[c].buffer0)
      + (set c | c in chunks :: chunks[c].buffer1)
    }

    ghost predicate Valid()
      reads this, Footprint()
    {
      && (forall c | c in chunks :: chunks[c].Valid())
      && (forall c, d | c in chunks && d in chunks && c != d :: Apart(chunks[c], chunks[d]))
    }

    ghost function View(): (w: WorldV)
      reads this, Footprint()
      ensures w.Keys == chunks.Keys
      ensures Valid() ==> ValidWorld(w)
    {
      map c | c in chunks :: chunks[c].View()
    }

    lemma ViewOf(c: Coord)
      requires Valid() && c in chunks
      ensures View()[c] == chunks[c].View() && chunks[c].Valid()
    {
    }

    /** Writing to one chunk leaves every other chunk's value alone. */
    twostate lemma OnlyOneChanged(c: Coord)
      requires old(Valid()) && chunks == old(chunks) && c in chunks && chunks[c].Valid()
      requires forall d | d in chunks && d != c ::
                 unchanged(chunks[d]) && unchanged(chunks[d].buffer0) && unchanged(chunks[d].buffer1)
      ensures Valid() && View() == old(View())[c := chunks[c].View()]
    {
      hide Apart;
      assert forall d | d in chunks && d != c :: chunks[d].View() == old(chunks[d].View());
    }

    constructor (resourceManager: Resources.ResourceManager)
      ensures Valid() && View() == map[] && resources == resourceManager
    {
      chunks := map[];
      resources := resourceManager;
    }

    /** Chunks are never dropped or replaced; the ones that are new are newly allocated. */
    twostate predicate Grown()
      reads this
    {
      && (forall c | c in old(chunks) :: c in chunks && chunks[c] == old(chunks)[c])
      && (forall c | c in chunks && c !in old(chunks) ::
            fresh(chunks[c]) && fresh(chunks[c].buffer0) && fresh(chunks[c].buffer1))
    }

    twostate lemma GrownFootprint()
      requires Grown()
      ensures forall o | o in Footprint() :: o in old(Footprint()) || fresh(o)
      ensures resources !in Footprint()
    {
    }

    /** chunks gained exactly one newly allocated chunk. */
    twostate predicate GainedOne(c: Coord)
      reads this, Footprint()
    {
      && old(Valid()) && c !in old(chunks) && c in chunks && chunks == old(chunks)[c := chunks[c]]
      && fresh(chunks[c]) && fresh(chunks[c].buffer0) && fresh(chunks[c].buffer1) && chunks[c].Valid()
      && forall d | d in old(chunks) ::
           unchanged(chunks[d]) && unchanged(chunks[d].buffer0) && unchanged(chunks[d].buffer1)
    }

    twostate lemma GainedOneValid(c: Coord)
      requires GainedOne(c)
      ensures Valid()
    {
      forall a, b | a in chunks && b in chunks && a != b ensures Apart(chunks[a], chunks[b]) {
        if a != c && b != c {
          assert old(Apart(chunks[a], chunks[b]));
        }
      }
    }

    twostate lemma GainedOneView(c: Coord)
      requires GainedOne(c)
      ensures View() == old(View())[c := chunks[c].View()]
    {
      hide Apart, Valid, Footprint;
      assert forall d | d in old(chunks) :: chunks[d].View() == old(chunks[d].View());
      assert View().Keys == old(View()).Keys + {c};
    }

    twostate lemma GainedOneResult(c: Coord)
      requires GainedOne(c)
      ensures Valid() && Grown() && View() == old(View())[c := chunks[c].View()]
    {
      hide Apart, Valid, Footprint, View;
      GainedOneValid(c);
      GainedOneView(c);
    }

    method CreateChunk(c: Coord)
      requires Valid() && c !in chunks
      modifies this
      ensures Valid() && Grown() && c in chunks
      ensures View() == old(View())[c := EmptyChunk()]
    {
      hide EmptyChunk, View, Apart, Valid, Footprint, Grown;
      var created := new Chunk();
      chunks := chunks[c := created];
      GainedOneResult(c);
    }

    method GetOrCreateChunk(c: Coord) returns (chunk: Chunk)
      requires Valid()
      modifies this
      ensures Valid() && Grown() && View() == AddChunks(old(View()), {c})
      ensures c in chunks && chunks[c] == chunk
    {
      hide EmptyChunk;
      if c !in chunks {
        CreateChunk(c);
      }
      chunk := chunks[c];
    }

    /** The chunks show w; their borders may differ. */
    ghost predicate ShowsAll(w: WorldV)
      reads this, Footprint()
    {
      && Valid() && ValidWorld(w) && w.Keys == chunks.Keys
      && forall c | c in chunks :: Shows(chunks[c], w, c)
    }

    function Find(c: Coord): Chunk?
      reads this
    {
      if c in chunks then chunks[c] else null
    }

    lemma NeighbourShows(c: Coord, d: Coord, w: WorldV)
      requires ShowsAll(w) && c in chunks && c != d
      ensures Shows(Find(d), w, d) && (Find(d) != null ==> Apart(chunks[c], Find(d)))
    {
      hide Apart;
    }

    // -------------------------------------------------------------- the simulation margin

    method HasLiveCells(chunk: Chunk) returns (live: bool)
      requires chunk.Valid()
      ensures live <==> HasLife(chunk.View())
    {
      live := false;
      var y := 0;
      while y < WIDTH && !live
        invariant y <= WIDTH
        invariant live ==> HasLife(chunk.View())
        invariant !live ==> forall i, j | 0 <= i < WIDTH && 0 <= j < y :: !chunk.View().Get(i, j).alive
      {
        for x := 0 to WIDTH
          invariant !live
          invariant forall i, j | 0 <= i < WIDTH && 0 <= j < y :: !chunk.View().Get(i, j).alive
          invariant forall i | 0 <= i < x :: !chunk.View().Get(i, y).alive
        {
          var cell := chunk.GetCell(x, y);
          if cell.alive {
            live := true;
            break;
          }
        }
        y := y + 1;
      }
    }

    ghost predicate LiveChunksFit()
      reads this, Footprint()
      requires Valid()
    {
      forall c | c in chunks && HasLife(View()[c]) :: NeighboursFit(c)
    }

    /** Lists the absent neighbours of one chunk. */
    method AbsentNeighbours(c: Coord) returns (absent: seq<Coord>)
      requires NeighboursFit(c)
      ensures forall d :: d in absent <==> d in Neighbours(c) && d !in chunks
    {
      absent := [];
      for dy := -1 to 2
        invariant forall d :: d in absent <==>
                    d in Neighbours(c) && d !in chunks && d.y < c.y + dy
      {
        for dx := -1 to 2
          invariant forall d :: d in absent <==>
                      d in Neighbours(c) && d !in chunks &&
                      (d.y < c.y + dy || (d.y == c.y + dy && d.x < c.x + dx))
        {
          if dx == 0 && dy == 0 {
            continue;
          }
          var neighbour := Beside(c, dx, dy);
          if neighbour !in chunks {
            absent := absent + [neighbour];
          }
        }
      }
    }

    /** Creates the missing neighbours of every chunk with a live cell, in any order of the chunks. */
    method EnsureSimulationMargin()
      requires Valid() && LiveChunksFit()
      modifies this
      ensures Valid() && Grown()
      ensures View() == AddChunks(old(View()), Margin(old(View())))
    {
      hide AddChunks, Elements, Margin;
      ghost var w := View();
      var toCreate := CollectMargin();
      assert View() == w;
      AddNothing(w);
      for i := 0 to |toCreate|
        invariant Valid() && Grown()
        invariant View() == AddChunks(w, Elements(toCreate[..i]))
      {
        AddOneMore(w, Elements(toCreate[..i]), toCreate[i]);
        ElementsGrow(toCreate, i);
        var _ := GetOrCreateChunk(toCreate[i]);
      }
      assert toCreate[..|toCreate|] == toCreate;
    }

    method CollectMargin() returns (toCreate: seq<Coord>)
      requires Valid() && LiveChunksFit()
      ensures Elements(toCreate) == Margin(View())
    {
      hide HasLife, Neighbours;
      ghost var w := View();
      toCreate := [];
      var todo := chunks.Keys;
      ghost var done: set<Coord> := {};
      while todo != {}
        invariant todo + done == chunks.Keys
        invariant Elements(toCreate) == MarginOf(w, done)
      {
        var c :| c in todo;
        assert w[c] == chunks[c].View();
        var live := HasLiveCells(chunks[c]);
        MarginOfGrows(w, done, c);
        if live {
          var absent := AbsentNeighbours(c);
          ElementsConcat(toCreate, absent);
          assert Elements(absent) == set d | d in Neighbours(c) && d !in w;
          toCreate := toCreate + absent;
        }
        todo, done := todo - {c}, done + {c};
      }
      assert done == w.Keys;
    }

    // -------------------------------------------------------------- borders

    /** Copies cell (x, y) of a neighbour, or a dead cell if there is none, to a border position. */
    method CopyBorder(chunk: Chunk, sx: nat, sy: nat, from: Chunk?, x: nat, y: nat,
                      ghost w: WorldV, ghost c: Coord, ghost d: Coord)
      requires ValidWorld(w) && chunk.Valid() && (from != null ==> Apart(chunk, from))
      requires sx < TOTAL_WIDTH && sy < TOTAL_WIDTH && x < WIDTH && y < WIDTH
      requires Shows(from, w, d) && StoragePos(c, sx, sy) == CellPos(d, Local(x, y))
      modifies chunk.Cur()
      ensures Towards(old(chunk.View()).cur, chunk.View().cur, Window(w, c))
      ensures Filled(chunk.View().cur, Window(w, c), sx, sy)
      ensures chunk.View().next == old(chunk.View()).next
      ensures Shows(from, w, d)
    {
      NeighbourCell(w, d, Local(x, y), StoragePos(c, sx, sy));
      var cell := DEAD;
      if from != null {
        cell := from.GetCell(x, y);
      }
      chunk.SetGhostCell(sx, sy, cell);
    }

    method CopyRows(chunk: Chunk, north: Chunk?, south: Chunk?, ghost w: WorldV, ghost c: Coord)
      requires ValidWorld(w) && chunk.Valid()
      requires (north != null ==> Apart(chunk, north)) && (south != null ==> Apart(chunk, south))
      requires Shows(north, w, Coord(c.x, c.y - 1)) && Shows(south, w, Coord(c.x, c.y + 1))
      modifies chunk.Cur()
      ensures Towards(old(chunk.View()).cur, chunk.View().cur, Window(w, c))
      ensures chunk.View().next == old(chunk.View()).next
      ensures RowsFilled(chunk.View().cur, Window(w, c), WIDTH)
    {
      hide Window, Filled, Shows, Towards;
      ghost var win, start := Window(w, c), chunk.View().cur;
      StartRows(start, win);
      hide RowsFilled;
      for x := 0 to WIDTH
        invariant chunk.View().next == old(chunk.View()).next
        invariant Shows(north, w, Coord(c.x, c.y - 1)) && Shows(south, w, Coord(c.x, c.y + 1))
        invariant Towards(start, chunk.View().cur, win)
        invariant RowsFilled(chunk.View().cur, win, x)
      {
        ghost var before := chunk.View().cur;
        CopyBorder(chunk, x + 1, 0, north, x, WIDTH - 1, w, c, Coord(c.x, c.y - 1));
        ghost var between := chunk.View().cur;
        CopyBorder(chunk, x + 1, WIDTH + 1, south, x, 0, w, c, Coord(c.x, c.y + 1));
        ghost var after := chunk.View().cur;
        RowsGrow(before, between, after, win, x);
        TowardsTransitive(before, between, after, win);
        TowardsTransitive(start, before, after, win);
      }
    }

    method CopyColumns(chunk: Chunk, west: Chunk?, east: Chunk?, ghost w: WorldV, ghost c: Coord)
      requires ValidWorld(w) && chunk.Valid()
      requires (west != null ==> Apart(chunk, west)) && (east != null ==> Apart(chunk, east))
      requires Shows(west, w, Coord(c.x - 1, c.y)) && Shows(east, w, Coord(c.x + 1, c.y))
      modifies chunk.Cur()
      ensures Towards(old(chunk.View()).cur, chunk.View().cur, Window(w, c))
      ensures chunk.View().next == old(chunk.View()).next
      ensures ColumnsFilled(chunk.View().cur, Window(w, c), WIDTH)
    {
      hide Window, Filled, Shows, Towards;
      ghost var win, start := Window(w, c), chunk.View().cur;
      StartRows(start, win);
      hide ColumnsFilled;
      for y := 0 to WIDTH
        invariant chunk.View().next == old(chunk.View()).next
        invariant Shows(west, w, Coord(c.x - 1, c.y)) && Shows(east, w, Coord(c.x + 1, c.y))
        invariant Towards(start, chunk.View().cur, win)
        invariant ColumnsFilled(chunk.View().cur, win, y)
      {
        ghost var before := chunk.View().cur;
        CopyBorder(chunk, 0, y + 1, west, WIDTH - 1, y, w, c, Coord(c.x - 1, c.y));
        ghost var between := chunk.View().cur;
        CopyBorder(chunk, WIDTH + 1, y + 1, east, 0, y, w, c, Coord(c.x + 1, c.y));
        ghost var after := chunk.View().cur;
        ColumnsGrow(before, between, after, win, y);
        TowardsTransitive(before, between, after, win);
        TowardsTransitive(start, before, after, win);
      }
    }

    method CopyCorners(chunk: Chunk, northWest: Chunk?, northEast: Chunk?, southWest: Chunk?, southEast: Chunk?,
                       ghost w: WorldV, ghost c: Coord)
      requires ValidWorld(w) && chunk.Valid()
      requires (northWest != null ==> Apart(chunk, northWest)) && (northEast != null ==> Apart(chunk, northEast))
      requires (southWest != null ==> Apart(chunk, southWest)) && (southEast != null ==> Apart(chunk, southEast))
      requires Shows(northWest, w, Coord(c.x - 1, c.y - 1)) && Shows(northEast, w, Coord(c.x + 1, c.y - 1))
      requires Shows(southWest, w, Coord(c.x - 1, c.y + 1)) && Shows(southEast, w, Coord(c.x + 1, c.y + 1))
      modifies chunk.Cur()
      ensures Towards(old(chunk.View()).cur, chunk.View().cur, Window(w, c))
      ensures chunk.View().next == old(chunk.View()).next
      ensures CornersFilled(chunk.View().cur, Window(w, c))
    {
      hide Window, Filled, Towards, Shows;
      ghost var win, v0 := Window(w, c), chunk.View().cur;
      CopyBorder(chunk, 0, 0, northWest, WIDTH - 1, WIDTH - 1, w, c, Coord(c.x - 1, c.y - 1));
      ghost var v1 := chunk.View().cur;
      CopyBorder(chunk, WIDTH + 1, 0, northEast, 0, WIDTH - 1, w, c, Coord(c.x + 1, c.y - 1));
      ghost var v2 := chunk.View().cur;
      CopyBorder(chunk, 0, WIDTH + 1, southWest, WIDTH - 1, 0, w, c, Coord(c.x - 1, c.y + 1));
      ghost var v3 := chunk.View().cur;
      CopyBorder(chunk, WIDTH + 1, WIDTH + 1, southEast, 0, 0, w, c, Coord(c.x + 1, c.y + 1));
      ghost var v4 := chunk.View().cur;
      TowardsTransitive(v2, v3, v4, win);
      TowardsTransitive(v1, v2, v4, win);
      TowardsTransitive(v0, v1, v4, win);
      TowardsKeepsFilled(v1, v4, win);
      TowardsKeepsFilled(v2, v4, win);
      TowardsKeepsFilled(v3, v4, win);
    }

    method CopyEdges(chunk: Chunk, north: Chunk?, south: Chunk?, west: Chunk?, east: Chunk?,
                     ghost w: WorldV, ghost c: Coord)
      requires ValidWorld(w) && chunk.Valid()
      requires (north != null ==> Apart(chunk, north)) && (south != null ==> Apart(chunk, south))
      requires (west != null ==> Apart(chunk, west)) && (east != null ==> Apart(chunk, east))
      requires Shows(north, w, Coord(c.x, c.y - 1)) && Shows(south, w, Coord(c.x, c.y + 1))
      requires Shows(west, w, Coord(c.x - 1, c.y)) && Shows(east, w, Coord(c.x + 1, c.y))
      modifies chunk.Cur()
      ensures Towards(old(chunk.View()).cur, chunk.View().cur, Window(w, c))
      ensures chunk.View().next == old(chunk.View()).next
      ensures RowsFilled(chunk.View().cur, Window(w, c), WIDTH)
      ensures ColumnsFilled(chunk.View().cur, Window(w, c), WIDTH)
    {
      hide Index, Window, ValidWorld, Shows, Towards, RowsFilled, ColumnsFilled;
      ghost var win, v0 := Window(w, c), chunk.View().cur;
      CopyRows(chunk, north, south, w, c);
      ghost var v1 := chunk.View().cur;
      CopyColumns(chunk, west, east, w, c);
      NothingLost(v1, chunk.View().cur, win);
      TowardsTransitive(v0, v1, chunk.View().cur, win);
    }

    method CopyBorders(chunk: Chunk, north: Chunk?, south: Chunk?, west: Chunk?, east: Chunk?,
                       northWest: Chunk?, northEast: Chunk?, southWest: Chunk?, southEast: Chunk?,
                       ghost w: WorldV, ghost c: Coord)
      requires ValidWorld(w) && chunk.Valid() && Shows(chunk, w, c)
      requires (north != null ==> Apart(chunk, north)) && (south != null ==> Apart(chunk, south))
      requires (west != null ==> Apart(chunk, west)) && (east != null ==> Apart(chunk, east))
      requires (northWest != null ==> Apart(chunk, northWest)) && (northEast != null ==> Apart(chunk, northEast))
      requires (southWest != null ==> Apart(chunk, southWest)) && (southEast != null ==> Apart(chunk, southEast))
      requires Shows(north, w, Coord(c.x, c.y - 1)) && Shows(south, w, Coord(c.x, c.y + 1))
      requires Shows(west, w, Coord(c.x - 1, c.y)) && Shows(east, w, Coord(c.x + 1, c.y))
      requires Shows(northWest, w, Coord(c.x - 1, c.y - 1)) && Shows(northEast, w, Coord(c.x + 1, c.y - 1))
      requires Shows(southWest, w, Coord(c.x - 1, c.y + 1)) && Shows(southEast, w, Coord(c.x + 1, c.y + 1))
      modifies chunk.Cur()
      ensures chunk.View() == ChunkV(Window(w, c), old(chunk.View()).next, chunk.dirty)
    {
      ghost var win, v0 := Window(w, c), chunk.View().cur;
      OwnCellsFilled(chunk, w, c);
      hide Index, Window, ValidWorld, Shows, Towards, InnerPartFilled, RowsFilled, ColumnsFilled, CornersFilled;
      CopyEdges(chunk, north, south, west, east, w, c);
      ghost var v1 := chunk.View().cur;
      NothingLost(v0, v1, win);
      CopyCorners(chunk, northWest, northEast, southWest, southEast, w, c);
      NothingLost(v1, chunk.View().cur, win);
      AllFilled(chunk.View().cur, win);
    }

    /** Fills the border of chunk c; w is what the world shows, borders aside. */
    method ExchangeChunk(c: Coord, ghost w: WorldV)
      requires ShowsAll(w) && c in chunks && NeighboursFit(c)
      modifies chunks[c].Cur()
      ensures chunks[c].View() == ChunkV(Window(w, c), old(chunks[c].View()).next, chunks[c].dirty)
    {
      var chunk := chunks[c];
      assert chunk.Valid() && ValidWorld(w) && Shows(chunk, w, c);
      hide Window, ValidWorld, Shows, Apart, ShowsAll, Find;
      forall d | d in Neighbours(c)
        ensures Shows(Find(d), w, d) && (Find(d) != null ==> Apart(chunk, Find(d)))
      {
        NeighbourShows(c, d, w);
      }
      CopyBorders(chunk,
                  Find(Beside(c, 0, -1)), Find(Beside(c, 0, 1)),
                  Find(Beside(c, -1, 0)), Find(Beside(c, 1, 0)),
                  Find(Beside(c, -1, -1)), Find(Beside(c, 1, -1)),
                  Find(Beside(c, -1, 1)), Find(Beside(c, 1, 1)),
                  w, c);
    }

    /** Visits the chunks in any order. */
    method FillAllBorders()
      requires Valid() && forall c | c in chunks :: NeighboursFit(c)
      modifies Footprint()
      ensures Valid() && View() == FillBorders(old(View()))
    {
      hide View, Window, PartlyFilled, FillBorders, Apart;
      ghost var w := View();
      var todo := chunks.Keys;
      PartlyFilledStarts(w);
      while todo != {}
        invariant todo <= chunks.Keys && Valid() && chunks == old(chunks)
        invariant PartlyFilled(w, View(), todo)
      {
        var c :| c in todo;
        FillOneBorder(c, w, todo);
        todo := todo - {c};
      }
      PartlyFilledEnds(w, View());
    }

    method FillOneBorder(c: Coord, ghost w: WorldV, ghost todo: set<Coord>)
      requires Valid() && c in todo && todo <= chunks.Keys && PartlyFilled(w, View(), todo) && NeighboursFit(c)
      modifies Footprint()
      ensures Valid() && PartlyFilled(w, View(), todo - {c}) && chunks == old(chunks)
    {
      hide View, Window, PartlyFilled;
      PartlyFilledShowsAll(w, todo);
      PartlyFilledGrows(w, View(), todo, c);
      assert old(View())[c] == old(chunks[c].View()) by { ViewOf(c); }
      ExchangeChunk(c, w);
      OnlyOneChanged(c);
    }

    lemma PartlyFilledShowsAll(w: WorldV, todo: set<Coord>)
      requires Valid() && PartlyFilled(w, View(), todo)
      ensures ShowsAll(w)
    {
      hide PartlyFilled, Apart;
      PartlyFilledSameCells(w, View(), todo);
      assert forall c | c in chunks :: View()[c] == chunks[c].View();
    }

    method ExchangeBorders()
      requires Valid() && ExchangeFits(View())
      modifies this, Footprint()
      ensures Valid() && Grown()
      ensures View() == ExchangeBordersV(old(View()))
    {
      hide FillBorders, AddChunks, Margin, Apart, View, Valid;
      EnsureSimulationMargin();
      FillAllBorders();
    }

    // -------------------------------------------------------------- commands

    /** The switch of applyCommands on one cell. */
    method EditCell(cell: CellState, cmd: PlayerCommand) returns (edited: CellState)
      modifies resources
      ensures Outcome(edited, resources.balances) == Edit(cell, cmd.player, cmd.kind, old(resources.balances))
    {
      edited := cell;
      match cmd.kind
      case PlaceCell =>
        if cell.owner == 0 {
          var paid := resources.TrySpend(cmd.player, PLACE_COST);
          if paid { edited := CellState(true, cmd.player); }
        }
      case RemoveCell =>
        if cell.owner == cmd.player {
          var paid := resources.AwardPlayer(cmd.player, REMOVE_AWARD);
          if paid { edited := CellState(false, 0); }
        }
      case ToggleCell =>
        if cell.owner == 0 || cell.owner == cmd.player {
          var canToggle := false;
          if cell.alive {
            canToggle := resources.AwardPlayer(cmd.player, REMOVE_AWARD);
          } else {
            canToggle := resources.TrySpend(cmd.player, PLACE_COST);
          }
          if canToggle {
            var alive := !cell.alive;
            edited := CellState(alive, if alive then cmd.player else 0);
          }
        }
    }

    ghost function Value(): (s: ServerV)
      requires Valid()
      reads this, Footprint(), resources
      ensures ValidServer(s)
    {
      ServerV(View(), resources.balances)
    }

    method SetWorldCell(c: Coord, x: nat, y: nat, cell: CellState)
      requires Valid() && c in chunks && x < WIDTH && y < WIDTH
      modifies Footprint()
      ensures Valid() && View() == old(View())[c := SetCellV(old(View())[c], x, y, cell)]
      ensures chunks == old(chunks) && resources.balances == old(resources.balances)
    {
      hide SetCellV, View;
      assert old(View())[c] == chunks[c].View() by { ViewOf(c); }
      chunks[c].SetCell(x, y, cell);
      OnlyOneChanged(c);
    }

    method EditWorldCell(c: Coord, l: Local, cmd: PlayerCommand) returns (edited: CellState)
      requires Valid() && c in chunks && l.x < WIDTH && l.y < WIDTH
      modifies resources
      ensures Valid() && View() == old(View())
      ensures Outcome(edited, resources.balances)
              == Edit(View()[c].Get(l.x, l.y), cmd.player, cmd.kind, old(resources.balances))
    {
      hide Edit, Apart;
      var cell := chunks[c].GetCell(l.x, l.y);
      edited := EditCell(cell, cmd);
    }

    method ApplyCommand(cmd: PlayerCommand)
      requires Valid()
      modifies this, Footprint(), resources
      ensures Valid() && Grown()
      ensures Value() == CommandV(old(Value()), cmd)
    {
      hide AddChunks, Edit, Apart, SetCellV, CommandLocal, CommandChunk, View, Valid, Footprint;
      var c, l := CommandChunk(cmd.x, cmd.y), CommandLocal(cmd.x, cmd.y);
      var _ := GetOrCreateChunk(c);
      GrownFootprint();
      var edited := EditWorldCell(c, l, cmd);
      SetWorldCell(c, l.x, l.y, edited);
    }

    method ApplyCommands(cmds: seq<PlayerCommand>)
      requires Valid()
      modifies this, Footprint(), resources
      ensures Valid() && Grown()
      ensures Value() == CommandsV(old(Value()), cmds)
    {
      hide CommandV, Apart, View, Valid, Footprint, Value;
      for i := 0 to |cmds|
        invariant Valid() && Grown()
        invariant CommandsV(old(Value()), cmds) == CommandsV(Value(), cmds[i..])
      {
        GrownFootprint();
        ApplyCommand(cmds[i]);
        assert cmds[i..][1..] == cmds[i + 1..];
      }
    }
  }
}
