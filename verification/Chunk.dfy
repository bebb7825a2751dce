/**
 One 64x64 chunk (server/include/Chunk.hpp, server/src/Chunk.cpp): two 66x66 buffers whose outer
 ring holds copies of the neighbouring chunks' cells, and the list of cells to send to clients.
 ChunkV is the value of a chunk; the class keeps that value in two arrays and an index.
 */
module Chunks {
  import opened Types
  import opened Plane

  const WIDTH: nat := 64
  const TOTAL_WIDTH: nat := 66
  const TOTAL_CELLS: nat := 4356

  function Index(sx: nat, sy: nat): (i: nat)
    requires sx < TOTAL_WIDTH && sy < TOTAL_WIDTH
    ensures i < TOTAL_CELLS
  {
    sy * TOTAL_WIDTH + sx
  }

  /** Storage position (sx, sy) holds one of the chunk's own cells, not a border copy. */
  predicate Inner(sx: int, sy: int) {
    1 <= sx <= WIDTH && 1 <= sy <= WIDTH
  }

  lemma IndexSplit(i: nat)
    requires i < TOTAL_CELLS
    ensures i % TOTAL_WIDTH < TOTAL_WIDTH && i / TOTAL_WIDTH < TOTAL_WIDTH
    ensures i == Index(i % TOTAL_WIDTH, i / TOTAL_WIDTH)
  {
  }

  lemma IndexInjective(sx: nat, sy: nat, tx: nat, ty: nat)
    requires sx < TOTAL_WIDTH && sy < TOTAL_WIDTH && tx < TOTAL_WIDTH && ty < TOTAL_WIDTH
    requires Index(sx, sy) == Index(tx, ty)
    ensures sx == tx && sy == ty
  {
  }

  lemma BuffersEqual(a: seq<CellState>, b: seq<CellState>)
    requires |a| == |b| == TOTAL_CELLS
    requires forall sx: nat, sy: nat | sx < TOTAL_WIDTH && sy < TOTAL_WIDTH ::
               a[Index(sx, sy)] == b[Index(sx, sy)]
    ensures a == b
  {
    forall i: nat | i < TOTAL_CELLS ensures a[i] == b[i] { IndexSplit(i); }
  }

  /** The eight storage cells around an inner position, row by row. */
  function Ring(buf: seq<CellState>, sx: nat, sy: nat): (r: seq<CellState>)
    requires |buf| == TOTAL_CELLS && Inner(sx, sy)
    ensures |r| == 8
  {
    [buf[Index(sx - 1, sy - 1)], buf[Index(sx, sy - 1)], buf[Index(sx + 1, sy - 1)],
     buf[Index(sx - 1, sy)], buf[Index(sx + 1, sy)],
     buf[Index(sx - 1, sy + 1)], buf[Index(sx, sy + 1)], buf[Index(sx + 1, sy + 1)]]
  }

  /** The next state of inner cell (x, y), computed from the buffer alone. */
  function NextInner(buf: seq<CellState>, x: nat, y: nat): CellState
    requires |buf| == TOTAL_CELLS && x < WIDTH && y < WIDTH
  {
    NextCell(buf[Index(x + 1, y + 1)], Ring(buf, x + 1, y + 1))
  }

  /** cur is the buffer being shown, next the one being computed. */
  datatype ChunkV = ChunkV(cur: seq<CellState>, next: seq<CellState>, dirty: seq<Local>) {
    ghost predicate Valid() {
      && |cur| == |next| == TOTAL_CELLS
      && forall d | d in dirty :: d.x < WIDTH && d.y < WIDTH
    }

    function Get(x: nat, y: nat): CellState
      requires |cur| == TOTAL_CELLS && x < WIDTH && y < WIDTH
    {
      cur[Index(x + 1, y + 1)]
    }
  }

  ghost function EmptyBuffer(): (r: seq<CellState>)
    ensures |r| == TOTAL_CELLS && forall i | 0 <= i < |r| :: r[i] == DEAD
  {
    seq(TOTAL_CELLS, i => DEAD)
  }

  ghost function EmptyChunk(): (r: ChunkV)
    ensures r.Valid()
    ensures forall x: nat, y: nat | x < WIDTH && y < WIDTH :: r.Get(x, y) == DEAD
  {
    ChunkV(EmptyBuffer(), EmptyBuffer(), [])
  }

  ghost function SetCellV(v: ChunkV, x: nat, y: nat, c: CellState): (r: ChunkV)
    requires v.Valid() && x < WIDTH && y < WIDTH
    ensures r.Valid()
  {
    v.(cur := v.cur[Index(x + 1, y + 1) := c], dirty := v.dirty + [Local(x, y)])
  }

  /** Position of a cell in row order, and the cell at a position. */
  function Rank(l: Local): nat {
    l.y * WIDTH + l.x
  }

  function AtRank(k: nat): (l: Local)
    requires k < WIDTH * WIDTH
    ensures l.x < WIDTH && l.y < WIDTH && Rank(l) == k
  {
    Local(k % WIDTH, k / WIDTH)
  }

  lemma RankBound(l: Local)
    requires l.x < WIDTH && l.y < WIDTH
    ensures Rank(l) < WIDTH * WIDTH
  {
  }

  /** Ranks grow row by row and from left to right. */
  lemma RankIsRowOrder(l: Local, m: Local)
    requires l.x < WIDTH && l.y < WIDTH && m.x < WIDTH && m.y < WIDTH
    ensures Rank(l) < Rank(m) <==> l.y < m.y || (l.y == m.y && l.x < m.x)
  {
  }

  lemma RankInjective(l: Local, m: Local)
    requires l.x < WIDTH && l.y < WIDTH && m.x < WIDTH && m.y < WIDTH && Rank(l) == Rank(m)
    ensures l == m
  {
  }

  /** A generation gives cell l a new state. */
  predicate Changes(buf: seq<CellState>, l: Local)
    requires |buf| == TOTAL_CELLS && l.x < WIDTH && l.y < WIDTH
  {
    NextInner(buf, l.x, l.y) != buf[Index(l.x + 1, l.y + 1)]
  }

  /** The cells, among the first k in row order, that a generation changes. */
  ghost function Changed(buf: seq<CellState>, k: nat): (r: seq<Local>)
    requires |buf| == TOTAL_CELLS && k <= WIDTH * WIDTH
    ensures forall l | l in r :: l.x < WIDTH && l.y < WIDTH
  {
    if k == 0 then [] else
      Changed(buf, k - 1) + (if Changes(buf, AtRank(k - 1)) then [AtRank(k - 1)] else [])
  }

  /** The inner cells of one generation; border entries keep whatever the old buffer held. */
  ghost function NextBuffer(cur: seq<CellState>, next: seq<CellState>): (r: seq<CellState>)
    requires |cur| == |next| == TOTAL_CELLS
    ensures |r| == TOTAL_CELLS
    ensures forall sx: nat, sy: nat | sx < TOTAL_WIDTH && sy < TOTAL_WIDTH ::
              r[Index(sx, sy)] == if Inner(sx, sy) then NextInner(cur, sx - 1, sy - 1)
                                  else next[Index(sx, sy)]
  {
    seq(TOTAL_CELLS, i requires 0 <= i < TOTAL_CELLS =>
      if Inner(i % TOTAL_WIDTH, i / TOTAL_WIDTH)
      then NextInner(cur, i % TOTAL_WIDTH - 1, i / TOTAL_WIDTH - 1)
      else next[i])
  }

  /** One cell of a generation: its next state goes to the other buffer, a change is listed. */
  ghost function CalculateCellV(v: ChunkV, l: Local): (r: ChunkV)
    requires v.Valid() && l.x < WIDTH && l.y < WIDTH
    ensures r.Valid()
  {
    ChunkV(v.cur, v.next[Index(l.x + 1, l.y + 1) := NextInner(v.cur, l.x, l.y)],
           v.dirty + (if Changes(v.cur, l) then [l] else []))
  }

  ghost function CalculateNextV(v: ChunkV): (r: ChunkV)
    requires v.Valid()
    ensures r.Valid()
  {
    ChunkV(v.cur, NextBuffer(v.cur, v.next), v.dirty + Changed(v.cur, WIDTH * WIDTH))
  }

  ghost function SwapV(v: ChunkV): ChunkV {
    v.(cur := v.next, next := v.cur)
  }

  ghost function FlushV(v: ChunkV): ChunkV {
    v.(dirty := [])
  }

  ghost function AllLocals(): set<Local> {
    set x: nat, y: nat | x < WIDTH && y < WIDTH :: Local(x, y)
  }

  /** Cell l counts towards the income of player id. */
  predicate Owns(v: ChunkV, l: Local, id: PlayerId)
    requires |v.cur| == TOTAL_CELLS && l.x < WIDTH && l.y < WIDTH
  {
    Counted(v.Get(l.x, l.y)) && v.Get(l.x, l.y).owner == id
  }

  /** The cells of player id among the first k in row order. */
  ghost function OwnedLocals(v: ChunkV, id: PlayerId, k: nat): set<Local>
    requires |v.cur| == TOTAL_CELLS
  {
    set l | l in AllLocals() && Rank(l) < k && Owns(v, l, id)
  }

  lemma OwnedLocalsGrows(v: ChunkV, id: PlayerId, l: Local)
    requires |v.cur| == TOTAL_CELLS && l.x < WIDTH && l.y < WIDTH
    ensures |OwnedLocals(v, id, Rank(l) + 1)| ==
            |OwnedLocals(v, id, Rank(l))| + (if Owns(v, l, id) then 1 else 0)
  {
    var before, after := OwnedLocals(v, id, Rank(l)), OwnedLocals(v, id, Rank(l) + 1);
    assert l in AllLocals();
    forall m | m in AllLocals() && m != l ensures m in after <==> m in before {
      if Rank(m) == Rank(l) { RankInjective(m, l); }
    }
    if Owns(v, l, id) {
      assert after == before + {l};
    } else {
      assert after == before;
    }
  }

  lemma ChangedGrows(buf: seq<CellState>, l: Local)
    requires |buf| == TOTAL_CELLS && l.x < WIDTH && l.y < WIDTH
    ensures Changed(buf, Rank(l) + 1) == Changed(buf, Rank(l)) + (if Changes(buf, l) then [l] else [])
  {
    hide Changes, AtRank;
    RankInjective(l, AtRank(Rank(l)));
  }

  /** Every cell a generation changes is listed, and nothing else is. */
  lemma {:induction false} ChangedIsComplete(buf: seq<CellState>, k: nat, l: Local)
    requires |buf| == TOTAL_CELLS && k <= WIDTH * WIDTH && l.x < WIDTH && l.y < WIDTH
    ensures l in Changed(buf, k) <==> Rank(l) < k && Changes(buf, l)
  {
    hide Changes, AtRank;
    if k > 0 {
      ChangedIsComplete(buf, k - 1, l);
      if Rank(l) == k - 1 { RankInjective(l, AtRank(k - 1)); }
    }
  }

  /** The changed cells are listed row by row, each of them once. */
  lemma {:induction false} ChangedInRowOrder(buf: seq<CellState>, k: nat)
    requires |buf| == TOTAL_CELLS && k <= WIDTH * WIDTH
    ensures forall i | 0 <= i < |Changed(buf, k)| :: Rank(Changed(buf, k)[i]) < k
    ensures forall i, j | 0 <= i < j < |Changed(buf, k)| ::
              var l, m := Changed(buf, k)[i], Changed(buf, k)[j];
              l.y < m.y || (l.y == m.y && l.x < m.x)
  {
    hide Changes, AtRank, Rank;
    if k > 0 {
      var before := Changed(buf, k - 1);
      ChangedInRowOrder(buf, k - 1);
      forall i | 0 <= i < |before| ensures before[i].x < WIDTH && before[i].y < WIDTH { assert before[i] in before; }
      forall i | 0 <= i < |before| { RankIsRowOrder(before[i], AtRank(k - 1)); }
    }
  }

  // ---------------------------------------------------------------- loop bookkeeping

  /** How many neighbours the scan has read when it reaches offset (dx, dy). */
  function Scanned(dx: int, dy: int): (k: nat)
    requires -1 <= dx <= 2 && -1 <= dy <= 2 && (dy == 2 ==> dx == -1)
    ensures k <= 8
  {
    (dy + 1) * 3 + dx + 1 - (if dy > 0 || (dy == 0 && dx > 0) then 1 else 0)
  }

  /** owners records exactly the votes of the neighbours seen so far. */
  ghost predicate Tally(owners: map<PlayerId, nat>, seen: seq<CellState>) {
    forall id: PlayerId ::
      && (id in owners <==> Votes(seen, id) > 0)
      && (id in owners ==> owners[id] == Votes(seen, id))
  }

  lemma TallyStarts()
    ensures LiveCount([]) == 0 && Tally(map[], [])
  {
  }

  lemma TallyAppend(owners: map<PlayerId, nat>, seen: seq<CellState>, c: CellState)
    requires Tally(owners, seen)
    ensures LiveCount(seen + [c]) == LiveCount(seen) + (if Counted(c) then 1 else 0)
    ensures Tally(if !Counted(c) then owners else
                  owners[c.owner := (if c.owner in owners then owners[c.owner] else 0) + 1], seen + [c])
  {
    forall id: PlayerId { VotesAppend(seen, c, id); }
    VotesAppend(seen, c, 0);
  }

  /** owner has the most votes among the ids in done, and is the largest such id. */
  ghost predicate IsWinner(owners: map<PlayerId, nat>, done: set<PlayerId>, owner: PlayerId)
    requires done <= owners.Keys
  {
    && owner in done
    && forall id | id in done :: owners[id] < owners[owner] || (owners[id] == owners[owner] && id <= owner)
  }

  /** Walks the votes in ascending id order, keeping the latest owner that is not outvoted. */
  method PickOwner(owners: map<PlayerId, nat>) returns (owner: PlayerId)
    ensures owners != map[] ==> IsWinner(owners, owners.Keys, owner)
  {
    var todo := owners.Keys;
    ghost var done: set<PlayerId> := {};
    var best: nat := 0;
    owner := 0;
    while todo != {}
      invariant done + todo == owners.Keys
      invariant forall id, j | id in done && j in todo :: id <= j
      invariant if done == {} then best == 0 else IsWinner(owners, done, owner) && best == owners[owner]
    {
      SmallestExists(todo);
      var id :| IsSmallest(todo, id);
      if owners[id] >= best {
        owner, best := id, owners[id];
      }
      todo, done := todo - {id}, done + {id};
    }
    assert done == owners.Keys;
  }

  lemma TallyWinner(owners: map<PlayerId, nat>, ring: seq<CellState>, owner: PlayerId)
    requires Tally(owners, ring) && LiveCount(ring) > 0
    requires owners != map[] ==> IsWinner(owners, owners.Keys, owner)
    ensures owner == Majority(ring)
  {
    MajorityIsGreatest(ring, 0);
    VotesWitness(ring, Majority(ring));
    assert Majority(ring) in owners;
    forall id: PlayerId ensures Beats(ring, owner, id) {
      if id in owners { assert Votes(ring, id) == owners[id]; }
    }
    MajorityUnique(ring, owner);
  }

  /** The first k inner cells hold the next generation, everything else is as before. */
  ghost predicate PartlyNext(was: ChunkV, buf: seq<CellState>, k: nat)
    requires was.Valid()
  {
    && |buf| == TOTAL_CELLS
    && forall sx: nat, sy: nat | sx < TOTAL_WIDTH && sy < TOTAL_WIDTH ::
         buf[Index(sx, sy)] == if Inner(sx, sy) && (sy - 1) * WIDTH + sx - 1 < k
                               then NextInner(was.cur, sx - 1, sy - 1)
                               else was.next[Index(sx, sy)]
  }

  lemma PartlyNextGrows(was: ChunkV, buf: seq<CellState>, x: nat, y: nat)
    requires was.Valid() && x < WIDTH && y < WIDTH && PartlyNext(was, buf, y * WIDTH + x)
    ensures PartlyNext(was, buf[Index(x + 1, y + 1) := NextInner(was.cur, x, y)], y * WIDTH + x + 1)
  {
    hide NextInner;
    var k := y * WIDTH + x;
    var grown := buf[Index(x + 1, y + 1) := NextInner(was.cur, x, y)];
    forall sx: nat, sy: nat | sx < TOTAL_WIDTH && sy < TOTAL_WIDTH
      ensures grown[Index(sx, sy)] == if Inner(sx, sy) && (sy - 1) * WIDTH + sx - 1 < k + 1
                                      then NextInner(was.cur, sx - 1, sy - 1)
                                      else was.next[Index(sx, sy)]
    {
      if sx == x + 1 && sy == y + 1 {
      } else {
        assert Index(sx, sy) != Index(x + 1, y + 1);
        assert Inner(sx, sy) ==> (sy - 1) * WIDTH + sx - 1 != k;
      }
    }
  }

  lemma PartlyNextStarts(was: ChunkV)
    requires was.Valid()
    ensures PartlyNext(was, was.next, 0) && Changed(was.cur, 0) == []
  {
  }

  lemma PartlyNextEnds(was: ChunkV, buf: seq<CellState>)
    requires was.Valid() && PartlyNext(was, buf, WIDTH * WIDTH)
    ensures buf == NextBuffer(was.cur, was.next)
  {
    BuffersEqual(buf, NextBuffer(was.cur, was.next));
  }

  lemma CountsUpToStarts(v: ChunkV)
    requires |v.cur| == TOTAL_CELLS
    ensures CountsUpTo(v, map[], 0)
  {
  }

  /** counts is the number of cells per owner among the first k inner cells. */
  ghost predicate CountsUpTo(v: ChunkV, counts: map<PlayerId, nat>, k: nat)
    requires |v.cur| == TOTAL_CELLS
  {
    forall id: PlayerId ::
      && (id in counts <==> OwnedLocals(v, id, k) != {})
      && (id in counts ==> counts[id] == |OwnedLocals(v, id, k)|)
  }

  lemma CountsUpToGrows(v: ChunkV, counts: map<PlayerId, nat>, l: Local)
    requires |v.cur| == TOTAL_CELLS && l.x < WIDTH && l.y < WIDTH && CountsUpTo(v, counts, Rank(l))
    ensures var c := v.Get(l.x, l.y);
            CountsUpTo(v, if !Counted(c) then counts else
                          counts[c.owner := (if c.owner in counts then counts[c.owner] else 0) + 1],
                       Rank(l) + 1)
  {
    forall id: PlayerId
      ensures OwnedLocals(v, id, Rank(l) + 1) != {} <==>
              OwnedLocals(v, id, Rank(l)) != {} || Owns(v, l, id)
    {
      OwnedLocalsGrows(v, id, l);
    }
    forall id: PlayerId { OwnedLocalsGrows(v, id, l); }
  }

  // ---------------------------------------------------------------- the chunk object

  class Chunk {
    var currentBuffer: nat
    const buffer0: array<CellState>
    const buffer1: array<CellState>
    var dirty: seq<Local>

    ghost predicate Valid()
      reads this
    {
      && currentBuffer < 2
      && buffer0 != buffer1
      && buffer0.Length == buffer1.Length == TOTAL_CELLS
      && forall d | d in dirty :: d.x < WIDTH && d.y < WIDTH
    }

    function Cur(): array<CellState>
      reads this
    {
      if currentBuffer == 0 then buffer0 else buffer1
    }

    function Next(): array<CellState>
      reads this
    {
      if currentBuffer == 0 then buffer1 else buffer0
    }

    ghost function View(): (v: ChunkV)
      reads this, buffer0, buffer1
      ensures Valid() ==> v.Valid()
    {
      ChunkV(Cur()[..], Next()[..], dirty)
    }

    constructor ()
      ensures Valid() && fresh(buffer0) && fresh(buffer1)
      ensures View() == EmptyChunk()
    {
      currentBuffer := 0;
      buffer0 := new CellState[TOTAL_CELLS](i => DEAD);
      buffer1 := new CellState[TOTAL_CELLS](i => DEAD);
      dirty := [];
      new;
      assert buffer0[..] == EmptyBuffer();
      assert buffer1[..] == EmptyBuffer();
    }

    method GetCell(x: nat, y: nat) returns (c: CellState)
      requires Valid() && x < WIDTH && y < WIDTH
      ensures c == View().Get(x, y)
    {
      c := Cur()[Index(x + 1, y + 1)];
    }

    method SetCell(x: nat, y: nat, c: CellState)
      requires Valid() && x < WIDTH && y < WIDTH
      modifies Cur(), `dirty
      ensures Valid() && View() == SetCellV(old(View()), x, y, c)
    {
      Cur()[Index(x + 1, y + 1)] := c;
      dirty := dirty + [Local(x, y)];
    }

    method SetGhostCell(sx: nat, sy: nat, c: CellState)
      requires Valid() && sx < TOTAL_WIDTH && sy < TOTAL_WIDTH
      modifies Cur()
      ensures View() == old(View()).(cur := old(View()).cur[Index(sx, sy) := c])
    {
      Cur()[Index(sx, sy)] := c;
    }

    /** Scans the eight neighbours and picks the owner of a possible birth. */
    method NeighborAliveCount(sx: nat, sy: nat) returns (count: nat, nextOwner: PlayerId)
      requires Valid() && Inner(sx, sy)
      ensures count == LiveCount(Ring(Cur()[..], sx, sy))
      ensures count > 0 ==> nextOwner == Majority(Ring(Cur()[..], sx, sy))
    {
      hide LiveCount, Majority, Tally;
      ghost var ring := Ring(Cur()[..], sx, sy);
      TallyStarts();
      ghost var seen: seq<CellState> := [];
      count := 0;
      var owners: map<PlayerId, nat> := map[];
      for dy := -1 to 2
        invariant seen == ring[..Scanned(-1, dy)]
        invariant count == LiveCount(seen) && Tally(owners, seen)
      {
        for dx := -1 to 2
          invariant seen == ring[..Scanned(dx, dy)]
          invariant count == LiveCount(seen) && Tally(owners, seen)
        {
          if dx == 0 && dy == 0 {
            continue;
          }
          var c := Cur()[Index(sx + dx, sy + dy)];
          assert c == ring[Scanned(dx, dy)];
          TallyAppend(owners, seen, c);
          seen := seen + [c];
          if Counted(c) {
            count := count + 1;
            owners := owners[c.owner := (if c.owner in owners then owners[c.owner] else 0) + 1];
          }
        }
      }
      assert seen == ring;
      nextOwner := PickOwner(owners);
      if count > 0 { TallyWinner(owners, ring, nextOwner); }
    }

    /** The body of the generation loop: one cell, written to the other buffer. */
    method CalculateCell(x: nat, y: nat)
      requires Valid() && x < WIDTH && y < WIDTH
      modifies Next(), `dirty
      ensures Valid() && View() == CalculateCellV(old(View()), Local(x, y))
    {
      hide LiveCount, Majority, Ring;
      var cell := Cur()[Index(x + 1, y + 1)];
      var neighbors, nextOwner := NeighborAliveCount(x + 1, y + 1);
      var nextCell := cell;
      if cell.alive {
        if neighbors < 2 || neighbors > 3 {
          nextCell := CellState(false, 0);
          dirty := dirty + [Local(x, y)];
        }
      } else {
        if neighbors == 3 {
          nextCell := CellState(true, nextOwner);
          dirty := dirty + [Local(x, y)];
        }
      }
      Next()[Index(x + 1, y + 1)] := nextCell;
    }

    method CalculateNext()
      requires Valid()
      modifies Next(), `dirty
      ensures Valid() && View() == CalculateNextV(old(View()))
    {
      hide NextInner, Changes, Changed, PartlyNext;
      ghost var was := View();
      PartlyNextStarts(was);
      for y := 0 to WIDTH
        invariant Valid() && Cur()[..] == was.cur
        invariant dirty == was.dirty + Changed(was.cur, y * WIDTH)
        invariant PartlyNext(was, Next()[..], y * WIDTH)
      {
        for x := 0 to WIDTH
          invariant Valid() && Cur()[..] == was.cur
          invariant dirty == was.dirty + Changed(was.cur, y * WIDTH + x)
          invariant PartlyNext(was, Next()[..], y * WIDTH + x)
        {
          PartlyNextGrows(was, Next()[..], x, y);
          ChangedGrows(was.cur, Local(x, y));
          CalculateCell(x, y);
        }
      }
      PartlyNextEnds(was, Next()[..]);
    }

    method SwapBuffers()
      requires Valid()
      modifies `currentBuffer
      ensures Valid() && View() == SwapV(old(View()))
    {
      currentBuffer := 1 - currentBuffer;
    }

    method ClearDirty()
      requires Valid()
      modifies `dirty
      ensures Valid() && View() == FlushV(old(View()))
    {
      dirty := [];
    }

    method GetLiveCountByPlayer() returns (counts: map<PlayerId, nat>)
      requires Valid()
      ensures CountsUpTo(View(), counts, WIDTH * WIDTH)
    {
      hide CountsUpTo, OwnedLocals;
      ghost var v := View();
      counts := map[];
      CountsUpToStarts(v);
      for y := 0 to WIDTH
        invariant CountsUpTo(v, counts, y * WIDTH)
      {
        for x := 0 to WIDTH
          invariant CountsUpTo(v, counts, y * WIDTH + x)
        {
          var cell := Cur()[Index(x + 1, y + 1)];
          assert cell == v.Get(x, y);
          CountsUpToGrows(v, counts, Local(x, y));
          if Counted(cell) {
            counts := counts[cell.owner := (if cell.owner in counts then counts[cell.owner] else 0) + 1];
          }
        }
      }
    }
  }
}
