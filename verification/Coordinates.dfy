/**
 Where a cell of the plane lives: the chunk-coordinate arithmetic of World::applyCommands
 (server/src/World.cpp) and of the client's floorDiv (client/src/WorldModel.cpp), written with the
 truncating division of C++ and shown to be floor division and its remainder.
 */
module Coordinates {
  import opened Types
  import opened Chunks

  /** C++ integer division and remainder by a positive divisor: both truncate towards zero. */
  function TruncDiv(a: int, b: int): int
    requires b > 0
  {
    if a >= 0 then a / b else -((-a) / b)
  }

  function TruncMod(a: int, b: int): int
    requires b > 0
  {
    a - b * TruncDiv(a, b)
  }

  predicate FitsInt32(v: int) {
    -0x8000_0000 <= v < 0x8000_0000
  }

  /** The conversion of a 64-bit value to a 32-bit int. */
  function ToInt32(v: int): (r: int)
    ensures FitsInt32(r)
    ensures r == v <==> FitsInt32(v)
  {
    (v + 0x8000_0000) % 0x1_0000_0000 - 0x8000_0000
  }

  function ChunkIndex(v: int): int {
    if v >= 0 then TruncDiv(v, WIDTH) else TruncDiv(v - WIDTH + 1, WIDTH)
  }

  function LocalIndex(v: int): int {
    TruncMod(TruncMod(v, WIDTH) + WIDTH, WIDTH)
  }

  /** The client's own division, with its guard. */
  function ClientFloorDiv(value: int, divisor: int): int {
    if divisor <= 0 then 0
    else if value >= 0 then TruncDiv(value, divisor)
    else TruncDiv(value - divisor + 1, divisor)
  }

  lemma ServerCoordinatesAreFloor(v: int)
    ensures ChunkIndex(v) == v / WIDTH
    ensures LocalIndex(v) == v % WIDTH
  {
  }

  lemma ClientCoordinatesAreFloor(v: int)
    ensures ClientFloorDiv(v, WIDTH) == v / WIDTH
  {
  }

  function Home(p: Pos): Coord {
    Coord(p.x / WIDTH, p.y / WIDTH)
  }

  function LocalOf(p: Pos): (l: Local)
    ensures l.x < WIDTH && l.y < WIDTH
  {
    Local(p.x % WIDTH, p.y % WIDTH)
  }

  function CellPos(c: Coord, l: Local): Pos {
    Pos(WIDTH * c.x + l.x, WIDTH * c.y + l.y)
  }

  /** The position that storage entry (sx, sy) of chunk c stands for, its border included. */
  function StoragePos(c: Coord, sx: int, sy: int): Pos {
    Pos(WIDTH * c.x + sx - 1, WIDTH * c.y + sy - 1)
  }

  /** Splitting a position and joining it again are inverse, for negative coordinates too. */
  lemma SplitJoin(p: Pos, c: Coord, l: Local)
    requires l.x < WIDTH && l.y < WIDTH
    ensures CellPos(Home(p), LocalOf(p)) == p
    ensures CellPos(c, l) == p <==> c == Home(p) && l == LocalOf(p)
  {
  }

  /** The chunk a command is sent to, with the source's narrowing to int. */
  function CommandChunk(x: int, y: int): Coord {
    Coord(ToInt32(ChunkIndex(x)), ToInt32(ChunkIndex(y)))
  }

  function CommandLocal(x: int, y: int): (l: Local)
    ensures l.x < WIDTH && l.y < WIDTH
  {
    ServerCoordinatesAreFloor(x);
    ServerCoordinatesAreFloor(y);
    Local(LocalIndex(x), LocalIndex(y))
  }

  predicate InRange(v: int) {
    -0x20_0000_0000 <= v < 0x20_0000_0000
  }

  /** The residue of v modulo 2^38, centred on 0. */
  function Wrap(v: int): int {
    (v + 0x20_0000_0000) % 0x40_0000_0000 - 0x20_0000_0000
  }

  lemma Remainder(a: int, q: int, r: int)
    requires a == 0x40_0000_0000 * q + r && 0 <= r < 0x40_0000_0000
    ensures a % 0x40_0000_0000 == r
  {
  }

  lemma NarrowedIndexWraps(v: int)
    ensures WIDTH * ToInt32(v / WIDTH) + v % WIDTH == Wrap(v)
  {
    var t := v / 64 + 0x8000_0000;
    var q, r := t / 0x1_0000_0000, t % 0x1_0000_0000;
    assert t == 0x1_0000_0000 * q + r;
    var low := 64 * r + v % 64;
    assert v + 0x20_0000_0000 == 64 * t + v % 64 == 0x40_0000_0000 * q + low;
    Remainder(v + 0x20_0000_0000, q, low);
  }

  /** Narrowing the chunk coordinate to 32 bits makes commands wrap around a plane of side 2^38. */
  lemma CommandWraps(x: int, y: int)
    ensures CellPos(CommandChunk(x, y), CommandLocal(x, y)) == Pos(Wrap(x), Wrap(y))
  {
    hide Wrap, ToInt32, ChunkIndex, LocalIndex;
    ServerCoordinatesAreFloor(x);
    ServerCoordinatesAreFloor(y);
    NarrowedIndexWraps(x);
    NarrowedIndexWraps(y);
  }

  lemma WrapIsIdentityInRange(v: int)
    ensures Wrap(v) == v <==> InRange(v)
  {
  }

  /** A command reaches the cell it names exactly when both coordinates are in range. */
  lemma CommandReachesItsCell(x: int, y: int)
    ensures CellPos(CommandChunk(x, y), CommandLocal(x, y)) == Pos(x, y) <==> InRange(x) && InRange(y)
  {
    hide Wrap, CommandChunk, CommandLocal, CellPos, InRange;
    CommandWraps(x, y);
    WrapIsIdentityInRange(x);
    WrapIsIdentityInRange(y);
  }

  /** A command for (2^37, 0) edits a cell on the far negative side instead. */
  lemma FarCommandGoesAstray()
    ensures CellPos(CommandChunk(0x20_0000_0000, 0), CommandLocal(0x20_0000_0000, 0))
            == Pos(-0x20_0000_0000, 0)
  {
    hide CommandChunk, CommandLocal;
    CommandWraps(0x20_0000_0000, 0);
  }
}
