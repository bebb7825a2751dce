/**
 The client's side: the hash map of live cells (client/src/WorldModel.cpp) and the handling of an
 incoming datagram (client/src/GameNetworkClient.cpp).
 */
module Client {
  import opened Types
  import opened Chunks
  import Coordinates
  import opened Codec
  import opened Packets

  /** The owners of the cells the client believes to be alive. */
  type Mirror = map<Pos, PlayerId>

  function OwnerAt(m: Mirror, p: Pos): PlayerId {
    if p in m then m[p] else 0
  }

  /** A mirror never stores owner 0. */
  ghost predicate Proper(m: Mirror) {
    forall p | p in m :: m[p] != 0
  }

  lemma MirrorsEqual(m: Mirror, n: Mirror)
    requires Proper(m) && Proper(n)
    requires forall p :: OwnerAt(m, p) == OwnerAt(n, p)
    ensures m == n
  {
    assert forall p :: p in m <==> OwnerAt(m, p) != 0;
    assert forall p :: p in n <==> OwnerAt(n, p) != 0;
    assert forall p | p in m :: m[p] == OwnerAt(m, p) == OwnerAt(n, p) == n[p];
  }

  datatype AliveCell = AliveCell(x: int, y: int, owner: PlayerId)

  predicate InChunk(p: Pos, c: Coord) {
    Coordinates.ClientFloorDiv(p.x, WIDTH) == c.x && Coordinates.ClientFloorDiv(p.y, WIDTH) == c.y
  }

  function EraseChunk(m: Mirror, c: Coord): Mirror {
    map p | p in m && !InChunk(p, c) :: m[p]
  }

  function ApplyCell(m: Mirror, c: Coord, u: AliveCell): Mirror {
    var key := Pos(c.x * WIDTH + u.x, c.y * WIDTH + u.y);
    if u.owner == 0 then m - {key} else m[key := u.owner]
  }

  function ApplyCells(m: Mirror, c: Coord, us: seq<AliveCell>): Mirror
    decreases |us|
  {
    if us == [] then m else ApplyCells(ApplyCell(m, c, us[0]), c, us[1..])
  }

  /** Entries take effect in order, so of several about one cell the last one counts. */
  lemma {:induction false} LaterEntriesWin(m: Mirror, c: Coord, us: seq<AliveCell>, u: AliveCell)
    ensures ApplyCells(m, c, us + [u]) == ApplyCell(ApplyCells(m, c, us), c, u)
    decreases |us|
  {
    hide ApplyCell;
    if us == [] {
      assert us + [u] == [u] && [u][1..] == [];
    } else {
      assert (us + [u])[1..] == us[1..] + [u];
      LaterEntriesWin(ApplyCell(m, c, us[0]), c, us[1..], u);
    }
  }

  function ApplyUpdate(m: Mirror, full: bool, c: Coord, us: seq<AliveCell>): Mirror {
    ApplyCells(if full then EraseChunk(m, c) else m, c, us)
  }

  function ToAlive(cells: seq<Update>): (r: seq<AliveCell>)
    ensures |r| == |cells|
    ensures forall i | 0 <= i < |cells| ::
              r[i] == AliveCell(cells[i].x, cells[i].y, if cells[i].alive then cells[i].owner else 0)
  {
    seq(|cells|, i requires 0 <= i < |cells| =>
      AliveCell(cells[i].x, cells[i].y, if cells[i].alive then cells[i].owner else 0))
  }

  /** A datagram that does not parse is dropped. */
  function Receive(m: Mirror, d: seq<byte>): Mirror {
    match Parse(d)
    case None => m
    case Some(p) => ApplyUpdate(m, p.full, p.chunk, ToAlive(p.cells))
  }

  function ReceiveAll(m: Mirror, ds: seq<seq<byte>>): Mirror
    decreases |ds|
  {
    if ds == [] then m else ReceiveAll(Receive(m, ds[0]), ds[1..])
  }

  class WorldModel {
    var aliveCells: Mirror
    var generation: u32

    constructor ()
      ensures aliveCells == map[] && generation == 0
    {
      aliveCells, generation := map[], 0;
    }

    method Reset()
      modifies this
      ensures aliveCells == map[] && generation == 0
    {
      aliveCells, generation := map[], 0;
    }

    /** Walks the hash map in any order, erasing the keys of one chunk. */
    method EraseCells(c: Coord)
      modifies this
      ensures aliveCells == EraseChunk(old(aliveCells), c) && generation == old(generation)
    {
      ghost var was := aliveCells;
      var todo := aliveCells.Keys;
      while todo != {}
        invariant todo <= was.Keys && generation == old(generation)
        invariant aliveCells == map p | p in was && (p in todo || !InChunk(p, c)) :: was[p]
      {
        var p :| p in todo;
        if InChunk(p, c) {
          aliveCells := aliveCells - {p};
        }
        todo := todo - {p};
      }
    }

    method Apply(seqNum: u32, full: bool, c: Coord, updates: seq<AliveCell>)
      modifies this
      ensures aliveCells == ApplyUpdate(old(aliveCells), full, c, updates)
      ensures generation == seqNum
    {
      if full {
        EraseCells(c);
      }
      var baseX, baseY := c.x * WIDTH, c.y * WIDTH;
      for i := 0 to |updates|
        invariant ApplyCells(aliveCells, c, updates[i..]) == ApplyUpdate(old(aliveCells), full, c, updates)
      {
        var key := Pos(baseX + updates[i].x, baseY + updates[i].y);
        assert updates[i..][1..] == updates[i + 1..];
        if updates[i].owner == 0 {
          aliveCells := aliveCells - {key};
        } else {
          aliveCells := aliveCells[key := updates[i].owner];
        }
      }
      generation := seqNum;
    }

    method LiveCellsOwnedBy(id: PlayerId) returns (count: nat)
      ensures count == |set p | p in aliveCells && aliveCells[p] == id|
    {
      count := 0;
      var todo := aliveCells.Keys;
      ghost var found: set<Pos> := {};
      while todo != {}
        invariant todo <= aliveCells.Keys
        invariant found == set p | p in aliveCells && p !in todo && aliveCells[p] == id
        invariant count == |found|
      {
        var p :| p in todo;
        if aliveCells[p] == id {
          count := count + 1;
          found := found + {p};
        }
        todo := todo - {p};
      }
      assert found == set p | p in aliveCells && aliveCells[p] == id;
    }
  }

  /** Sequence numbers wrap around at 2^32. */
  function Successor(n: u32): u32 {
    (n + 1) % 0x1_0000_0000
  }

  /** Whether a parsed packet makes the client ask for a full snapshot. */
  predicate AsksResync(last: Option<u32>, p: Parsed) {
    last.Some? && !p.full && p.seqNum != Successor(last.value)
  }

  class GameNetworkClient {
    var lastSeqNum: Option<u32>
    const model: WorldModel

    constructor (worldModel: WorldModel)
      ensures lastSeqNum == None && model == worldModel
    {
      lastSeqNum := None;
      model := worldModel;
    }

    method ApplyDatagram(d: seq<byte>) returns (resync: bool)
      modifies this, model
      ensures model.aliveCells == Receive(old(model.aliveCells), d)
      ensures match Parse(d)
              case None => !resync && lastSeqNum == old(lastSeqNum)
              case Some(p) => lastSeqNum == Some(p.seqNum) && (resync <==> AsksResync(old(lastSeqNum), p))
    {
      var parsed := ParseUdpWorldPacket(d);
      if parsed == None {
        return false;
      }
      var p := parsed.value;
      resync := false;
      if lastSeqNum.Some? && !p.full {
        var expected := Successor(lastSeqNum.value);
        if p.seqNum != expected {
          resync := true;
        }
      }
      lastSeqNum := Some(p.seqNum);
      var updates: seq<AliveCell> := [];
      for i := 0 to |p.cells|
        invariant updates == ToAlive(p.cells)[..i]
        invariant lastSeqNum == Some(p.seqNum) && model.aliveCells == old(model.aliveCells)
      {
        var cell := p.cells[i];
        updates := updates + [AliveCell(cell.x, cell.y, if cell.alive then cell.owner else 0)];
      }
      assert updates == ToAlive(p.cells);
      model.Apply(p.seqNum, p.full, p.chunk, updates);
    }
  }

  // ---------------------------------------------------------------- sequence numbers

  /** How many snapshots the client asks for while receiving these packets in order. */
  function Resyncs(last: Option<u32>, ps: seq<Parsed>): nat
    decreases |ps|
  {
    if ps == [] then 0 else
      (if AsksResync(last, ps[0]) then 1 else 0) + Resyncs(Some(ps[0].seqNum), ps[1..])
  }

  /**
   All packets of a tick carry the tick's number, so the client takes every one but the first for a
   gap, and the first as well unless the number follows the last one received: a tick delivered in k
   delta packets, in order and without loss, brings k - 1 or k requests.
   */
  lemma {:induction false} LosslessTickAsksForResyncs(last: Option<u32>, n: u32, ps: seq<Parsed>)
    requires ps != []
    requires forall p | p in ps :: !p.full && p.seqNum == n
    ensures Resyncs(last, ps) == if last == None || n == Successor(last.value) then |ps| - 1 else |ps|
  {
    assert ps[0] in ps;
    RepeatsAskForResyncs(n, ps[1..]);
  }

  lemma {:induction false} RepeatsAskForResyncs(n: u32, ps: seq<Parsed>)
    requires forall p | p in ps :: !p.full && p.seqNum == n
    ensures Resyncs(Some(n), ps) == |ps|
    decreases |ps|
  {
    if ps != [] {
      assert ps[0] in ps;
      RepeatsAskForResyncs(n, ps[1..]);
    }
  }
}
