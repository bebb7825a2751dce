/** Turning the chunked world into update packets (server/include/WorldSerializer.hpp). */
module Serializer {
  import opened Types
  import opened Chunks
  import opened WorldSpec
  import opened Codec
  import opened Packets
  import opened Worlds

  function EntryAt(v: ChunkV, l: Local): Entry
    requires |v.cur| == TOTAL_CELLS && l.x < WIDTH && l.y < WIDTH
  {
    var state := v.Get(l.x, l.y);
    Entry(l.x, l.y, if state.alive then 1 else 0, state.owner)
  }

  /** The dirty cells with their present state, in the order they were listed, repeats included. */
  ghost function DirtyEntries(v: ChunkV): (r: seq<Entry>)
    requires v.Valid()
    ensures |r| == |v.dirty|
  {
    seq(|v.dirty|, i requires 0 <= i < |v.dirty| => EntryAt(v, v.dirty[i]))
  }

  /** The live cells among the first k in row order. */
  ghost function LiveEntries(v: ChunkV, k: nat): (r: seq<Entry>)
    requires v.Valid() && k <= WIDTH * WIDTH
    ensures |r| <= k
  {
    if k == 0 then [] else
      var l := AtRank(k - 1);
      LiveEntries(v, k - 1) + (if v.Get(l.x, l.y).alive then [EntryAt(v, l)] else [])
  }

  ghost predicate Listed(order: seq<Coord>, w: WorldV) {
    ValidWorld(w) && forall c | c in order :: c in w
  }

  ghost predicate Distinct(order: seq<Coord>) {
    forall i, j | 0 <= i < j < |order| :: order[i] != order[j]
  }

  /** order lists every chunk of w exactly once. */
  ghost predicate Enumerates(order: seq<Coord>, w: WorldV) {
    Listed(order, w) && Distinct(order) && forall c | c in w :: c in order
  }

  ghost function DeltaPackets(seqNum: u32, order: seq<Coord>, w: WorldV): seq<Packet>
    requires Listed(order, w)
    decreases |order|
  {
    if order == [] then [] else
      Fragments(seqNum, FLAG_DELTA, order[0], DirtyEntries(w[order[0]])) + DeltaPackets(seqNum, order[1..], w)
  }

  ghost function FullPackets(seqNum: u32, order: seq<Coord>, w: WorldV): seq<Packet>
    requires Listed(order, w)
    decreases |order|
  {
    if order == [] then [] else
      Fragments(seqNum, FLAG_FULL, order[0], LiveEntries(w[order[0]], WIDTH * WIDTH))
      + FullPackets(seqNum, order[1..], w)
  }

  lemma {:induction false} DeltaPacketsGrow(seqNum: u32, order: seq<Coord>, w: WorldV, c: Coord)
    requires Listed(order, w) && c in w
    ensures DeltaPackets(seqNum, order + [c], w)
            == DeltaPackets(seqNum, order, w) + Fragments(seqNum, FLAG_DELTA, c, DirtyEntries(w[c]))
    decreases |order|
  {
    hide Fragments;
    if order == [] {
      assert [c][1..] == [];
    } else {
      assert (order + [c])[1..] == order[1..] + [c];
      DeltaPacketsGrow(seqNum, order[1..], w, c);
    }
  }

  lemma {:induction false} FullPacketsGrow(seqNum: u32, order: seq<Coord>, w: WorldV, c: Coord)
    requires Listed(order, w) && c in w
    ensures FullPackets(seqNum, order + [c], w)
            == FullPackets(seqNum, order, w)
               + Fragments(seqNum, FLAG_FULL, c, LiveEntries(w[c], WIDTH * WIDTH))
    decreases |order|
  {
    hide Fragments, LiveEntries;
    if order == [] {
      assert [c][1..] == [];
    } else {
      assert (order + [c])[1..] == order[1..] + [c];
      FullPacketsGrow(seqNum, order[1..], w, c);
    }
  }

  lemma {:induction false} DeltaIsFragmented(seqNum: u32, order: seq<Coord>, w: WorldV)
    requires Listed(order, w)
    ensures Fragmented(DeltaPackets(seqNum, order, w))
    decreases |order|
  {
    if order != [] { DeltaIsFragmented(seqNum, order[1..], w); }
  }

  lemma {:induction false} FullIsFragmented(seqNum: u32, order: seq<Coord>, w: WorldV)
    requires Listed(order, w)
    ensures Fragmented(FullPackets(seqNum, order, w))
    decreases |order|
  {
    if order != [] { FullIsFragmented(seqNum, order[1..], w); }
  }

  /** Deltas carry the flag 0, snapshots the flag 1, and both the number and a chunk of the list. */
  lemma {:induction false} DeltaHeaders(n: u32, order: seq<Coord>, w: WorldV)
    requires Listed(order, w)
    ensures forall p | p in DeltaPackets(n, order, w) :: p.seqNum == n && p.flags == 0 && p.chunk in order
    decreases |order|
  {
    hide DirtyEntries;
    if order != [] { DeltaHeaders(n, order[1..], w); }
  }

  lemma {:induction false} FullHeaders(n: u32, order: seq<Coord>, w: WorldV)
    requires Listed(order, w)
    ensures forall p | p in FullPackets(n, order, w) :: p.seqNum == n && p.flags == 1 && p.chunk in order
    decreases |order|
  {
    hide LiveEntries;
    if order != [] { FullHeaders(n, order[1..], w); }
  }

  ghost function DirtyParts(order: seq<Coord>, w: WorldV): seq<ChunkCells>
    requires Listed(order, w)
  {
    seq(|order|, i requires 0 <= i < |order| =>
      assert order[i] in order; ChunkCells(order[i], DirtyEntries(w[order[i]])))
  }

  ghost function LiveParts(order: seq<Coord>, w: WorldV): seq<ChunkCells>
    requires Listed(order, w)
  {
    seq(|order|, i requires 0 <= i < |order| =>
      assert order[i] in order; ChunkCells(order[i], LiveEntries(w[order[i]], WIDTH * WIDTH)))
  }

  /** Both serialisers send a list of chunks with their entries, so the wire's round trip holds for them. */
  lemma {:induction false} UpdatesArePackets(seqNum: u32, order: seq<Coord>, w: WorldV)
    requires Listed(order, w)
    ensures DeltaPackets(seqNum, order, w) == PacketsOf(seqNum, FLAG_DELTA, DirtyParts(order, w))
    ensures FullPackets(seqNum, order, w) == PacketsOf(seqNum, FLAG_FULL, LiveParts(order, w))
    decreases |order|
  {
    hide Fragments, DirtyEntries, LiveEntries;
    if order != [] {
      assert order[0] in order && forall c | c in order[1..] :: c in order;
      UpdatesArePackets(seqNum, order[1..], w);
      assert DirtyParts(order, w)[1..] == DirtyParts(order[1..], w);
      assert LiveParts(order, w)[1..] == LiveParts(order[1..], w);
    }
  }

  // ---------------------------------------------------------------- the serialiser's loops

  method AllChunksWithCoords(world: World) returns (order: seq<Coord>)
    requires world.Valid()
    ensures world.Valid() && world.View() == old(world.View())
    ensures Enumerates(order, world.View())
  {
    order := [];
    var todo := world.chunks.Keys;
    while todo != {}
      invariant todo <= world.chunks.Keys && Distinct(order)
      invariant forall c :: c in order <==> c in world.chunks.Keys - todo
    {
      var c :| c in todo;
      assert c !in order;
      order := order + [c];
      todo := todo - {c};
    }
  }

  method ListDirty(chunk: Chunk) returns (entries: seq<Entry>)
    requires chunk.Valid()
    ensures entries == DirtyEntries(chunk.View())
  {
    ghost var all := DirtyEntries(chunk.View());
    entries := [];
    for i := 0 to |chunk.dirty|
      invariant entries == all[..i]
    {
      var dc := chunk.dirty[i];
      var state := chunk.GetCell(dc.x, dc.y);
      assert all[i] == Entry(dc.x, dc.y, if state.alive then 1 else 0, state.owner);
      assert all[..i + 1] == all[..i] + [all[i]];
      entries := entries + [Entry(dc.x, dc.y, if state.alive then 1 else 0, state.owner)];
    }
  }

  method ListLive(chunk: Chunk) returns (entries: seq<Entry>)
    requires chunk.Valid()
    ensures entries == LiveEntries(chunk.View(), WIDTH * WIDTH)
  {
    hide AtRank;
    entries := [];
    for cy := 0 to WIDTH
      invariant entries == LiveEntries(chunk.View(), cy * WIDTH)
    {
      for cx := 0 to WIDTH
        invariant entries == LiveEntries(chunk.View(), cy * WIDTH + cx)
      {
        var state := chunk.GetCell(cx, cy);
        RankInjective(Local(cx, cy), AtRank(cy * WIDTH + cx));
        if state.alive {
          entries := entries + [Entry(cx, cy, 1, state.owner)];
        }
      }
    }
  }

  lemma PacketsStart(seqNum: u32, w: WorldV)
    requires ValidWorld(w)
    ensures EncodeAll(FullPackets(seqNum, [], w)) == [] && EncodeAll(DeltaPackets(seqNum, [], w)) == []
  {
  }

  method AppendLive(seqNum: u32, world: World, c: Coord, data: seq<byte>) returns (out: seq<byte>)
    requires world.Valid() && c in world.chunks
    ensures world.Valid() && world.View() == old(world.View())
    ensures out == data + EncodeAll(Fragments(seqNum, FLAG_FULL, c, LiveEntries(world.View()[c], WIDTH * WIDTH)))
  {
    hide Fragments, EncodeAll, LiveEntries, Apart, ValidWorld;
    world.ViewOf(c);
    var entries := ListLive(world.chunks[c]);
    out := AppendChunk(data, seqNum, FLAG_FULL, c, entries);
  }

  /** Sends every live cell of every chunk; chunks without any send nothing. */
  method SerializeFull(seqNum: u32, world: World, order: seq<Coord>) returns (data: seq<byte>)
    requires world.Valid() && Listed(order, world.View())
    ensures world.Valid() && world.View() == old(world.View())
    ensures data == EncodeAll(FullPackets(seqNum, order, world.View()))
  {
    hide Fragments, LiveEntries, EncodeAll, FullPackets, World.Valid, World.View, World.Footprint;
    ghost var w := world.View();
    data := [];
    PacketsStart(seqNum, w);
    assert order[..0] == [];
    for i := 0 to |order|
      invariant world.Valid() && world.View() == w
      invariant data == EncodeAll(FullPackets(seqNum, order[..i], w))
    {
      var c := order[i];
      assert c in order;
      assert order[..i + 1] == order[..i] + [c];
      FullPacketsGrow(seqNum, order[..i], w, c);
      EncodeAllAppend(FullPackets(seqNum, order[..i], w),
                      Fragments(seqNum, FLAG_FULL, c, LiveEntries(w[c], WIDTH * WIDTH)));
      data := AppendLive(seqNum, world, c, data);
    }
    assert order[..|order|] == order;
  }

  /** The listed chunks have been flushed, the others are untouched. */
  ghost predicate PartlyFlushed(w: WorldV, u: WorldV, done: seq<Coord>) {
    u.Keys == w.Keys && forall c | c in w :: u[c] == if c in done then FlushV(w[c]) else w[c]
  }

  lemma PartlyFlushedGrows(w: WorldV, u: WorldV, done: seq<Coord>, c: Coord)
    requires PartlyFlushed(w, u, done) && c in w && c !in done
    ensures u[c] == w[c]
    ensures PartlyFlushed(w, u[c := FlushV(w[c])], done + [c])
    ensures w[c].dirty == [] ==> PartlyFlushed(w, u, done + [c])
  {
  }

  lemma PartlyFlushedEnds(w: WorldV, u: WorldV, order: seq<Coord>)
    requires Enumerates(order, w) && PartlyFlushed(w, u, order)
    ensures u == FlushAll(w)
  {
  }

  method FlushChunk(world: World, c: Coord)
    requires world.Valid() && c in world.chunks
    modifies world.Footprint()
    ensures world.Valid() && world.View() == old(world.View())[c := FlushV(old(world.View())[c])]
    ensures world.chunks == old(world.chunks)
  {
    hide FlushV;
    assert old(world.View())[c] == world.chunks[c].View();
    world.chunks[c].ClearDirty();
    world.OnlyOneChanged(c);
  }

  /** Sends the dirty cells of every chunk with their present state, and clears the lists. */
  method SerializeDelta(seqNum: u32, world: World, order: seq<Coord>) returns (data: seq<byte>)
    requires world.Valid() && Enumerates(order, world.View())
    modifies world.Footprint()
    ensures world.Valid() && world.View() == FlushAll(old(world.View()))
    ensures data == EncodeAll(DeltaPackets(seqNum, order, old(world.View())))
    ensures world.chunks == old(world.chunks)
  {
    hide Fragments, DirtyEntries, EncodeAll, DeltaPackets, PartlyFlushed, FlushV, FlushAll, Apart, World.Valid;
    ghost var w := world.View();
    data := [];
    PacketsStart(seqNum, w);
    assert order[..0] == [];
    NothingFlushed(w);
    for i := 0 to |order|
      invariant world.Valid() && world.chunks == old(world.chunks)
      invariant PartlyFlushed(w, world.View(), order[..i])
      invariant data == EncodeAll(DeltaPackets(seqNum, order[..i], w))
    {
      DeltaStep(seqNum, w, world.View(), order, i);
      data := SerializeChunk(seqNum, world, order[i], data);
    }
    assert order[..|order|] == order;
    PartlyFlushedEnds(w, world.View(), order);
  }

  lemma NothingFlushed(w: WorldV)
    ensures PartlyFlushed(w, w, [])
  {
  }

  /** The loop body of serializeDelta: nothing for a clean chunk, its packets and a flush otherwise. */
  method SerializeChunk(seqNum: u32, world: World, c: Coord, data: seq<byte>) returns (out: seq<byte>)
    requires world.Valid() && c in world.chunks
    modifies world.Footprint()
    ensures world.Valid() && world.chunks == old(world.chunks)
    ensures world.View() == old(world.View())[c := FlushV(old(world.View())[c])]
    ensures out == data + EncodeAll(Fragments(seqNum, FLAG_DELTA, c, DirtyEntries(old(world.View())[c])))
  {
    hide Fragments, EncodeAll, DirtyEntries, Apart, World.Valid, FlushV, ValidWorld;
    world.ViewOf(c);
    out := data;
    if world.chunks[c].dirty == [] {
      CleanChunk(seqNum, c, world.View());
    } else {
      out := AppendDirty(seqNum, world, c, data);
      FlushChunk(world, c);
    }
  }

  method AppendDirty(seqNum: u32, world: World, c: Coord, data: seq<byte>) returns (out: seq<byte>)
    requires world.Valid() && c in world.chunks
    ensures world.Valid() && world.View() == old(world.View())
    ensures out == data + EncodeAll(Fragments(seqNum, FLAG_DELTA, c, DirtyEntries(world.View()[c])))
  {
    hide Fragments, EncodeAll, DirtyEntries, Apart, ValidWorld;
    world.ViewOf(c);
    var entries := ListDirty(world.chunks[c]);
    out := AppendChunk(data, seqNum, FLAG_DELTA, c, entries);
  }

  lemma CleanChunk(seqNum: u32, c: Coord, w: WorldV)
    requires ValidWorld(w) && c in w && w[c].dirty == []
    ensures w == w[c := FlushV(w[c])]
    ensures EncodeAll(Fragments(seqNum, FLAG_DELTA, c, DirtyEntries(w[c]))) == []
  {
    NoFragments(seqNum, FLAG_DELTA, c);
    assert DirtyEntries(w[c]) == [];
  }

  /** One more chunk written and flushed. */
  lemma DeltaStep(seqNum: u32, w: WorldV, u: WorldV, order: seq<Coord>, i: nat)
    requires Enumerates(order, w) && i < |order| && PartlyFlushed(w, u, order[..i])
    ensures Listed(order[..i], w) && Listed(order[..i + 1], w)
    ensures var c := order[i];
            && c in w && c in u && u[c] == w[c]
            && PartlyFlushed(w, u[c := FlushV(u[c])], order[..i + 1])
            && EncodeAll(DeltaPackets(seqNum, order[..i + 1], w))
               == EncodeAll(DeltaPackets(seqNum, order[..i], w))
                  + EncodeAll(Fragments(seqNum, FLAG_DELTA, c, DirtyEntries(w[c])))
  {
    hide Fragments, EncodeAll, DeltaPackets, DirtyEntries, FlushV;
    var c := order[i];
    assert c !in order[..i] && c in order;
    assert order[..i + 1] == order[..i] + [c];
    PartlyFlushedGrows(w, u, order[..i], c);
    DeltaPacketsGrow(seqNum, order[..i], w, c);
    EncodeAllAppend(DeltaPackets(seqNum, order[..i], w), Fragments(seqNum, FLAG_DELTA, c, DirtyEntries(w[c])));
  }
}
