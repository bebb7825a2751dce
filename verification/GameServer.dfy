/** The server's tick (server/src/GameServer.cpp), proved to be one event of the value-level server. */
module GameServers {
  import opened Types
  import opened Chunks
  import opened WorldSpec
  import opened Reference
  import Resources
  import opened Server
  import opened Worlds
  import opened Codec
  import opened Packets
  import opened Serializer
  import opened LiveCounts
  import StatsStream

  /** The chunks outside todo have computed their next generation (or swapped), the others not yet. */
  ghost predicate PartlyCalculated(w: WorldV, u: WorldV, todo: set<Coord>) {
    && ValidWorld(w) && u.Keys == w.Keys
    && forall c | c in w :: u[c] == if c in todo then w[c] else CalculateNextV(w[c])
  }

  ghost predicate PartlySwapped(w: WorldV, u: WorldV, todo: set<Coord>) {
    && ValidWorld(w) && u.Keys == w.Keys
    && forall c | c in w :: u[c] == if c in todo then w[c] else SwapV(w[c])
  }

  lemma PhaseStarts(w: WorldV)
    requires ValidWorld(w)
    ensures PartlyCalculated(w, w, w.Keys) && PartlySwapped(w, w, w.Keys)
  {
  }

  lemma PhaseEnds(w: WorldV, u: WorldV)
    ensures PartlyCalculated(w, u, {}) ==> u == CalculateAll(w)
    ensures PartlySwapped(w, u, {}) ==> u == SwapAll(w)
  {
    hide CalculateNextV, SwapV;
  }

  class GameServer {
    const world: World
    const resources: Resources.ResourceManager
    var commandQueue: seq<PlayerCommand>
    var broadcastSeq: u32
    var cachedFullSnapshot: seq<byte>

    ghost predicate Valid()
      reads world, world.Footprint()
    {
      world.Valid() && world.resources == resources
    }

    /** The server object is not part of the world it owns. */
    lemma Separate()
      ensures this !in world.Footprint() && resources !in world.Footprint()
    {
    }

    constructor ()
      ensures Valid() && fresh(world) && fresh(resources)
      ensures world.Value() == ServerV(map[], map[])
      ensures commandQueue == [] && broadcastSeq == 0
    {
      var manager := new Resources.ResourceManager();
      resources := manager;
      world := new World(manager);
      commandQueue, broadcastSeq, cachedFullSnapshot := [], 0, [];
    }

    method OnCommandsFromNetwork(commands: seq<PlayerCommand>)
      modifies `commandQueue
      ensures commandQueue == old(commandQueue) + commands
    {
      for i := 0 to |commands|
        invariant commandQueue == old(commandQueue) + commands[..i]
      {
        commandQueue := commandQueue + [commands[i]];
      }
    }

    /** tryPop until the queue is empty. */
    method PopAll() returns (batch: seq<PlayerCommand>)
      modifies `commandQueue
      ensures batch == old(commandQueue) && commandQueue == []
    {
      batch := [];
      while commandQueue != []
        invariant batch + commandQueue == old(commandQueue)
        decreases |commandQueue|
      {
        batch := batch + [commandQueue[0]];
        commandQueue := commandQueue[1..];
      }
    }

    method DrainQueue() returns (batch: seq<PlayerCommand>)
      requires Valid()
      modifies `commandQueue
      ensures batch == old(commandQueue) && commandQueue == []
      ensures Valid() && world.Value() == old(world.Value())
    {
      hide Apart, World.View;
      Separate();
      batch := PopAll();
    }

    method NextSeqNum()
      requires Valid()
      modifies `broadcastSeq
      ensures broadcastSeq == (old(broadcastSeq) + 1) % 0x1_0000_0000
      ensures Valid() && world.Value() == old(world.Value())
    {
      Separate();
      broadcastSeq := (broadcastSeq + 1) % 0x1_0000_0000;
    }

    method CalculateChunk(c: Coord)
      requires world.Valid() && c in world.chunks
      modifies world.Footprint()
      ensures world.Valid() && world.chunks == old(world.chunks)
      ensures world.View() == old(world.View())[c := CalculateNextV(old(world.View())[c])]
    {
      hide CalculateNextV, World.View;
      world.ViewOf(c);
      world.chunks[c].CalculateNext();
      world.OnlyOneChanged(c);
    }

    method SwapChunk(c: Coord)
      requires world.Valid() && c in world.chunks
      modifies world.Footprint()
      ensures world.Valid() && world.chunks == old(world.chunks)
      ensures world.View() == old(world.View())[c := SwapV(old(world.View())[c])]
    {
      hide SwapV, World.View;
      world.ViewOf(c);
      world.chunks[c].SwapBuffers();
      world.OnlyOneChanged(c);
    }

    /** The first parallel phase, run in any order of the chunks. */
    method CalculateChunks()
      requires world.Valid()
      modifies world.Footprint()
      ensures world.Valid() && world.View() == CalculateAll(old(world.View()))
      ensures world.chunks == old(world.chunks)
    {
      hide World.View, World.Valid, CalculateNextV, CalculateAll;
      ghost var w := world.View();
      var todo := world.chunks.Keys;
      PhaseStarts(w);
      while todo != {}
        invariant todo <= world.chunks.Keys && world.Valid() && world.chunks == old(world.chunks)
        invariant PartlyCalculated(w, world.View(), todo)
      {
        var c :| c in todo;
        CalculateChunk(c);
        todo := todo - {c};
      }
      PhaseEnds(w, world.View());
    }

    /** The second phase: swap every chunk's buffers once all have been computed. */
    method SwapChunks()
      requires world.Valid()
      modifies world.Footprint()
      ensures world.Valid() && world.View() == SwapAll(old(world.View()))
      ensures world.chunks == old(world.chunks)
    {
      hide World.View, World.Valid, SwapV, SwapAll;
      ghost var w := world.View();
      var todo := world.chunks.Keys;
      PhaseStarts(w);
      while todo != {}
        invariant todo <= world.chunks.Keys && world.Valid() && world.chunks == old(world.chunks)
        invariant PartlySwapped(w, world.View(), todo)
      {
        var c :| c in todo;
        SwapChunk(c);
        todo := todo - {c};
      }
      PhaseEnds(w, world.View());
    }

    method StepWorldChunks()
      requires world.Valid() && ExchangeFits(world.View())
      modifies world, world.Footprint()
      ensures world.Valid() && world.Grown() && world.View() == StepWorld(old(world.View()))
      ensures world.resources.balances == old(world.resources.balances)
    {
      hide World.View, World.Valid, ExchangeBordersV, CalculateAll, SwapAll, World.Footprint;
      world.GrownFootprint();
      world.ExchangeBorders();
      world.GrownFootprint();
      CalculateChunks();
      world.GrownFootprint();
      SwapChunks();
    }

    method AddChunkCounts(c: Coord, totals: map<PlayerId, nat>, ghost done: set<Coord>)
      returns (sum: map<PlayerId, nat>)
      requires world.Valid() && c in world.chunks && done <= world.chunks.Keys && c !in done
      requires TotalsUpTo(world.View(), totals, done)
      ensures world.Valid() && world.View() == old(world.View())
      ensures TotalsUpTo(world.View(), sum, done + {c})
    {
      hide Apart, CountsUpTo, TotalsUpTo, Award;
      ghost var w := world.View();
      world.ViewOf(c);
      var counts := world.chunks[c].GetLiveCountByPlayer();
      TotalsGrow(w, totals, done, c, counts);
      sum := AddCounts(totals, counts);
    }

    /** Sums the live counts of all chunks. */
    method TotalCounts() returns (totals: map<PlayerId, nat>)
      requires world.Valid()
      ensures world.Valid() && world.View() == old(world.View())
      ensures totals == Income(Abs(world.View()))
    {
      hide World.Valid, World.Footprint, World.View, TotalsUpTo, Income, Abs;
      ghost var w := world.View();
      totals := map[];
      var todo := world.chunks.Keys;
      ghost var done: set<Coord> := {};
      TotalsStart(w);
      while todo != {}
        invariant todo + done == world.chunks.Keys && todo !! done
        invariant world.Valid() && world.View() == w
        invariant TotalsUpTo(w, totals, done)
      {
        var c :| c in todo;
        totals := AddChunkCounts(c, totals, done);
        todo, done := todo - {c}, done + {c};
      }
      assert done == w.Keys;
      TotalsAreIncome(w, totals);
    }

    method PlayTick(batch: seq<PlayerCommand>)
      requires Valid() && ExchangeFits(world.View())
      modifies world, world.Footprint(), resources
      ensures Valid() && world.Grown() && world.Value() == PlayV(old(world.Value()), batch)
    {
      hide World.View, World.Valid, StepWorld, CommandsV, World.Footprint;
      StepWorldChunks();
      world.GrownFootprint();
      if batch != [] {
        world.ApplyCommands(batch);
      } else {
        NoCommands(world.Value());
      }
    }

    method PayTick(batch: seq<PlayerCommand>) returns (totals: map<PlayerId, nat>)
      requires Valid()
      modifies resources
      ensures Valid() && world.Value() == ServerV(old(world.View()), Award(old(resources.balances), totals))
      ensures world.View() == old(world.View()) && totals == Income(Abs(world.View()))
    {
      hide Income, Award, Abs;
      totals := TotalCounts();
      resources.AwardFromLiveCounts(totals);
    }

    /** Caches the packets of every live cell, numbered 0. */
    method RefreshFullSnapshotCache() returns (ghost order: seq<Coord>)
      requires Valid()
      modifies `cachedFullSnapshot
      ensures Valid() && world.Value() == old(world.Value()) && Enumerates(order, world.View())
      ensures cachedFullSnapshot == EncodeAll(FullPackets(0, order, world.View()))
    {
      hide EncodeAll, FullPackets, Enumerates, Apart;
      var snapshot: seq<byte>;
      snapshot, order := BuildSnapshot();
      Separate();
      cachedFullSnapshot := snapshot;
    }

    method BuildSnapshot() returns (snapshot: seq<byte>, ghost order: seq<Coord>)
      requires world.Valid()
      ensures world.Valid() && world.View() == old(world.View()) && Enumerates(order, world.View())
      ensures snapshot == EncodeAll(FullPackets(0, order, world.View()))
    {
      hide EncodeAll, FullPackets, Apart;
      var chunks := AllChunksWithCoords(world);
      order := chunks;
      snapshot := SerializeFull(0, world, chunks);
    }

    /** The cached snapshot, copied and renumbered. */
    method GetFullSnapshotForSeq(seqNum: u32) returns (data: seq<byte>)
      ensures data == Renumber(cachedFullSnapshot, seqNum)
    {
      hide Renumber;
      var snapshot := cachedFullSnapshot;
      var payload := new byte[|snapshot|](i requires 0 <= i < |snapshot| => snapshot[i]);
      assert payload[..] == snapshot;
      RewriteSnapshotSeqNums(payload, seqNum);
      data := payload[..];
    }

    method BroadcastDelta() returns (update: seq<byte>, order: seq<Coord>)
      requires Valid()
      modifies world.Footprint()
      ensures Valid() && Enumerates(order, old(world.View()))
      ensures world.View() == FlushAll(old(world.View())) && resources.balances == old(resources.balances)
      ensures update == EncodeAll(DeltaPackets(broadcastSeq, order, old(world.View())))
    {
      hide EncodeAll, DeltaPackets, World.Valid, World.View, World.Footprint, FlushAll, Enumerates;
      order := AllChunksWithCoords(world);
      Separate();
      update := SerializeDelta(broadcastSeq, world, order);
    }

    /** Everything a tick does before the snapshot is cached and the changes are sent. */
    method SimulateTick() returns (totals: map<PlayerId, nat>)
      requires Valid() && ExchangeFits(world.View())
      modifies `commandQueue, world, world.Footprint(), resources
      ensures Valid() && world.Grown() && commandQueue == []
      ensures world.Value() == TickV(old(world.Value()), old(commandQueue))
      ensures totals == Income(Abs(world.View()))
      ensures resources.balances == Award(PlayV(old(world.Value()), old(commandQueue)).balances, totals)
    {
      hide World.View, World.Valid, World.Footprint, PlayV, Award, Income, Abs;
      var batch := DrainQueue();
      Separate();
      PlayTick(batch);
      totals := PayTick(batch);
    }

    method BroadcastStats(totals: map<PlayerId, nat>) returns (stats: seq<byte>)
      requires Valid()
      requires forall id | id in resources.balances :: resources.balances[id] < U64_LIMIT
      requires forall id | id in totals :: totals[id] < U64_LIMIT
      ensures Valid() && world.Value() == old(world.Value())
      ensures StatsStream.Reports(stats, broadcastSeq, resources.balances, totals)
    {
      hide StatsStream.Reports, Apart;
      stats := StatsStream.SerializeServerStats(broadcastSeq, resources.balances, totals);
    }

    /**
     One tick. The server's value moves by one event; the update carries the dirty cells, the cache
     every live cell, and the statistics every balance and live count, all as of the end of the tick.
     */
    method OnTick() returns (update: seq<byte>, order: seq<Coord>, ghost cached: seq<Coord>, stats: seq<byte>)
      requires Valid() && ExchangeFits(world.View())
      requires forall id: PlayerId :: Balance(TickV(world.Value(), commandQueue).balances, id) < U64_LIMIT
      modifies this, world, world.Footprint(), resources
      ensures Valid() && commandQueue == [] && broadcastSeq == (old(broadcastSeq) + 1) % 0x1_0000_0000
      ensures world.Value() == NextV(old(world.Value()), Tick(old(commandQueue)))
      ensures var w := TickV(old(world.Value()), old(commandQueue)).world;
              && Enumerates(order, w) && update == EncodeAll(DeltaPackets(broadcastSeq, order, w))
              && Enumerates(cached, w) && cachedFullSnapshot == EncodeAll(FullPackets(0, cached, w))
      ensures StatsStream.Reports(stats, broadcastSeq, world.Value().balances, Income(Abs(world.Value().world)))
    {
      hide World.View, World.Valid, World.Footprint, TickV, PlayV, Income, Abs, FlushAll, EncodeAll, DeltaPackets,
        FullPackets, Enumerates, StatsStream.Reports;
      NextSeqNum();
      Separate();
      var totals := SimulateTick();
      world.GrownFootprint();
      ghost var s := world.Value();
      cached := RefreshFullSnapshotCache();
      Separate();
      update, order := BroadcastDelta();
      FlushInvisible(s.world);
      BoundedStats(resources.balances, PlayV(old(world.Value()), old(commandQueue)).balances, totals);
      stats := BroadcastStats(totals);
    }
  }

  /** No income is larger than the balance it was paid into. */
  lemma BoundedStats(paid: Balances, before: Balances, income: Balances)
    requires paid == Award(before, income) && forall id: PlayerId :: Balance(paid, id) < U64_LIMIT
    ensures forall id | id in paid :: paid[id] < U64_LIMIT
    ensures forall id | id in income :: income[id] < U64_LIMIT
  {
    forall id | id in paid ensures paid[id] < U64_LIMIT { assert Balance(paid, id) < U64_LIMIT; }
    forall id | id in income ensures income[id] < U64_LIMIT { assert Balance(paid, id) < U64_LIMIT; }
  }

  lemma NoCommands(s: ServerV)
    requires ValidServer(s)
    ensures CommandsV(s, []) == s
  {
  }
}
