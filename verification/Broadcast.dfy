/** Which payload each session is sent (BoostNetworkManager::doUdpBroadcast). */
module Broadcast {
  import opened Types
  import opened Codec
  import opened Packets
  import WorldSpec
  import opened Reference
  import opened Serializer
  import Client
  import Server
  import StatsStream
  import opened Worlds
  import opened GameServers

  /**
   The sessions by player with their snapshot flags, the broadcasts the network thread has yet to run,
   and what the latest one sent to each session.
   */
  class NetworkManager {
    var needsFull: map<PlayerId, bool>
    var seqNum: u32
    var posted: seq<Payload>
    var sent: map<PlayerId, seq<seq<byte>>>

    constructor ()
      ensures needsFull == map[] && seqNum == 0 && posted == [] && sent == map[]
    {
      needsFull, seqNum, posted, sent := map[], 0, [], map[];
    }

    /** A new session, or one that asked for a resync, gets a snapshot next time. */
    method RequestSnapshot(id: PlayerId)
      modifies `needsFull
      ensures needsFull == old(needsFull)[id := true]
    {
      needsFull := needsFull[id := true];
    }

    /** On the tick thread: a number is used up and the broadcast posted, unless there is nothing to send. */
    method BroadcastWorldUpdate(update: seq<byte>)
      modifies `seqNum, `posted
      ensures update == [] ==> seqNum == old(seqNum) && posted == old(posted)
      ensures update != [] ==>
                && seqNum == Client.Successor(old(seqNum))
                && posted == old(posted) + [Payload(update, seqNum)]
    {
      if update == [] {
        return;
      }
      seqNum := Client.Successor(seqNum);
      posted := posted + [Payload(update, seqNum)];
    }

    /** On the network thread: runs the broadcast posted first. */
    method RunPosted(server: GameServer)
      requires posted != [] && WellFramed(posted[0].data)
      requires WellFramed(Renumber(server.cachedFullSnapshot, posted[0].seqNum))
      modifies `needsFull, `posted, `sent
      ensures posted == old(posted)[1..]
      ensures var b := old(posted)[0];
              && sent.Keys == old(needsFull).Keys && needsFull.Keys == old(needsFull).Keys
              && forall id | id in old(needsFull) ::
                   && !needsFull[id]
                   && sent[id] == Cut(if old(needsFull)[id] then Renumber(server.cachedFullSnapshot, b.seqNum)
                                      else b.data)
    {
      hide WellFramed, Renumber, Cut;
      var b := posted[0];
      posted := posted[1..];
      DoUdpBroadcast(b.data, b.seqNum, server);
    }

    /**
     Sends the delta to every session that is up to date and the snapshot cached by now, numbered like
     the broadcast, to the others; afterwards nobody is waiting for a snapshot.
     */
    method DoUdpBroadcast(update: seq<byte>, number: u32, server: GameServer)
      requires WellFramed(update) && WellFramed(Renumber(server.cachedFullSnapshot, number))
      modifies `needsFull, `sent
      ensures sent.Keys == old(needsFull).Keys && needsFull.Keys == old(needsFull).Keys
      ensures forall id | id in old(needsFull) ::
                && !needsFull[id]
                && sent[id] == Cut(if old(needsFull)[id] then Renumber(server.cachedFullSnapshot, number) else update)
    {
      hide WellFramed, Renumber, Cut;
      sent := map[];
      ghost var full := Renumber(server.cachedFullSnapshot, number);
      var fullData: seq<byte> := [];
      var fullBuilt := false;
      var todo := needsFull.Keys;
      while todo != {}
        invariant todo <= needsFull.Keys && needsFull.Keys == old(needsFull).Keys
        invariant fullBuilt ==> fullData == full
        invariant sent.Keys == needsFull.Keys - todo
        invariant forall id | id in needsFull && id in todo :: needsFull[id] == old(needsFull)[id]
        invariant forall id | id in sent ::
                    !needsFull[id] && sent[id] == Cut(if old(needsFull)[id] then full else update)
      {
        var id :| id in todo;
        var datagrams: seq<seq<byte>>;
        if needsFull[id] {
          if !fullBuilt {
            fullData := server.GetFullSnapshotForSeq(number);
            fullBuilt := true;
          }
          datagrams := SendPayloadTo(fullData);
          needsFull := needsFull[id := false];
        } else {
          datagrams := SendPayloadTo(update);
        }
        sent := sent[id := datagrams];
        todo := todo - {id};
      }
    }

    /** The manager is not part of the server's world. */
    lemma Separate(server: GameServer)
      ensures this !in server.world.Footprint()
    {
    }

    method PostUpdate(update: seq<byte>, server: GameServer)
      requires server.Valid()
      modifies `seqNum, `posted
      ensures server.Valid() && server.world.Value() == old(server.world.Value())
      ensures posted == old(posted) + if update == [] then [] else [Payload(update, seqNum)]
      ensures seqNum == if update == [] then old(seqNum) else Client.Successor(old(seqNum))
    {
      hide Apart, World.View;
      Separate(server);
      BroadcastWorldUpdate(update);
    }

    /** The whole tick, up to handing its changes to the network thread. */
    method TickAndPost(server: GameServer) returns (order: seq<Coord>, ghost cached: seq<Coord>, stats: seq<byte>)
      requires server.Valid() && WorldSpec.ExchangeFits(server.world.View())
      requires forall id: PlayerId ::
                 Balance(Server.TickV(server.world.Value(), server.commandQueue).balances, id) < U64_LIMIT
      modifies this, server, server.world, server.world.Footprint(), server.resources
      ensures server.Valid() && needsFull == old(needsFull)
      ensures server.world.Value() == Server.NextV(old(server.world.Value()), Tick(old(server.commandQueue)))
      ensures var w := Server.TickV(old(server.world.Value()), old(server.commandQueue)).world;
              && Enumerates(order, w) && Enumerates(cached, w)
              && server.broadcastSeq == Client.Successor(old(server.broadcastSeq))
              && server.cachedFullSnapshot == EncodeAll(FullPackets(0, cached, w))
              && var update := EncodeAll(DeltaPackets(server.broadcastSeq, order, w));
                 && posted == old(posted) + (if update == [] then [] else [Payload(update, seqNum)])
                 && seqNum == if update == [] then old(seqNum) else Client.Successor(old(seqNum))
    {
      hide World.View, World.Valid, World.Footprint, Server.TickV, EncodeAll, DeltaPackets, FullPackets, Enumerates,
        StatsStream.Reports;
      Separate(server);
      var update: seq<byte>;
      update, order, cached, stats := server.OnTick();
      PostUpdate(update, server);
    }
  }
}
