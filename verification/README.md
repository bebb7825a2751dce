# Multilife verification

A Dafny 4.11 model of Multilife, a multiplayer Game of Life: a server that simulates one infinite plane
in 64x64 chunks, sends its changes to the clients as UDP datagrams and runs a small economy around the
cells. The project proves how far the machinery is invisible. However the plane is cut into chunks, in
whatever order chunks, threads and hash maps are visited, however updates are fragmented into packets, the
server plays one simple game, as long as no `int` overflows; and a client that loses nothing shows that
game exactly as long as every snapshot it is served suits what it showed before. When that is not so is
stated, too.

`dafny verify dfyconfig.toml` checks the whole project.

## How it is organised

Everything imperative in the original is a class or a loop here (`Chunk`, `World`, `ResourceManager`,
`GameServer`, the serialiser, `WorldModel`, `GameNetworkClient`, the stream readers, the edit queue). Each
method is proved to take the object's value to the value a specification function gives, and the theorems
are about those functions.

| file | content |
|---|---|
| `Types.dfy`, `Coordinates.dfy`, `Codec.dfy` | shared values, chunk arithmetic with C++ division and narrowing, little-endian fields |
| `Plane.dfy`, `Reference.dfy` | the game without chunks: owner-aware Life on a plane, commands, balances, runs, well-formedness |
| `Economy.dfy`, `LightCone.dfy`, `Translation.dfy` | conservation laws, speed of influence, translation invariance |
| `Chunk.dfy`, `WorldSpec.dfy`, `World.dfy` | one chunk, the chunked world as a value and the proof that a tick is a Life step, the world object |
| `Resources.dfy`, `Server.dfy`, `LiveCounts.dfy`, `GameServer.dfy`, `Schedule.dfy` | balances, the server as a value and its refinement over all runs, `onTick`, the interleavings of the worker threads |
| `Packets.dfy`, `Serializer.dfy`, `Broadcast.dfy` | the wire format, both serialisers, the choice between snapshot and delta |
| `Client.dfy`, `Mirroring.dfy`, `Snapshots.dfy`, `Replication.dfy` | the client's map, what packets do to it, snapshots, replication by deltas |
| `ClosedLoop.dfy`, `Agreement.dfy`, `WireLoop.dfy` | server, session and client as one step system with delays and resync requests, when the client agrees with the server, the same system in bytes |
| `Lockstep.dfy`, `GhostCells.dfy` | the same without any delay, and a run that leads a client astray |
| `StatsStream.dfy`, `CommandStream.dfy` | the two TCP streams |
| `ThreadPool.dfy`, `PendingEdits.dfy` | the worker pool as a step system, the client's queue of edits |
| `EndToEnd.dfy` | the theorems that join all of these |

The main results are `Plane.LifeStepIsTheRule`, `WorldSpec.TickRefinesLife`, `Server.RunRefines`,
`GameServers.GameServer.OnTick`, `Agreement.StepDecides`, `Agreement.OnTrackExactly`,
`Snapshots.SnapshotRestoresExactly`, `Packets.WireRoundTrip`, `Economy.RunLedger`,
`StatsStream.SegmentationIsInvisible`, `StatsStream.NoisyMessagesArrive`, `ThreadPool.ShutdownCompletes`,
`PendingEdits.ClickIsAdmittedExactly`, `Schedule.ScheduleDoesNotMatter` and, on top of them,
`EndToEnd.ClientShowsTheGame`.

## Where the code falls short

Each of these is a lemma with the exact condition under which the code does what it is meant to do.

- Chunk coordinates are narrowed to `int`, so commands wrap around modulo 2^38
  (`Coordinates.CommandWraps`, `Coordinates.CommandReachesItsCell`).
- Player id 0 means "no owner": such a player can pay for cells nobody owns and is paid for removing empty
  ones (`Reference.CommandKeepsWellFormed`, `Economy.LedgerFailsOnlyForNobody`).
- Chunks can be created whose neighbours no `int` can name: one command at the edge of the range is
  enough, and computing `coord.x + 1` in the next tick overflows (`Server.EdgeCommandOverflows`,
  `Server.ChunkCoordinatesNeverOverflow`).
- A full snapshot of a chunk with more than 125 live cells takes several packets, each of which erases the
  chunk; a chunk without live cells is not sent at all (`Snapshots.SnapshotRestoresExactly`).
- A snapshot served in place of a delta can leave the client wrong although nothing was lost: a chunk that
  has just lost its last live cell is not in the snapshot, and the delta with the death is not sent, so the
  client shows the dead cell until the cell is listed again (`GhostCells.GhostSurvives`,
  `GhostCells.GhostStays`). The exact condition, before the snapshot is served, is in
  `Agreement.StepDecides` cell by cell and in `Agreement.SnapshotAgreesExactly` chunk by chunk.
- Such snapshots are common. All packets of a tick share one sequence number, so a tick of two packets makes
  the client ask for a resync (`Client.LosslessTickAsksForResyncs`); and the two counters that number deltas
  and snapshots drift apart with every tick that has nothing to send (`Lockstep.EmptyTickWidensGap`), after
  which every delta behind a snapshot asks for another one (`Lockstep.SnapshotsBringSnapshots`). README.md
  of the original says that missing numbers can be repaired; the numbers do not tell how many packets are
  missing.
- server/include/Protocol.hpp:53 says that overflowing cells are dropped. The serialiser fragments instead,
  and the capping branch of the sender is never taken (`Packets.CutEncoded`).

## Model

| member | source | states |
|---|---|---|
| Plane.MajorityIsGreatest | server/src/Chunk.cpp:54-62 | With at least one counted neighbour the chosen owner is the owner of one of them and is greatest by (votes, id): ties go to the larger id |
| Plane.MajorityUnique | server/src/Chunk.cpp:54-62 | Being (votes, id)-greatest determines the owner, so the rule leaves no choice |
| Plane.VotesAreCounted | server/src/Chunk.cpp:38-52 | A player's votes are the number of live, owned neighbours that are theirs |
| Plane.LiveCountIsCounted | server/src/Chunk.cpp:38-52 | The neighbour count is the number of live neighbours with a nonzero owner |
| Plane.LifeStepEverywhere | server/src/Chunk.cpp:65-95 | The reference step applies the rule to every position of the infinite plane at once, and its result has no redundant entries |
| Plane.LifeStepIsTheRule | server/src/Chunk.cpp:38-95 | With n live owned cells among the eight around it, a live cell stays as it is if n is 2 or 3 and dies otherwise; a dead one is born if n is 3, to the owner of most of the three and with the largest id on a tie, and stays as it is otherwise |
| Chunks.ChangedIsComplete | server/src/Chunk.cpp:65-95 | A generation puts a cell on the dirty list if and only if the cell's state changes |
| Chunks.ChangedInRowOrder | server/src/Chunk.cpp:65-95 | The changed cells are listed row by row, from left to right, each of them once |
| Chunks.PickOwner | server/src/Chunk.cpp:54-60 | Walking the votes in ascending id order and keeping the last one not outvoted yields the (votes, id)-greatest owner |
| Chunks.Chunk.constructor | server/include/Chunk.hpp:50-52 | A new chunk shows dead cells only and has nothing dirty |
| Chunks.Chunk.GetCell | server/src/Chunk.cpp:7-12 | Reads the inner cell of the shown buffer |
| Chunks.Chunk.SetCell | server/src/Chunk.cpp:14-22 | Replaces one inner cell of the shown buffer and always lists it as dirty; the other buffer is untouched |
| Chunks.Chunk.SetGhostCell | server/src/Chunk.cpp:29-32 | Replaces one storage entry of the shown buffer and nothing else |
| Chunks.Chunk.NeighborAliveCount | server/src/Chunk.cpp:38-63 | The nested scan returns the number of counted neighbours in the 3x3 ring and, if there are any, the majority owner |
| Chunks.Chunk.CalculateCell | server/src/Chunk.cpp:65-94 | One pass of the loop body writes the rule's result to the other buffer and lists the cell exactly if it changes |
| Chunks.Chunk.CalculateNext | server/src/Chunk.cpp:34-96 | The other buffer's inner cells become the next generation, its border entries stay stale, the shown buffer is not written, and the changed cells are appended to the dirty list in row order |
| Chunks.Chunk.SwapBuffers | server/src/Chunk.cpp:98-101 | The two buffers exchange roles |
| Chunks.Chunk.ClearDirty | server/include/Chunk.hpp:40-40 | Empties the dirty list and leaves the cells alone |
| Chunks.Chunk.GetLiveCountByPlayer | server/src/Chunk.cpp:103-120 | The map has exactly the players with a live owned cell, each with the number of their cells |
| Coordinates.ServerCoordinatesAreFloor | server/src/World.cpp:32-46 | The truncating-division formulas of the server are floor division by 64 and its remainder, for negative coordinates too |
| Coordinates.ClientCoordinatesAreFloor | client/src/WorldModel.cpp:11-20 | The client's floorDiv is floor division by 64 |
| Coordinates.SplitJoin | server/src/World.cpp:32-46 | Splitting a position into chunk and local cell and joining it again are inverse bijections |
| Coordinates.CommandWraps | server/src/World.cpp:32-48 | With chunk coordinates narrowed to int, the cell a command edits is its position modulo 2^38 on each axis |
| Coordinates.CommandReachesItsCell | server/src/World.cpp:32-48 | A command edits the cell it names if and only if both coordinates lie in [-2^37, 2^37) |
| Coordinates.FarCommandGoesAstray | server/src/World.cpp:32-48 | A command for (2^37, 0) edits (-2^37, 0) instead |
| WorldSpec.AbsAt | server/src/World.cpp:15-23 | The plane a chunk map stands for has each chunk's inner cells and is dead where there is no chunk |
| WorldSpec.ExchangeBordersInvisible | server/src/World.cpp:82-143 | Creating the margin and copying the borders changes no cell of the plane |
| WorldSpec.BordersAreExact | server/src/World.cpp:95-142 | After the exchange all 66x66 entries of every chunk, border included, equal the plane's cells they stand for, dead where the neighbour chunk is absent |
| WorldSpec.MarginIsExact | server/src/World.cpp:168-202 | The chunks created before a tick are exactly the absent ones next to the chunk of a live cell |
| WorldSpec.LiveCellHasMargin | server/src/World.cpp:165-202 | Every cell next to a live cell lies in a chunk that exists once the margin has been created |
| WorldSpec.NoBirthOutsideMargin | server/src/World.cpp:165-202 | Where there is still no chunk the rule gives a dead cell, so no birth is missed |
| WorldSpec.TickRefinesLife | server/src/GameServer.cpp:139-168 | Exchange, calculate on all chunks and swap on all chunks is exactly one Life step on the whole plane, for any chunk set and any stale buffers |
| Worlds.World.GetOrCreateChunk | server/src/World.cpp:156-163 | Returns the chunk at a coordinate, adding an empty one only if there is none; no other chunk is touched |
| Worlds.World.EnsureSimulationMargin | server/src/World.cpp:168-202 | Adds exactly the absent neighbours of the chunks with a live cell, in whatever order the chunks are visited, where computing those neighbours overflows no int |
| Worlds.World.ExchangeChunk | server/src/World.cpp:95-142 | Fills the whole border of one chunk from its eight neighbours or with dead cells, leaving its inner cells and its other buffer alone; the neighbours' coordinates must fit an int |
| Worlds.World.ExchangeBorders | server/src/World.cpp:82-143 | Whatever the iteration order, every chunk's shown buffer becomes its window of the plane, if the neighbours of all chunks, new margin chunks included, fit an int |
| Worlds.World.EditCell | server/src/World.cpp:51-76 | The switch over place, remove and toggle, with the balance it spends or awards |
| Worlds.World.ApplyCommand | server/src/World.cpp:28-79 | One command creates its chunk if needed, edits the one cell and the one balance, and lists the cell as dirty even when it is refused |
| Worlds.World.ApplyCommands | server/src/World.cpp:25-80 | A batch is the commands applied in order to world and balances |
| Resources.ResourceManager.AddPlayer | server/src/ResourceManager.cpp:9-13 | Sets the balance to 10 whether or not the player was known |
| Resources.ResourceManager.GetBalance | server/src/ResourceManager.cpp:15-23 | The balance, 0 for an unknown player |
| Resources.ResourceManager.TrySpend | server/src/ResourceManager.cpp:25-33 | Succeeds exactly if the account exists and holds the amount, and then takes exactly that; otherwise nothing changes |
| Resources.ResourceManager.AwardPlayer | server/src/ResourceManager.cpp:35-43 | Succeeds exactly if the account exists, and then adds the amount; otherwise nothing changes |
| Resources.ResourceManager.AwardFromLiveCounts | server/src/ResourceManager.cpp:45-50 | Adds every listed count to its player's balance, in whatever order the list is visited |
| Reference.CommandKeepsWellFormed | server/src/World.cpp:51-76 | From a well-formed state a command leads to a well-formed one if and only if it is not player 0 paying for an empty cell |
| Reference.LifeStepKeepsWellFormed | server/src/Chunk.cpp:65-95 | A Life step keeps live exactly where owned, and every newborn's owner has an account |
| Reference.RunKeepsWellFormed | server/src/GameServer.cpp:131-184 | With nonzero player ids every reachable state is well formed, and accounts come only from joins |
| Reference.BatchInOrder | server/src/World.cpp:25-28 | A batch is worked off from its first command to its last |
| Reference.FirstComeFirstServed | server/src/World.cpp:51-58 | Of two players who place a cell on the same empty position in one batch the first gets it |
| Economy.CommandLedger | server/src/World.cpp:51-76 | For every player: balance plus 2 per placement equals old balance plus 1 per removal, and live cells change by the same placements and removals |
| Economy.AcceptedOrNothing | server/src/World.cpp:51-78 | A command flips its own cell exactly under the stated conditions on cell, account and balance; any other command changes nothing |
| Economy.LedgerFailsOnlyForNobody | server/src/World.cpp:51-76 | The sender's ledger balances if and only if it is not player 0 acting on an unowned cell with a sufficient account |
| Economy.RemovingNothingPaysNobody | server/src/World.cpp:59-63 | Player 0 earns 1 by removing an empty cell |
| Economy.NobodysCellIsForSale | server/src/World.cpp:51-76 | A live cell that player 0 left behind without an owner can be bought for 2 and switched off for an award of 1 by anybody, but removed by no other player |
| Economy.OthersAreUntouched | server/src/World.cpp:51-78 | No command changes the balance, the account or any cell of a player who did not send it |
| Economy.BatchLedger | server/src/World.cpp:25-80 | Over a batch, balance plus live cells of a player drops by exactly the number of their placements |
| Economy.RunLedger | server/src/GameServer.cpp:172-184 | Over every run without a rejoin: balance = initial balance + live cells summed over the ticks + removals - 2 * placements |
| Economy.LedgerSinceJoin | server/src/ResourceManager.cpp:9-13 | The same from a join on, with 10 as the initial balance, also when the player had an account before |
| Economy.IncomeIsLiveCells | server/src/ResourceManager.cpp:45-50 | A player's income is the number of live cells that carry their id |
| LightCone.LifeStepSpreadsByOne | server/src/Chunk.cpp:38-52 | A plane within [-k, k] is within [-(k+1), k+1] after one step |
| LightCone.RunStaysInLightCone | server/src/GameServer.cpp:131-184 | If all commands lie in [-k, k], all cells lie within k plus the number of ticks |
| Translation.RunIsTranslationInvariant | server/src/GameServer.cpp:131-184 | Shifting every command of a run by any vector shifts the resulting plane by it and leaves all balances unchanged |
| Translation.RunShifts | server/src/GameServer.cpp:131-184 | The same cell by cell: from planes shifted by d, runs with commands shifted by d end in planes shifted by d and the same balances |
| Server.CommandRefines | server/src/World.cpp:28-79 | A command on the chunked world is the chunkless command at the position it really addresses |
| Server.RunRefines | server/src/GameServer.cpp:131-184 | For every run in which no int overflows, the chunked server shows the plane and balances of the chunkless machine fed with the commands its 32-bit chunk coordinates address |
| Server.GridIsInvisible | server/src/GameServer.cpp:131-184 | If moreover all commands are in range, the chunked server and the chunkless machine agree on plane and balances after the run |
| Server.ExtraChunksNeverMatter | server/src/World.cpp:156-163 | Two servers that show the same plane and balances, whatever chunks, borders and spare buffers they hold, still do after any run in which neither overflows |
| Server.ChunkCoordinatesNeverOverflow | server/src/World.cpp:98-105 | From any server whose chunks and cells lie within [-k, k], commands within [-k, k] and fewer than 2^37 - 128 - k ticks overflow no int before any tick of the run |
| Server.EdgeCommandOverflows | server/src/World.cpp:98-105 | Whatever the server held, one command at (2^37 - 1, 0), in range and even if refused, makes the next tick overflow |
| Server.EdgeRunOverflows | server/src/World.cpp:98-105 | So the run of a tick with this command and one more tick overflows |
| LiveCounts.TotalsAreIncome | server/src/GameServer.cpp:176-184 | The chunks' counts added up are each player's live cells on the whole plane, with no entry for anybody else |
| GameServers.GameServer.OnCommandsFromNetwork | server/src/GameServer.cpp:125-129 | Appends the commands to the queue in order |
| GameServers.GameServer.CalculateChunks | server/src/GameServer.cpp:143-155 | Every chunk has computed its next generation, whatever the order |
| GameServers.GameServer.SwapChunks | server/src/GameServer.cpp:157-168 | Every chunk has swapped its buffers, whatever the order |
| GameServers.GameServer.TotalCounts | server/src/GameServer.cpp:176-183 | The accumulated totals are the live cells per player on the plane |
| GameServers.GameServer.GetFullSnapshotForSeq | server/src/GameServer.cpp:204-209 | A renumbered copy of the cached snapshot; the cache is not changed |
| GameServers.GameServer.OnTick | server/src/GameServer.cpp:131-202 | Where no neighbour coordinate overflows an int, a tick drains the queue and moves world and balances by exactly one event of the value-level server; the update holds the dirty cells, the cache every live cell and the statistics every account, all as of the end of the tick, and the dirty lists are empty afterwards |
| Schedule.TasksAreIndependent | server/src/GameServer.cpp:143-168 | In any interleaving of the chunk tasks, cell by cell, each chunk has made exactly its own steps |
| Schedule.ScheduleDoesNotMatter | server/src/GameServer.cpp:143-168 | Every complete interleaving, even one where swaps overtake other chunks' calculations, ends in the world of calculate-all then swap-all |
| Codec.LERoundTrip | server/include/WorldSerializer.hpp:76-79 | Reading a little-endian field gives back the number written, for every width it fits |
| Codec.LEUnique | client/src/ClientParsers.cpp:9-15 | Writing the number read from a field gives back its bytes |
| Codec.SignedRoundTrip64 | client/src/GameNetworkClient.cpp:204-210 | A signed 64-bit field gives back the number modulo 2^64, centred on 0 |
| Codec.LE32Bytes | server/include/WorldSerializer.hpp:76-79 | The least significant byte comes first |
| Codec.LE64Bytes | client/src/GameNetworkClient.cpp:204-210 | Of eight bytes the low half comes first |
| Codec.SignedBytes | client/src/GameNetworkClient.cpp:204-210 | Negative 32- and 64-bit numbers are sent in two's complement |
| Packets.ParseUdpWorldPacket | client/src/ClientParsers.cpp:21-59 | The cursor loop computes the parse function on every datagram: nothing for a short or truncated one, otherwise the header fields and as many cells as announced |
| Packets.ParseRoundTrip | client/src/ClientParsers.cpp:21-59 | Parsing an encoded packet gives back its number, flag, coordinates (as int32) and entries in order, whatever bytes follow |
| Packets.PacketLayout | server/include/Protocol.hpp:38-68 | The fields of a packet lie at bytes 0, 4, 5, 9 and 13, its cells at 15 + 11 * i with position, state byte and owner |
| Packets.ParseReadsLayout | client/src/ClientParsers.cpp:21-59 | A datagram parses exactly if it holds the header and as many cells as announced; the fields are read from these bytes, the flag byte 1 alone means a full update, and any nonzero state byte a live cell |
| Packets.Fragments | server/include/WorldSerializer.hpp:93-98 | Every packet of a chunk has 1 to 125 cells and carries the chunk's coordinates, number and flag |
| Packets.FragmentsAreFull | server/include/WorldSerializer.hpp:93-98 | n entries take (n + 124) / 125 packets, of which all but the last carry exactly 125 cells and the last the remaining ones, each its part of the entries in order |
| Packets.FragmentsJoin | server/include/WorldSerializer.hpp:93-98 | The cells of the packets, one after the other, are the chunk's entries: none lost, repeated or moved |
| Packets.AppendChunk | server/include/WorldSerializer.hpp:86-123 | Appends exactly the encodings of the chunk's fragments to the payload |
| Packets.RewriteSnapshotSeqNums | server/src/GameServer.cpp:24-39 | In place, on any bytes: overwrites the number of every whole packet and stops at the first truncated one |
| Packets.RenumberEncoded | server/src/GameServer.cpp:24-39 | On a serialised payload this changes all sequence numbers and nothing else |
| Packets.RenumberStopsAtTruncated | server/src/GameServer.cpp:24-39 | Whole packets in front of a truncated one get the new number; from there on no byte changes |
| Packets.SendPayloadTo | server/src/BoostNetworkManager.cpp:271-303 | On a well-framed payload the loop sends one datagram per frame, capped at 125 cells, and never reads past the buffer |
| Packets.CutEncoded | server/src/BoostNetworkManager.cpp:271-303 | A serialised payload is well framed, is cut exactly at its packets, never takes the capping branch, and every datagram has at most 1390 bytes |
| Packets.OversizedFrameIsCapped | server/src/BoostNetworkManager.cpp:284-296 | A frame that announces more cells is cut to its first 125, with the count corrected |
| Packets.WireRoundTrip | client/src/ClientParsers.cpp:21-59 | For any list of chunks and entries, serialising, renumbering, cutting and parsing gives the same entries with the same coordinates and flag in order; every datagram parses, has at most 1390 bytes and carries the new number |
| Packets.DatagramsParse | server/src/BoostNetworkManager.cpp:271-303 | Datagram i of a renumbered payload parses to packet i with only the number changed |
| Serializer.AllChunksWithCoords | server/src/World.cpp:204-211 | Lists every chunk exactly once, in some order |
| Serializer.SerializeFull | server/include/WorldSerializer.hpp:48-73 | The encoding of the live cells of every listed chunk in row order; chunks without live cells send nothing; no chunk changes |
| Serializer.SerializeDelta | server/include/WorldSerializer.hpp:19-45 | The encoding of the dirty cells of every chunk with their present state, after which every dirty list is empty and every cell unchanged |
| Serializer.UpdatesArePackets | server/include/WorldSerializer.hpp:19-73 | Deltas and snapshots are lists of chunks with their dirty or live entries, so the round trip covers both |
| Serializer.DeltaHeaders | server/include/WorldSerializer.hpp:19-45 | The packets of a delta carry the flag 0, the given number and a chunk of the list |
| Serializer.FullHeaders | server/include/WorldSerializer.hpp:48-73 | The packets of a snapshot carry the flag 1, the given number and a chunk of the list |
| Client.WorldModel.EraseCells | client/src/WorldModel.cpp:49-62 | Whatever the iteration order, removes the keys of one chunk and no other |
| Client.WorldModel.Apply | client/src/WorldModel.cpp:43-84 | The map after an update is the erase, if it is a full one, followed by the entries in order; the generation is the packet's number |
| Client.LaterEntriesWin | client/src/WorldModel.cpp:69-79 | Entries take effect in order, so of several about one cell the last one counts |
| Client.WorldModel.Reset | client/src/WorldModel.cpp:35-41 | Empties the map and starts the generation at 0 |
| Client.WorldModel.LiveCellsOwnedBy | client/src/WorldModel.cpp:131-140 | Counts the cells of one owner |
| Client.GameNetworkClient.ApplyDatagram | client/src/GameNetworkClient.cpp:242-274 | An unparsable datagram changes nothing; otherwise the map takes the update, the number is remembered, and a resync is requested exactly if a delta's number is not the successor of the last one |
| Client.LosslessTickAsksForResyncs | client/src/GameNetworkClient.cpp:249-256 | A tick delivered in k delta packets without any loss makes the client request k - 1 resyncs if its number follows the last one, and k otherwise |
| Mirroring.WireIsTransparent | server/src/BoostNetworkManager.cpp:271-303 | Encoding, cutting and parsing between server and client changes nothing about what the packets do to the map |
| Mirroring.DeltaShows | server/include/WorldSerializer.hpp:25-42 | Applying a world's deltas sets exactly its dirty cells to the server's present owners, despite repeats and fragmentation, and touches no other cell |
| Snapshots.LiveEntriesFacts | server/include/WorldSerializer.hpp:57-66 | The entries of a full snapshot are truthful and miss no live cell |
| Snapshots.LiveEntriesAscend | server/include/WorldSerializer.hpp:57-66 | They are listed row by row, from left to right, each of them once |
| Snapshots.FullFragmentsShow | client/src/WorldModel.cpp:49-79 | Since every full packet erases the chunk first, only the last packet of a chunk survives |
| Snapshots.LastPartIsRemainder | server/include/WorldSerializer.hpp:93-98 | The last of n live cells' packets holds those from number 125 * ((n - 1) / 125) on |
| Snapshots.SnapshotRestoresExactly | client/src/WorldModel.cpp:43-84 | Whatever the client held, a full snapshot makes a chunk agree with the server if and only if it has 1 to 125 live cells, or none where the client showed none |
| Snapshots.SnapshotTouchesNoOtherChunk | client/src/WorldModel.cpp:49-79 | No cell outside the server's chunks changes |
| Snapshots.SnapshotShowsAll | client/src/WorldModel.cpp:43-84 | After a snapshot the client shows the server's world everywhere if and only if every chunk has 1 to 125 live cells, or none where the client showed none, and the client showed nothing outside the server's chunks |
| Snapshots.SnapshotForFreshClient | server/include/WorldSerializer.hpp:48-73 | A fresh client that gets a snapshot with at most 125 live cells per chunk shows exactly the server's plane |
| Replication.StepListsChanges | server/src/Chunk.cpp:65-95 | A generation adds exactly the cells that change, and no other, to the dirty lists |
| Replication.TickListsExactly | server/src/GameServer.cpp:139-174 | A tick adds to the dirty lists exactly the cells its generation changes and those its commands address, refused or not |
| Replication.TickTracks | server/src/Chunk.cpp:65-95 | In a tick every cell that ends up different is on its chunk's dirty list, and nothing listed before is dropped |
| Replication.TickKeepsMirror | server/src/GameServer.cpp:191-195 | A client in agreement that is served the delta of a tick is in agreement after it |
| Replication.DeltasKeepMirror | server/src/GameServer.cpp:191-195 | For a client that is served the delta in every tick: it shows the server's plane after every run, for every chunk order at every tick |
| Replication.FeedShows | server/src/BoostNetworkManager.cpp:227-269 | After any stretch of deltas, a cell that was sent shows the server's present owner whatever the client started from, and a cell that was not sent has not changed on the server |
| Replication.StaleDeltasAreHarmless | server/src/BoostNetworkManager.cpp:250-268 | Replaying all the deltas that led up to the state a client already shows leaves it unchanged |
| Replication.SnapshotIsWellFramed | server/src/GameServer.cpp:204-209 | The renumbered cached snapshot is well framed, so sending it never reads past the buffer |
| Replication.LateSnapshotConverges | server/src/GameServer.cpp:204-217 | A client served a snapshot of a later tick in place of an earlier broadcast, and then the deltas of all ticks since, shows the server's plane at the end |
| StatsStream.StatsReader.TryParseServerStatsMessage | client/src/ClientParsers.cpp:61-101 | The loop computes the parse function: skips bytes up to a message, leaves an incomplete one in the buffer, and removes a complete one |
| StatsStream.StatsReader.OnTcpReadyRead | client/src/GameNetworkClient.cpp:165-182 | Appending and draining terminates, emits every complete message in order and keeps the rest |
| StatsStream.DrainResumes | client/src/ClientParsers.cpp:61-101 | Draining a prefix first and the remainder plus the later bytes afterwards gives what draining everything at once gives |
| StatsStream.SegmentationIsInvisible | client/src/GameNetworkClient.cpp:165-182 | For any bytes and any split into reads, the messages and the final buffer are those of a single read |
| StatsStream.MessagesArrive | server/src/GameServer.cpp:41-74 | Any series of encoded statistics messages is parsed back to exactly that series with nothing left |
| StatsStream.MessageBehindJunk | client/src/ClientParsers.cpp:70-74 | Behind any bytes other than 0x20 a message of at most 65535 players is found, and nothing after it is touched |
| StatsStream.NoisyMessagesArrive | client/src/GameNetworkClient.cpp:165-182 | A series of messages with such junk between and behind them is read completely and in order; of the junk behind them at most six bytes stay in the buffer |
| StatsStream.IncompleteMessageWaits | client/src/ClientParsers.cpp:76-82 | A message of which a part is missing waits in the buffer, without the junk in front of it |
| StatsStream.StatsLayout | server/src/GameServer.cpp:52-70 | The type byte is 0x20; generation and count lie at bytes 1 and 5, and id, balance and live cells of player i from byte 7 + 24 * i on |
| StatsStream.SerializeServerStats | server/src/GameServer.cpp:41-74 | A client parses the payload to one complete message with the accounts in ascending id order, their balances and live cells: all accounts, or the 65535 smallest ids |
| StatsStream.ReportListsSmallest | server/src/GameServer.cpp:45-50 | An account is listed if and only if fewer than 65535 accounts have a smaller id |
| StatsStream.ReportListsEveryone | server/src/GameServer.cpp:45-50 | With at most 65535 accounts everybody is listed |
| CommandStream.SendCommand | client/src/GameNetworkClient.cpp:212-225 | The 25-byte encoding of a command |
| CommandStream.Session.constructor | server/src/BoostNetworkManager.cpp:347-349 | A session starts in need of a full snapshot |
| CommandStream.Session.ReadMessages | server/src/BoostNetworkManager.cpp:371-464 | The chain of reads yields exactly the decoded commands, raises the snapshot flag exactly on a resync request and keeps an incomplete command unread |
| CommandStream.StreamRoundTrip | server/src/BoostNetworkManager.cpp:371-464 | A session for the sender decodes exactly the commands sent, in order and with their 64-bit coordinates, and notices whether there was a resync request; a session for another player decodes no command |
| CommandStream.MessageLayout | client/src/GameNetworkClient.cpp:95-103 | A command is the byte 0, 1 or 2 for place, remove or toggle, the player at byte 1 and the coordinates at bytes 9 and 17; a resync request is the byte 0x10 |
| CommandStream.UnknownIsSkipped | server/src/BoostNetworkManager.cpp:459-462 | Bytes that start no message are skipped one at a time |
| CommandStream.PartOfCommandWaits | server/src/BoostNetworkManager.cpp:404-412 | A command of which a part is missing yields nothing and stays unread |
| CommandStream.DecodeResumes | server/src/BoostNetworkManager.cpp:371-464 | Decoding the stream in two stretches gives the commands, the flag and the unread bytes of decoding it at once |
| Broadcast.NetworkManager.RequestSnapshot | server/src/BoostNetworkManager.cpp:390-402 | Marks one session as waiting for a snapshot |
| Broadcast.NetworkManager.BroadcastWorldUpdate | server/src/BoostNetworkManager.cpp:189-199 | Uses up a number and posts the update under it; an empty update does neither |
| Broadcast.NetworkManager.RunPosted | server/src/BoostNetworkManager.cpp:195-198 | Runs the broadcast posted first, with the snapshot cached by then |
| Broadcast.NetworkManager.DoUdpBroadcast | server/src/BoostNetworkManager.cpp:227-269 | Each session gets the datagrams of the cached snapshot, numbered like the broadcast, if it was waiting for one and those of the delta otherwise, and nobody is waiting afterwards |
| Broadcast.NetworkManager.TickAndPost | server/src/GameServer.cpp:131-202 | A tick posts the delta of its dirty cells under the manager's next number, or nothing if there is none |
| Agreement.StepDecides | server/src/BoostNetworkManager.cpp:227-269 | Whatever is under way, for every cell: a tick mends the agreement exactly if it lists the cell; a served snapshot decides it anew, by the stated condition on chunk, client and later broadcasts; serving a delta, delivering, requesting and every other step change nothing |
| Agreement.OnTrackExactly | server/src/GameServer.cpp:185-217 | Over any run, with any delays of threads, datagrams and requests: a client on track stays on track at every step if and only if every snapshot it is served suits every cell |
| Agreement.SnapshotAgreesExactly | server/src/BoostNetworkManager.cpp:250-265 | With nothing to follow the snapshot, all cells are right after it if and only if every chunk has 1 to 125 live cells, or none where the client showed none, and the client showed nothing outside the server's chunks |
| Agreement.ChunksSuitSuffices | server/src/BoostNetworkManager.cpp:250-265 | The same condition on the chunks makes a snapshot suit every cell whatever follows |
| Agreement.QuietMirror | client/src/WorldModel.cpp:43-84 | Once everything sent has arrived, being on track means that the client's map is the mirror of the server's plane |
| ClosedLoop.LoopPlaysTheGame | server/src/GameServer.cpp:131-202 | The ticks and joins of a loop are a run of the server in which no int overflows |
| Lockstep.PressedResyncIsServed | server/src/BoostNetworkManager.cpp:390-402 | A request the user makes reaches the session, and the next posted broadcast puts the cached snapshot on its way to the client |
| WireLoop.StepOnWire | server/src/BoostNetworkManager.cpp:189-303 | Each step in bytes, with payloads, renumbering, cutting and parsing, is the step in packets, and never reads past a payload |
| WireLoop.LoopOnWire | server/src/BoostNetworkManager.cpp:189-303 | The same for whole runs |
| Lockstep.RoundOutcome | server/src/BoostNetworkManager.cpp:227-269 | Without any delay: what a round leaves at the client, in the counters and of requests; a delta brings a request exactly if it takes two packets or its number does not follow |
| Lockstep.EmptyTickWidensGap | server/src/BoostNetworkManager.cpp:189-193 | The delta numbers run ahead of the snapshot numbers by one more after every tick with nothing to send, and only then |
| Lockstep.SnapshotsBringSnapshots | client/src/GameNetworkClient.cpp:249-256 | The first delta behind a snapshot asks for another snapshot if and only if the counters differ or it takes two packets |
| GhostCells.GhostSurvives | server/include/WorldSerializer.hpp:48-73 | There is a run of three ticks, without loss or delay, after which no cell is alive, nothing is under way, and the client shows a live cell |
| GhostCells.GhostStays | server/src/BoostNetworkManager.cpp:227-269 | On an empty plane no number of further rounds without commands changes what the client shows |
| ThreadPool.StepKeeps | server/src/ThreadPool.cpp:17-57 | Every step of enqueue, pop, finish, shutdown and exit keeps the pool invariant |
| ThreadPool.EveryTaskInOnePlace | server/src/ThreadPool.cpp:17-57 | In every run tasks start in FIFO order and at most once, and each submitted task is in exactly one of queued, running and done |
| ThreadPool.ShutdownDrains | server/src/ThreadPool.cpp:28-57 | With at least one worker and no enqueue after stopping, once all workers have exited a task is done if and only if it was submitted |
| ThreadPool.LateTaskIsStranded | server/src/ThreadPool.cpp:17-26 | A task queued once all workers have left stays queued in every continuation |
| ThreadPool.ShutdownMakesProgress | server/src/ThreadPool.cpp:43-57 | A stopping pool whose workers have not all exited always has a worker step it can take |
| ThreadPool.DrainIsBounded | server/src/ThreadPool.cpp:28-41 | The workers can take no more steps than there is work, so the joins of shutdown return |
| ThreadPool.RunCounts | server/src/ThreadPool.cpp:17-32 | A pool is stopping exactly if it was shut down, and every enqueue submits one task |
| ThreadPool.WorkerMoves | server/src/ThreadPool.cpp:43-57 | A worker with a task can finish it and nothing else; an idle one takes the first task of the queue, leaves if there is none and the pool is stopping, and waits if it is not |
| ThreadPool.ShutdownCompletes | server/src/ThreadPool.cpp:28-41 | From every state a shutdown can be followed by worker steps alone until all workers have left, and with a worker and none gone before every submitted task is done by then |
| ThreadPool.TasksGetDone | server/src/ThreadPool.cpp:43-57 | Without a shutdown, too, the workers can work off everything that was submitted |
| PendingEdits.GameWindow.SumQueuedSpend | client/src/GameWindow.cpp:438-443 | The loop adds up 2 for every queued edit of an unowned cell that places |
| PendingEdits.GameWindow.OnGridCellClicked | client/src/GameWindow.cpp:391-467 | A click is accepted exactly if permitted and affordable, toggles or replaces the edit of its cell, and keeps the queue permitted and within the balance |
| PendingEdits.PermittedIsAccepted | client/src/GameWindow.cpp:419-431 | In sync, an edit is permitted and its cost covered by the balance if and only if the server would accept it |
| PendingEdits.ClickIsAdmittedExactly | client/src/GameWindow.cpp:433-452 | A click on top of an admitted queue is refused exactly when the server would refuse the edit or the balance does not cover 2 for every empty cell queued and once more for this one |
| PendingEdits.GameWindow.SendAction | client/src/GameWindow.cpp:346-389 | Sends the edit exactly if the mirror permits it and, where it spends, the known balance covers one placement |
| PendingEdits.PassesIsAccepted | client/src/GameWindow.cpp:346-389 | In sync, an edit is sent if and only if the server would accept it as its next command |
| PendingEdits.GameWindow.ApplyPendingEdits | client/src/GameWindow.cpp:469-480 | Sends, in some order of the queued cells, exactly the edits that still pass, and empties the queue |
| PendingEdits.AdmittedQueueIsSentComplete | client/src/GameWindow.cpp:346-389 | Of an admitted queue every edit passes the checks made when it is sent |
| PendingEdits.AdmittedQueueIsAccepted | client/src/GameWindow.cpp:391-480 | In the chunkless game, on a plane the client mirrors, every edit of an admitted queue is accepted in any order: each cell is flipped, each placement paid and each removal awarded |
| PendingEdits.OrderDoesNotMatter | client/src/GameWindow.cpp:469-480 | In the chunkless game any two orders of an admitted queue lead to the same plane and balances |
| EndToEnd.ServerAcceptsAdmittedQueue | server/src/World.cpp:25-80 | The same on the chunked server's own commands, for cells in range |
| EndToEnd.ServerStaysWellFormed | server/src/World.cpp:51-78 | The chunked server stays well formed over every run with nonzero ids in which no int overflows, and opens accounts only on joins |
| EndToEnd.ServerLedger | server/src/GameServer.cpp:172-184 | The conservation law holds for the chunked server over every run in which no int overflows |
| EndToEnd.ServerIsTranslationInvariant | server/src/World.cpp:25-80 | Shifting all commands by any vector, not only by whole chunks, shifts what the chunked server shows, where both runs are in range and overflow no int |
| EndToEnd.ReportTellsTheGame | server/src/GameServer.cpp:41-74 | A client reads from the statistics the accounts in ascending order with their balances and, for nonzero ids, the numbers of their live cells on the plane |
| EndToEnd.DeltasShowTheGame | server/src/GameServer.cpp:131-202 | A client that is present from the start and served the delta in every tick shows after every run exactly the cells of the chunkless game, provided commands stay within [-k, k] with k plus the ticks below 2^37 - 128 |
| EndToEnd.ClientShowsTheGame | server/src/GameServer.cpp:131-202 | Over every run of server, session and client from the start, in bytes, with commands in range: the server plays the chunkless game; the client is on track all along if and only if every snapshot it is served suits it, and then, once everything sent has arrived, shows exactly the cells of the game |
| EndToEnd.MirrorCountsIncome | client/src/WorldModel.cpp:131-140 | What the client counts as a player's cells is the income the server pays them |

## Left out

- OnTick: assumes that no balance reaches 2^64 at the end of the tick; balances are natural numbers, so the wrap-around of `uint64_t` additions is not modelled.
- SegmentationIsInvisible: needs at least one read, because a buffer nobody reads from is never drained.
- StepDecides: datagrams are delivered in order and none is lost; loss, reordering and duplication by the network are not modelled, since the protocol has no means to detect every loss.
- LateSnapshotConverges: requires that the session is served deltas after the snapshot; `StepDecides` and `OnTrackExactly` have the case of further snapshots.
- DeltasKeepMirror: requires that the session is served the delta in every tick, for the same reason.
- ClientShowsTheGame: follows one session; other sessions share the server and the broadcasts, but neither its flag nor its datagrams.
- AdmittedQueueIsAccepted: is about the chunkless game; `ServerAcceptsAdmittedQueue` has the chunked server.
- SendPayloadTo: requires a well-framed payload, as the original would read past the buffer otherwise; all payloads the server builds are proved well framed.
- CalculateChunks: runs the tasks one after the other on the heap; their interleavings, one cell at a time, are in `Schedule` on values.
- EveryTaskInOnePlace: critical sections are atomic steps; condition variables, spurious wake-ups and futures are not modelled.
- CommandChunk: the intermediate `globalX - 63` is computed without overflow; within 63 of the smallest 64-bit integer the original's behaviour is undefined.
- TickRefinesLife: is about the value-level tick with unbounded coordinates; `ExchangeBorders` and the run theorems require that they fit an `int`, since an overflow is undefined.
- AppendPacket: bytes are appended to a sequence where the original resizes a vector and writes through a pointer.
- Iteration orders of hash maps are arbitrary orders; hash functions and `std::sort` are not modelled.
- Sockets, accept loop, endpoints, handshake, session removal and logging: input and output.
- The windows, painting, minimap and zoom of the client, `visibleCells` and `ownerStats`: user interface.
- Tick scheduler and reconnect timer: wall-clock behaviour.
- `printDebugState`, called in every tick, writes a summary of the chunks to the log; `Chunk::clear`, which fills both buffers with dead cells, and `ThreadSafeQueue::waitAndPop`, which blocks until an element arrives, are called by none of the modelled functions.
- Administrator roles, rate limits, pause and configurable rules of docs/requirements.md: not implemented by the code.
