/**
 The statistics stream over TCP: the server's encoder (server/src/GameServer.cpp), the client's
 resynchronising parser (client/src/ClientParsers.cpp) and its read loop
 (client/src/GameNetworkClient.cpp).
 */
module StatsStream {
  import opened Types
  import opened Codec
  import Packets
  import opened Reference

  const STATS: byte := 0x20
  const STATS_HEADER: nat := 7
  const STATS_ENTRY: nat := 24
  const MAX_PLAYERS: nat := 0xFFFF

  datatype PlayerStats = PlayerStats(id: PlayerId, balance: PlayerId, liveCells: PlayerId)

  datatype Stats = Stats(generation: Packets.u32, players: seq<PlayerStats>)

  function EncodePlayer(p: PlayerStats): (r: seq<byte>)
    ensures |r| == STATS_ENTRY
  {
    LE64(p.id) + LE64(p.balance) + LE64(p.liveCells)
  }

  function EncodePlayers(ps: seq<PlayerStats>): (r: seq<byte>)
    ensures |r| == STATS_ENTRY * |ps|
  {
    if ps == [] then [] else EncodePlayer(ps[0]) + EncodePlayers(ps[1..])
  }

  function EncodeStatsHeader(s: Stats): (r: seq<byte>)
    ensures |r| == STATS_HEADER
  {
    [STATS] + LE32(s.generation) + LE16(|s.players|)
  }

  function EncodeStats(s: Stats): (r: seq<byte>)
    ensures |r| == STATS_HEADER + STATS_ENTRY * |s.players|
  {
    EncodeStatsHeader(s) + EncodePlayers(s.players)
  }

  // ---------------------------------------------------------------- the parser

  function GenerationField(b: seq<byte>): (r: seq<byte>) requires |b| >= STATS_HEADER ensures |r| == 4 { b[1..5] }
  function PlayersField(b: seq<byte>): (r: seq<byte>) requires |b| >= STATS_HEADER ensures |r| == 2 { b[5..7] }

  function StatsSize(b: seq<byte>): (n: nat)
    requires |b| >= STATS_HEADER
    ensures n >= STATS_HEADER
  {
    STATS_HEADER + STATS_ENTRY * Read16(PlayersField(b))
  }

  function ReadPlayer(b: seq<byte>): PlayerStats
    requires |b| >= STATS_ENTRY
  {
    PlayerStats(Read64(b[0..8]), Read64(b[8..16]), Read64(b[16..24]))
  }

  function ReadPlayers(b: seq<byte>, n: nat): (r: seq<PlayerStats>)
    requires |b| >= STATS_ENTRY * n
    ensures |r| == n
  {
    if n == 0 then [] else [ReadPlayer(b)] + ReadPlayers(b[STATS_ENTRY..], n - 1)
  }

  function ReadStats(b: seq<byte>): Stats
    requires |b| >= STATS_HEADER && StatsSize(b) <= |b|
  {
    Stats(Read32(GenerationField(b)), ReadPlayers(b[STATS_HEADER..], Read16(PlayersField(b))))
  }

  /** Skips bytes until a message starts; waits, without consuming it, for a message to be complete. */
  function TryParse(b: seq<byte>): (r: (Option<Stats>, seq<byte>))
    ensures r.0.Some? ==> |r.1| < |b|
    decreases |b|
  {
    if |b| < STATS_HEADER then (None, b)
    else if b[0] != STATS then TryParse(b[1..])
    else if |b| < StatsSize(b) then (None, b)
    else (Some(ReadStats(b)), b[StatsSize(b)..])
  }

  /** Parses message after message until no complete one is left. */
  function Drain(b: seq<byte>): (r: (seq<Stats>, seq<byte>))
    decreases |b|
  {
    var (message, rest) := TryParse(b);
    if message == None then ([], rest)
    else
      var (more, left) := Drain(rest);
      ([message.value] + more, left)
  }

  class StatsReader {
    var buffer: seq<byte>

    constructor ()
      ensures buffer == []
    {
      buffer := [];
    }

    method TryParseServerStatsMessage() returns (message: Option<Stats>)
      modifies this
      ensures (message, buffer) == TryParse(old(buffer))
    {
      hide ReadPlayer, GenerationField, PlayersField, Read16, Read32;
      while true
        invariant TryParse(buffer) == TryParse(old(buffer))
        decreases |buffer|
      {
        if |buffer| < STATS_HEADER {
          return None;
        }
        if buffer[0] != STATS {
          buffer := buffer[1..];
          continue;
        }
        var playerCount := Read16(PlayersField(buffer));
        var packetSize := STATS_HEADER + playerCount * STATS_ENTRY;
        if |buffer| < packetSize {
          return None;
        }
        ghost var whole := buffer;
        var players: seq<PlayerStats> := [];
        var cursor := STATS_HEADER;
        for i := 0 to playerCount
          invariant buffer == whole && cursor == STATS_HEADER + STATS_ENTRY * i
          invariant players + ReadPlayers(buffer[cursor..], playerCount - i)
                    == ReadPlayers(buffer[STATS_HEADER..], playerCount)
        {
          assert buffer[cursor..][STATS_ENTRY..] == buffer[cursor + STATS_ENTRY..];
          players := players + [ReadPlayer(buffer[cursor..])];
          cursor := cursor + STATS_ENTRY;
        }
        assert players + [] == players;
        message := Some(Stats(Read32(GenerationField(buffer)), players));
        buffer := buffer[packetSize..];
        return;
      }
    }

    /** Appends what the socket delivered and emits every complete message. */
    method OnTcpReadyRead(data: seq<byte>) returns (messages: seq<Stats>)
      modifies this
      ensures (messages, buffer) == Drain(old(buffer) + data)
    {
      hide TryParse;
      buffer := buffer + data;
      ghost var expected, left := Drain(buffer).0, Drain(buffer).1;
      messages := [];
      assert [] + expected == expected;
      while true
        invariant messages + Drain(buffer).0 == expected && Drain(buffer).1 == left
        decreases |buffer|
      {
        var parsed := TryParseServerStatsMessage();
        if parsed == None {
          assert messages + [] == messages;
          return;
        }
        assert messages + ([parsed.value] + Drain(buffer).0) == messages + [parsed.value] + Drain(buffer).0;
        messages := messages + [parsed.value];
      }
    }
  }

  // ---------------------------------------------------------------- segmentation independence

  /** A parse that stopped is resumed by later bytes exactly as if they had been there from the start. */
  lemma {:induction false} ParseResumes(a: seq<byte>, b: seq<byte>)
    ensures var (message, rest) := TryParse(a);
            TryParse(a + b) == if message == None then TryParse(rest + b) else (message, rest + b)
    decreases |a|
  {
    hide StatsSize, ReadStats;
    if |a| >= STATS_HEADER {
      if a[0] != STATS {
        assert (a + b)[1..] == a[1..] + b;
        ParseResumes(a[1..], b);
      } else {
        SizeOfPrefix(a, b);
        if |a| >= StatsSize(a) {
          StatsOfPrefix(a, b);
          assert (a + b)[StatsSize(a)..] == a[StatsSize(a)..] + b;
        }
      }
    }
  }

  lemma SizeOfPrefix(a: seq<byte>, b: seq<byte>)
    requires |a| >= STATS_HEADER
    ensures StatsSize(a + b) == StatsSize(a)
  {
    assert PlayersField(a + b) == PlayersField(a);
  }

  lemma {:induction false} PlayersOfPrefix(a: seq<byte>, b: seq<byte>, n: nat)
    requires |a| >= STATS_ENTRY * n
    ensures ReadPlayers(a + b, n) == ReadPlayers(a, n)
    decreases n
  {
    hide Read64;
    if n > 0 {
      assert (a + b)[STATS_ENTRY..] == a[STATS_ENTRY..] + b;
      assert (a + b)[0..8] == a[0..8] && (a + b)[8..16] == a[8..16] && (a + b)[16..24] == a[16..24];
      PlayersOfPrefix(a[STATS_ENTRY..], b, n - 1);
    }
  }

  lemma StatsOfPrefix(a: seq<byte>, b: seq<byte>)
    requires |a| >= STATS_HEADER && StatsSize(a) <= |a|
    ensures StatsSize(a + b) == StatsSize(a) && ReadStats(a + b) == ReadStats(a)
  {
    hide Read16, Read32, ReadPlayers;
    assert PlayersField(a + b) == PlayersField(a) && GenerationField(a + b) == GenerationField(a);
    assert (a + b)[STATS_HEADER..] == a[STATS_HEADER..] + b;
    PlayersOfPrefix(a[STATS_HEADER..], b, Read16(PlayersField(a)));
  }

  lemma {:induction false} DrainResumes(a: seq<byte>, b: seq<byte>)
    ensures var (early, rest) := Drain(a);
            var (late, left) := Drain(rest + b);
            Drain(a + b) == (early + late, left)
    decreases |a|
  {
    hide TryParse;
    var (message, rest) := TryParse(a);
    ParseResumes(a, b);
    if message == None {
      DrainOfRest(a, b);
      assert [] + Drain(rest + b).0 == Drain(rest + b).0;
    } else {
      DrainResumes(rest, b);
      var (early, r) := Drain(rest);
      var (late, left) := Drain(r + b);
      assert ([message.value] + early) + late == [message.value] + (early + late);
    }
  }

  lemma DrainOfRest(a: seq<byte>, b: seq<byte>)
    requires TryParse(a).0 == None
    ensures Drain(a + b) == Drain(TryParse(a).1 + b)
  {
    hide TryParse;
    ParseResumes(a, b);
  }

  function Joined(segments: seq<seq<byte>>): seq<byte> {
    if segments == [] then [] else segments[0] + Joined(segments[1..])
  }

  /** The messages emitted over a series of segments, and the buffer left at the end. */
  function ReadAll(buffer: seq<byte>, segments: seq<seq<byte>>): (seq<Stats>, seq<byte>)
    decreases |segments|
  {
    if segments == [] then ([], buffer)
    else
      var (messages, rest) := Drain(buffer + segments[0]);
      var (more, left) := ReadAll(rest, segments[1..]);
      (messages + more, left)
  }

  /**
   For any bytes, garbage included, and any split into reads (at least one), the reader emits the same
   messages and keeps the same buffer as if it had read the whole stream at once.
   */
  lemma {:induction false} SegmentationIsInvisible(buffer: seq<byte>, segments: seq<seq<byte>>)
    requires segments != []
    ensures ReadAll(buffer, segments) == Drain(buffer + Joined(segments))
    decreases |segments|
  {
    hide Drain;
    var (messages, rest) := Drain(buffer + segments[0]);
    if |segments| == 1 {
      assert segments[1..] == [];
      assert messages + [] == messages;
      assert buffer + Joined(segments) == buffer + segments[0];
    } else {
      SegmentationIsInvisible(rest, segments[1..]);
      DrainResumes(buffer + segments[0], Joined(segments[1..]));
      assert (buffer + segments[0]) + Joined(segments[1..]) == buffer + Joined(segments);
    }
  }

  // ---------------------------------------------------------------- round trip

  lemma PlayerRoundTrip(p: PlayerStats, rest: seq<byte>)
    ensures var b := EncodePlayer(p) + rest;
            ReadPlayer(b) == p && b[STATS_ENTRY..] == rest
  {
    hide LE64, Read64;
    var b := EncodePlayer(p) + rest;
    assert b[0..8] == LE64(p.id) && b[8..16] == LE64(p.balance) && b[16..24] == LE64(p.liveCells);
    RoundTrip64(p.id);
    RoundTrip64(p.balance);
    RoundTrip64(p.liveCells);
  }

  lemma {:induction false} PlayersRoundTrip(ps: seq<PlayerStats>, rest: seq<byte>)
    ensures ReadPlayers(EncodePlayers(ps) + rest, |ps|) == ps
  {
    hide EncodePlayer, ReadPlayer;
    if ps != [] {
      var tail := EncodePlayers(ps[1..]) + rest;
      assert EncodePlayers(ps) + rest == EncodePlayer(ps[0]) + tail;
      PlayerRoundTrip(ps[0], tail);
      PlayersRoundTrip(ps[1..], rest);
    }
  }

  lemma StatsRoundTrip(s: Stats, rest: seq<byte>)
    requires |s.players| <= MAX_PLAYERS
    ensures TryParse(EncodeStats(s) + rest) == (Some(s), rest)
  {
    hide LE32, LE16, Read32, Read16, EncodePlayers, ReadPlayers;
    var b := EncodeStats(s) + rest;
    assert b[1..5] == LE32(s.generation) && b[5..7] == LE16(|s.players|);
    RoundTrip32(s.generation);
    RoundTrip16(|s.players|);
    assert b[STATS_HEADER..] == EncodePlayers(s.players) + rest;
    PlayersRoundTrip(s.players, rest);
    assert b[|EncodeStats(s)|..] == rest;
  }

  function EncodeMessages(ms: seq<Stats>): seq<byte> {
    if ms == [] then [] else EncodeStats(ms[0]) + EncodeMessages(ms[1..])
  }

  /** Whatever the server sends arrives, however the stream is cut up. */
  lemma {:induction false} MessagesArrive(ms: seq<Stats>)
    requires forall m | m in ms :: |m.players| <= MAX_PLAYERS
    ensures Drain(EncodeMessages(ms)) == (ms, [])
  {
    hide EncodeStats, TryParse;
    if ms != [] {
      assert ms[0] in ms;
      StatsRoundTrip(ms[0], EncodeMessages(ms[1..]));
      MessagesArrive(ms[1..]);
      assert [ms[0]] + ms[1..] == ms;
    } else {
      NothingToParse();
    }
  }

  lemma NothingToParse()
    ensures TryParse([]) == (None, [])
  {
  }

  // ---------------------------------------------------------------- the server's message

  ghost predicate AscendingIds(ps: seq<PlayerStats>) {
    forall i, j | 0 <= i < j < |ps| :: ps[i].id < ps[j].id
  }

  ghost predicate Lists(players: seq<PlayerStats>, id: PlayerId) {
    exists i :: 0 <= i < |players| && players[i].id == id
  }

  /**
   The accounts in ascending id order with balance and live cells: all of them, or the MAX_PLAYERS
   smallest ids when there are more.
   */
  ghost predicate StatsOf(players: seq<PlayerStats>, balances: Balances, liveCounts: map<PlayerId, nat>) {
    && AscendingIds(players) && |players| <= MAX_PLAYERS
    && (forall i | 0 <= i < |players| :: EntryOf(players[i], balances, liveCounts))
    && (forall id | id in balances && !Lists(players, id) ::
          |players| == MAX_PLAYERS && forall i | 0 <= i < |players| :: players[i].id < id)
  }

  predicate EntryOf(p: PlayerStats, balances: Balances, liveCounts: map<PlayerId, nat>) {
    p.id in balances && p.balance == balances[p.id] && p.liveCells == Balance(liveCounts, p.id)
  }

  lemma ListsAppend(players: seq<PlayerStats>, p: PlayerStats, id: PlayerId)
    ensures Lists(players + [p], id) <==> Lists(players, id) || p.id == id
  {
    var longer := players + [p];
    if Lists(players, id) {
      var i :| 0 <= i < |players| && players[i].id == id;
      assert longer[i].id == id;
    }
    assert longer[|players|] == p;
  }

  /** The players listed so far are the accounts outside todo, all smaller than those inside. */
  ghost predicate Collected(players: seq<PlayerStats>, balances: Balances, liveCounts: map<PlayerId, nat>,
                            todo: set<PlayerId>) {
    && todo <= balances.Keys && AscendingIds(players)
    && (forall i | 0 <= i < |players| :: EntryOf(players[i], balances, liveCounts))
    && (forall i, id | 0 <= i < |players| && id in todo :: players[i].id < id)
    && (forall id | id in balances && id !in todo :: Lists(players, id))
  }

  lemma CollectOne(players: seq<PlayerStats>, balances: Balances, liveCounts: map<PlayerId, nat>,
                   todo: set<PlayerId>, p: PlayerStats)
    requires Collected(players, balances, liveCounts, todo)
    requires IsSmallest(todo, p.id) && EntryOf(p, balances, liveCounts)
    ensures Collected(players + [p], balances, liveCounts, todo - {p.id})
  {
    hide EntryOf, Lists;
    forall id | id in balances && id !in todo - {p.id} ensures Lists(players + [p], id) {
      ListsAppend(players, p, id);
    }
  }

  lemma CollectedEnough(players: seq<PlayerStats>, balances: Balances, liveCounts: map<PlayerId, nat>,
                        todo: set<PlayerId>)
    requires Collected(players, balances, liveCounts, todo)
    requires |players| <= MAX_PLAYERS && (todo == {} || |players| == MAX_PLAYERS)
    ensures StatsOf(players, balances, liveCounts)
  {
    hide EntryOf, Lists;
  }

  method CollectStats(balances: Balances, liveCounts: map<PlayerId, nat>) returns (players: seq<PlayerStats>)
    requires forall id | id in balances :: balances[id] < U64_LIMIT
    requires forall id | id in liveCounts :: liveCounts[id] < U64_LIMIT
    ensures StatsOf(players, balances, liveCounts)
  {
    hide StatsOf;
    players := [];
    var todo := balances.Keys;
    while todo != {} && |players| < MAX_PLAYERS
      invariant |players| <= MAX_PLAYERS && Collected(players, balances, liveCounts, todo)
    {
      SmallestExists(todo);
      var id :| IsSmallest(todo, id);
      var p := PlayerStats(id, balances[id], if id in liveCounts then liveCounts[id] else 0);
      CollectOne(players, balances, liveCounts, todo, p);
      players := players + [p];
      todo := todo - {id};
    }
    CollectedEnough(players, balances, liveCounts, todo);
  }

  /** What a client reads from the payload: one message, complete, about exactly these accounts. */
  ghost predicate Reports(payload: seq<byte>, generation: Packets.u32, balances: Balances,
                          liveCounts: map<PlayerId, nat>)
  {
    var (message, rest) := TryParse(payload);
    && message.Some? && rest == [] && message.value.generation == generation
    && StatsOf(message.value.players, balances, liveCounts)
  }

  method SerializeServerStats(generation: Packets.u32, balances: Balances, liveCounts: map<PlayerId, nat>)
    returns (payload: seq<byte>)
    requires forall id | id in balances :: balances[id] < U64_LIMIT
    requires forall id | id in liveCounts :: liveCounts[id] < U64_LIMIT
    ensures Reports(payload, generation, balances, liveCounts)
  {
    hide EncodePlayer, EncodeStatsHeader, AscendingIds, EntryOf, Lists, TryParse;
    var players := CollectStats(balances, liveCounts);
    ghost var message := Stats(generation, players);
    payload := EncodeStatsHeader(Stats(generation, players));
    for i := 0 to |players|
      invariant payload == EncodeStatsHeader(message) + EncodePlayers(players[..i])
    {
      assert players[..i + 1] == players[..i] + [players[i]];
      EncodePlayersAppend(players[..i], players[i]);
      payload := payload + EncodePlayer(players[i]);
    }
    assert players[..|players|] == players;
    StatsRoundTrip(message, []);
    assert EncodeStats(message) + [] == payload;
  }

  lemma {:induction false} EncodePlayersAppend(ps: seq<PlayerStats>, p: PlayerStats)
    ensures EncodePlayers(ps + [p]) == EncodePlayers(ps) + EncodePlayer(p)
  {
    hide EncodePlayer;
    if ps == [] {
      assert ps + [p] == [p];
      assert EncodePlayers([p][1..]) == [];
    } else {
      assert (ps + [p])[1..] == ps[1..] + [p];
      EncodePlayersAppend(ps[1..], p);
    }
  }

  // ---------------------------------------------------------------- resynchronisation

  /** Bytes that do not look like the start of a message. */
  predicate Junk(b: seq<byte>) {
    forall i | 0 <= i < |b| :: b[i] != 0x20
  }

  /** Junk in front is skipped byte by byte, so nothing behind it is touched. */
  lemma {:induction false} JunkIsSkipped(junk: seq<byte>, b: seq<byte>)
    requires Junk(junk) && |b| >= 7
    ensures TryParse(junk + b) == TryParse(b)
    decreases |junk|
  {
    hide StatsSize, ReadStats;
    if junk == [] {
      assert junk + b == b;
    } else {
      assert (junk + b)[1..] == junk[1..] + b;
      JunkIsSkipped(junk[1..], b);
    }
  }

  /** Of junk alone, what might still turn into a header is kept. */
  lemma {:induction false} JunkAlone(junk: seq<byte>)
    requires Junk(junk)
    ensures TryParse(junk) == (None, if |junk| < 7 then junk else junk[|junk| - 6..])
    decreases |junk|
  {
    hide StatsSize, ReadStats;
    if |junk| >= 7 { JunkAlone(junk[1..]); }
  }

  /** A message is found behind any junk, and nothing after it is touched. */
  lemma MessageBehindJunk(junk: seq<byte>, s: Stats, rest: seq<byte>)
    requires Junk(junk) && |s.players| <= 65535
    ensures TryParse(junk + EncodeStats(s) + rest) == (Some(s), rest)
  {
    hide TryParse, EncodeStats;
    StatsRoundTrip(s, rest);
    JunkIsSkipped(junk, EncodeStats(s) + rest);
    assert junk + EncodeStats(s) + rest == junk + (EncodeStats(s) + rest);
  }

  /** An incomplete message waits in the buffer, whatever junk preceded it. */
  lemma IncompleteMessageWaits(junk: seq<byte>, s: Stats, n: nat)
    requires Junk(junk) && |s.players| <= 65535 && 7 <= n < 7 + 24 * |s.players|
    ensures TryParse(junk + EncodeStats(s)[..n]) == (None, EncodeStats(s)[..n])
  {
    hide LE32, LE16, Read16, EncodeStats, ReadStats;
    var whole, b := EncodeStats(s), EncodeStats(s)[..n];
    JunkIsSkipped(junk, b);
    StatsLayout(s);
    assert b[0] == whole[0] && b[5..7] == whole[5..7];
    RoundTrip16(|s.players|);
  }

  /** A message with the junk in front of it. */
  datatype Noisy = Noisy(junk: seq<byte>, message: Stats)

  function EncodeNoisy(xs: seq<Noisy>): seq<byte> {
    if xs == [] then [] else xs[0].junk + EncodeStats(xs[0].message) + EncodeNoisy(xs[1..])
  }

  function MessagesOf(xs: seq<Noisy>): seq<Stats> {
    if xs == [] then [] else [xs[0].message] + MessagesOf(xs[1..])
  }

  /** All messages are found, in order, whatever junk stands between them and behind them. */
  lemma {:induction false} NoisyMessagesArrive(xs: seq<Noisy>, tail: seq<byte>)
    requires forall x | x in xs :: Junk(x.junk) && |x.message.players| <= 65535
    requires Junk(tail)
    ensures Drain(EncodeNoisy(xs) + tail) == (MessagesOf(xs), if |tail| < 7 then tail else tail[|tail| - 6..])
    decreases |xs|
  {
    hide EncodeStats, TryParse, Junk;
    if xs == [] {
      assert EncodeNoisy(xs) + tail == tail;
      JunkAlone(tail);
    } else {
      assert xs[0] in xs && forall x | x in xs[1..] :: x in xs;
      var rest := EncodeNoisy(xs[1..]) + tail;
      MessageBehindJunk(xs[0].junk, xs[0].message, rest);
      NoisyMessagesArrive(xs[1..], tail);
      assert EncodeNoisy(xs) + tail == xs[0].junk + EncodeStats(xs[0].message) + rest;
    }
  }

  // ---------------------------------------------------------------- layout

  lemma {:induction false} PlayersLayout(ps: seq<PlayerStats>, i: nat)
    requires i < |ps|
    ensures EncodePlayers(ps)[24 * i..24 * i + 24]
            == LE64(ps[i].id) + LE64(ps[i].balance) + LE64(ps[i].liveCells)
    decreases i
  {
    hide LE64;
    if i > 0 {
      PlayersLayout(ps[1..], i - 1);
      assert EncodePlayers(ps)[24 * i..24 * i + 24] == EncodePlayers(ps[1..])[24 * (i - 1)..24 * (i - 1) + 24];
    }
  }

  /** Where the fields of a statistics message lie. */
  lemma StatsLayout(s: Stats)
    ensures var b := EncodeStats(s);
            && |b| == 7 + 24 * |s.players| && b[0] == 0x20
            && b[1..5] == LE32(s.generation) && b[5..7] == LE16(|s.players|)
            && forall i | 0 <= i < |s.players| ::
                 b[7 + 24 * i..31 + 24 * i]
                 == LE64(s.players[i].id) + LE64(s.players[i].balance) + LE64(s.players[i].liveCells)
  {
    hide LE16, LE32, LE64, EncodePlayers;
    var b := EncodeStats(s);
    forall i | 0 <= i < |s.players|
      ensures b[7 + 24 * i..31 + 24 * i]
              == LE64(s.players[i].id) + LE64(s.players[i].balance) + LE64(s.players[i].liveCells)
    {
      PlayersLayout(s.players, i);
      assert b[7 + 24 * i..31 + 24 * i] == EncodePlayers(s.players)[24 * i..24 * i + 24];
    }
  }

  // ---------------------------------------------------------------- who is listed

  function IdsOf(players: seq<PlayerStats>): set<PlayerId> {
    set i | 0 <= i < |players| :: players[i].id
  }

  lemma {:induction false} IdsAreDistinct(players: seq<PlayerStats>)
    requires AscendingIds(players)
    ensures |IdsOf(players)| == |players|
    decreases |players|
  {
    if players == [] {
      assert IdsOf(players) == {};
    } else {
      var last := |players| - 1;
      IdsAreDistinct(players[..last]);
      assert forall i | 0 <= i < last :: players[..last][i] == players[i];
      assert IdsOf(players) == IdsOf(players[..last]) + {players[last].id};
    }
  }

  function SmallerThan(balances: Balances, id: PlayerId): set<PlayerId> {
    set j | j in balances && j < id
  }

  /** An account is listed exactly if fewer than 65535 accounts have a smaller id. */
  lemma ReportListsSmallest(players: seq<PlayerStats>, balances: Balances, liveCounts: map<PlayerId, nat>, id: PlayerId)
    requires StatsOf(players, balances, liveCounts) && id in balances
    ensures (exists i :: 0 <= i < |players| && players[i].id == id) <==> |SmallerThan(balances, id)| < 65535
  {
    hide EntryOf;
    if i :| 0 <= i < |players| && players[i].id == id {
      ListedBefore(players, balances, liveCounts, i);
    } else {
      assert !Lists(players, id);
      IdsAreDistinct(players);
      assert IdsOf(players) <= SmallerThan(balances, id) by { IdsHaveAccounts(players, balances, liveCounts); }
      SubsetSize(IdsOf(players), SmallerThan(balances, id));
    }
  }

  lemma IdsHaveAccounts(players: seq<PlayerStats>, balances: Balances, liveCounts: map<PlayerId, nat>)
    requires StatsOf(players, balances, liveCounts)
    ensures IdsOf(players) <= balances.Keys
  {
    forall i | 0 <= i < |players| ensures players[i].id in balances {
      assert EntryOf(players[i], balances, liveCounts);
    }
  }

  /** The accounts smaller than a listed one are those listed before it. */
  lemma ListedBefore(players: seq<PlayerStats>, balances: Balances, liveCounts: map<PlayerId, nat>, i: nat)
    requires StatsOf(players, balances, liveCounts) && i < |players|
    ensures |SmallerThan(balances, players[i].id)| == i
  {
    hide EntryOf;
    var before := players[..i];
    IdsHaveAccounts(players, balances, liveCounts);
    IdsAreDistinct(before);
    forall j | j in SmallerThan(balances, players[i].id) ensures j in IdsOf(before) {
      assert Lists(players, j);
      var k :| 0 <= k < |players| && players[k].id == j;
      assert before[k] == players[k];
    }
    forall j | j in IdsOf(before) ensures j in SmallerThan(balances, players[i].id) {
      var k :| 0 <= k < |before| && before[k].id == j;
      assert players[k] == before[k] && players[k].id in IdsOf(players);
    }
    assert IdsOf(before) == SmallerThan(balances, players[i].id);
  }

  /** So with at most 65535 accounts everybody is listed. */
  lemma ReportListsEveryone(players: seq<PlayerStats>, balances: Balances, liveCounts: map<PlayerId, nat>, id: PlayerId)
    requires StatsOf(players, balances, liveCounts) && |balances| <= 65535 && id in balances
    ensures exists i :: 0 <= i < |players| && players[i].id == id
  {
    ReportListsSmallest(players, balances, liveCounts, id);
    SubsetSize(SmallerThan(balances, id), balances.Keys - {id});
  }
}
