/**
 The command stream over TCP: the client's encoder (client/src/GameNetworkClient.cpp) and the
 session's decoder (server/src/BoostNetworkManager.cpp).
 */
module CommandStream {
  import opened Types
  import opened Codec

  const RESYNC: byte := 0x10
  const BODY: nat := 24

  datatype Message = Command(kind: CommandType, x: int, y: int) | Resync

  function KindByte(k: CommandType): byte {
    match k
    case PlaceCell => 0
    case RemoveCell => 1
    case ToggleCell => 2
  }

  function EncodeMessage(player: PlayerId, m: Message): seq<byte> {
    match m
    case Command(k, x, y) => [KindByte(k)] + (LE64(player) + Signed64(x) + Signed64(y))
    case Resync => [RESYNC]
  }

  function EncodeStream(player: PlayerId, ms: seq<Message>): seq<byte> {
    if ms == [] then [] else EncodeMessage(player, ms[0]) + EncodeStream(player, ms[1..])
  }

  /** sendCommand appends field after field. */
  method SendCommand(player: PlayerId, kind: CommandType, x: int, y: int) returns (packet: seq<byte>)
    ensures packet == EncodeMessage(player, Command(kind, x, y)) && |packet| == 25
  {
    hide LE64;
    SignedRoundTrip64(x);
    SignedRoundTrip64(y);
    packet := [KindByte(kind)];
    packet := packet + LE64(player);
    packet := packet + Signed64(x);
    packet := packet + Signed64(y);
  }

  // ---------------------------------------------------------------- the session

  function KindOf(b: byte): CommandType {
    if b == 0 then PlaceCell else if b == 1 then RemoveCell else ToggleCell
  }

  function ReadPlayerId(body: seq<byte>): PlayerId requires |body| >= BODY { Read64(body[0..8]) }
  function ReadX(body: seq<byte>): int requires |body| >= BODY { ReadSigned64(body[8..16]) }
  function ReadY(body: seq<byte>): int requires |body| >= BODY { ReadSigned64(body[16..24]) }

  /** What one message does: the commands it yields and whether it asks for a full snapshot. */
  datatype Decoded = Decoded(commands: seq<PlayerCommand>, resync: bool, rest: seq<byte>)

  /**
   Everything a session makes of its input until the stream ends: resync requests set the flag, unknown
   type bytes are skipped, commands in another player's name are dropped, and a command whose body
   never arrives ends the session.
   */
  function Decode(player: PlayerId, b: seq<byte>): Decoded
    decreases |b|
  {
    if b == [] then Decoded([], false, [])
    else if b[0] == RESYNC then Decode(player, b[1..]).(resync := true)
    else if b[0] > 2 then Decode(player, b[1..])
    else if |b| < 1 + BODY then Decoded([], false, b)
    else
      var body := b[1..];
      var d := Decode(player, body[BODY..]);
      if ReadPlayerId(body) != player then d
      else d.(commands := [PlayerCommand(player, KindOf(b[0]), ReadX(body), ReadY(body))] + d.commands)
  }

  class Session {
    const playerId: PlayerId
    var needsFullSnapshot: bool
    var received: seq<PlayerCommand>

    /** A session starts out in need of a full snapshot. */
    constructor (player: PlayerId)
      ensures playerId == player && needsFullSnapshot && received == []
    {
      playerId, needsFullSnapshot, received := player, true, [];
    }

    /** The chain of readNextMessage calls over one stretch of input. */
    method ReadMessages(input: seq<byte>) returns (unread: seq<byte>)
      modifies this
      ensures var d := Decode(playerId, input);
              && received == old(received) + d.commands && unread == d.rest
              && needsFullSnapshot == (old(needsFullSnapshot) || d.resync)
    {
      hide ReadPlayerId, ReadX, ReadY;
      unread := input;
      while unread != []
        invariant received + Decode(playerId, unread).commands
                  == old(received) + Decode(playerId, input).commands
        invariant Decode(playerId, unread).rest == Decode(playerId, input).rest
        invariant (needsFullSnapshot || Decode(playerId, unread).resync)
                  == (old(needsFullSnapshot) || Decode(playerId, input).resync)
        decreases |unread|
      {
        var msgType := unread[0];
        if msgType == RESYNC {
          needsFullSnapshot := true;
          unread := unread[1..];
        } else if msgType == 0 || msgType == 1 || msgType == 2 {
          if |unread| < 1 + BODY {
            return;
          }
          var body := unread[1..];
          var cmdPlayer, x, y := ReadPlayerId(body), ReadX(body), ReadY(body);
          if cmdPlayer == playerId {
            ghost var more := Decode(playerId, body[BODY..]).commands;
            ghost var cmd := PlayerCommand(playerId, KindOf(msgType), x, y);
            assert received + ([cmd] + more) == (received + [cmd]) + more;
            received := received + [PlayerCommand(playerId, KindOf(msgType), x, y)];
          }
          unread := body[BODY..];
        } else {
          unread := unread[1..];
        }
      }
    }
  }

  // ---------------------------------------------------------------- round trip

  /** The commands the messages stand for, with coordinates as 64-bit integers hold them. */
  function CommandsOf(player: PlayerId, ms: seq<Message>): seq<PlayerCommand> {
    if ms == [] then [] else
      (match ms[0]
       case Command(k, x, y) => [PlayerCommand(player, k, ToInt64(x), ToInt64(y))]
       case Resync => [])
      + CommandsOf(player, ms[1..])
  }

  lemma BodyRoundTrip(player: PlayerId, x: int, y: int, rest: seq<byte>)
    ensures var body := LE64(player) + Signed64(x) + Signed64(y) + rest;
            && |body| >= BODY && ReadPlayerId(body) == player
            && ReadX(body) == ToInt64(x) && ReadY(body) == ToInt64(y)
            && body[BODY..] == rest
  {
    hide LE64, Signed64, Read64, ReadSigned64;
    RoundTrip64(player);
    SignedRoundTrip64(x);
    SignedRoundTrip64(y);
    var body := LE64(player) + Signed64(x) + Signed64(y) + rest;
    assert body[0..8] == LE64(player) && body[8..16] == Signed64(x) && body[16..24] == Signed64(y);
  }

  lemma DecodeCommand(player: PlayerId, kind: byte, body: seq<byte>)
    requires kind <= 2 && |body| >= BODY
    ensures var d := Decode(player, body[BODY..]);
            Decode(player, [kind] + body)
            == if ReadPlayerId(body) != player then d
               else d.(commands := [PlayerCommand(player, KindOf(kind), ReadX(body), ReadY(body))] + d.commands)
  {
    hide ReadPlayerId, ReadX, ReadY, KindOf;
    assert ([kind] + body)[1..] == body;
  }

  lemma CommandRoundTrip(sender: PlayerId, player: PlayerId, k: CommandType, x: int, y: int, rest: seq<byte>)
    ensures var d := Decode(player, rest);
            Decode(player, EncodeMessage(sender, Command(k, x, y)) + rest)
            == if sender == player
               then d.(commands := [PlayerCommand(player, k, ToInt64(x), ToInt64(y))] + d.commands)
               else d
  {
    hide LE64, Signed64, ReadPlayerId, ReadX, ReadY, ToInt64, Decode;
    var body := LE64(sender) + Signed64(x) + Signed64(y) + rest;
    BodyRoundTrip(sender, x, y, rest);
    DecodeCommand(player, KindByte(k), body);
    assert EncodeMessage(sender, Command(k, x, y)) + rest == [KindByte(k)] + body;
  }

  /**
   A session for the sender decodes exactly the commands sent, in order and with their coordinates,
   and notices a resync request if there was one; a session for anybody else decodes no command.
   */
  lemma {:induction false} StreamRoundTrip(sender: PlayerId, player: PlayerId, ms: seq<Message>)
    ensures Decode(player, EncodeStream(sender, ms))
            == Decoded(if sender == player then CommandsOf(player, ms) else [], Resync in ms, [])
  {
    hide EncodeMessage;
    if ms != [] {
      var rest := EncodeStream(sender, ms[1..]);
      StreamRoundTrip(sender, player, ms[1..]);
      assert Resync in ms <==> ms[0] == Resync || Resync in ms[1..];
      match ms[0]
      case Command(k, x, y) => CommandRoundTrip(sender, player, k, x, y, rest);
      case Resync => ResyncRoundTrip(sender, player, rest);
    }
  }

  lemma ResyncRoundTrip(sender: PlayerId, player: PlayerId, rest: seq<byte>)
    ensures Decode(player, EncodeMessage(sender, Resync) + rest) == Decode(player, rest).(resync := true)
  {
    assert ([RESYNC] + rest)[1..] == rest;
  }

  // ---------------------------------------------------------------- where the fields lie

  /** The bytes of the client's messages. */
  lemma MessageLayout(player: PlayerId, k: CommandType, x: int, y: int)
    ensures var b := EncodeMessage(player, Command(k, x, y));
            && |b| == 25
            && b[0] == (match k case PlaceCell => 0x00 case RemoveCell => 0x01 case ToggleCell => 0x02)
            && b[1..9] == LE64(player) && b[9..17] == Signed64(x) && b[17..25] == Signed64(y)
    ensures EncodeMessage(player, Resync) == [0x10]
  {
    hide LE64, Signed64;
    SignedRoundTrip64(x);
    SignedRoundTrip64(y);
  }

  // ---------------------------------------------------------------- noise and segmentation

  /** Bytes that start no message are skipped one at a time. */
  predicate Unknown(b: seq<byte>) {
    forall i | 0 <= i < |b| :: b[i] > 0x02 && b[i] != 0x10
  }

  lemma {:induction false} UnknownIsSkipped(player: PlayerId, junk: seq<byte>, b: seq<byte>)
    requires Unknown(junk)
    ensures Decode(player, junk + b) == Decode(player, b)
    decreases |junk|
  {
    hide ReadPlayerId, ReadX, ReadY;
    if junk == [] {
      assert junk + b == b;
    } else {
      assert (junk + b)[1..] == junk[1..] + b;
      UnknownIsSkipped(player, junk[1..], b);
    }
  }

  /** A command of which a part is missing stays unread. */
  lemma PartOfCommandWaits(sender: PlayerId, player: PlayerId, k: CommandType, x: int, y: int, n: nat)
    requires 1 <= n < 25
    ensures var b := EncodeMessage(sender, Command(k, x, y))[..n];
            Decode(player, b) == Decoded([], false, b)
  {
    hide LE64, Signed64;
    SignedRoundTrip64(x);
    SignedRoundTrip64(y);
  }

  /** Decoding a first stretch of the stream and then what it left with the rest gives the same as all at once. */
  lemma {:induction false} DecodeResumes(player: PlayerId, a: seq<byte>, b: seq<byte>)
    ensures var early := Decode(player, a);
            var late := Decode(player, early.rest + b);
            Decode(player, a + b)
            == Decoded(early.commands + late.commands, early.resync || late.resync, late.rest)
    decreases |a|
  {
    hide ReadPlayerId, ReadX, ReadY;
    if a == [] {
      assert a + b == b;
    } else if a[0] == RESYNC || a[0] > 2 {
      assert (a + b)[1..] == a[1..] + b;
      DecodeResumes(player, a[1..], b);
    } else if |a| >= 1 + BODY {
      var body := a[1..];
      assert (a + b)[1..] == body + b && (body + b)[BODY..] == body[BODY..] + b;
      SameFields(body, b);
      DecodeResumes(player, body[BODY..], b);
      var early := Decode(player, body[BODY..]);
      var late := Decode(player, early.rest + b);
      var cmd := PlayerCommand(player, KindOf(a[0]), ReadX(body), ReadY(body));
      assert [cmd] + (early.commands + late.commands) == ([cmd] + early.commands) + late.commands;
    }
  }

  lemma SameFields(body: seq<byte>, b: seq<byte>)
    requires |body| >= BODY
    ensures ReadPlayerId(body + b) == ReadPlayerId(body)
    ensures ReadX(body + b) == ReadX(body) && ReadY(body + b) == ReadY(body)
  {
    hide Read64, ReadSigned64;
    assert (body + b)[0..8] == body[0..8] && (body + b)[8..16] == body[8..16] && (body + b)[16..24] == body[16..24];
  }
}
