/**
 World updates on the wire: fragmentation and encoding (server/include/WorldSerializer.hpp), the
 sequence-number rewrite (server/src/GameServer.cpp), the cut into datagrams
 (server/src/BoostNetworkManager.cpp) and the client's parser (client/src/ClientParsers.cpp).
 */
module Packets {
  import opened Types
  import opened Coordinates
  import opened Codec

  type u32 = v: int | 0 <= v < 0x1_0000_0000

  const HEADER: nat := 15
  const ENTRY: nat := 11
  const MAX_PAYLOAD: nat := 1400
  const MAX_CELLS: nat := (MAX_PAYLOAD - HEADER) / ENTRY

  const FLAG_DELTA: byte := 0
  const FLAG_FULL: byte := 1

  datatype Entry = Entry(x: byte, y: byte, alive: byte, owner: PlayerId)

  datatype Packet = Packet(seqNum: u32, flags: byte, chunk: Coord, cells: seq<Entry>)

  /** What the client makes of a datagram. */
  datatype Update = Update(x: byte, y: byte, alive: bool, owner: PlayerId)

  datatype Parsed = Parsed(seqNum: u32, full: bool, chunk: Coord, cells: seq<Update>)

  // ---------------------------------------------------------------- layout

  function EncodeEntry(e: Entry): (r: seq<byte>)
    ensures |r| == ENTRY
  {
    [e.x, e.y, e.alive] + LE64(e.owner)
  }

  function EncodeCells(es: seq<Entry>): (r: seq<byte>)
    ensures |r| == ENTRY * |es|
  {
    if es == [] then [] else EncodeEntry(es[0]) + EncodeCells(es[1..])
  }

  function EncodeHeader(p: Packet): (r: seq<byte>)
    ensures |r| == HEADER
  {
    LE32(p.seqNum) + [p.flags] + Signed32(p.chunk.x) + Signed32(p.chunk.y) + LE16(|p.cells|)
  }

  function Encode(p: Packet): (r: seq<byte>)
    ensures |r| == HEADER + ENTRY * |p.cells|
  {
    EncodeHeader(p) + EncodeCells(p.cells)
  }

  function EncodeAll(ps: seq<Packet>): seq<byte> {
    if ps == [] then [] else Encode(ps[0]) + EncodeAll(ps[1..])
  }

  function SeqField(b: seq<byte>): (r: seq<byte>) requires |b| >= HEADER ensures |r| == 4 { b[0..4] }
  function FlagsField(b: seq<byte>): byte requires |b| >= HEADER { b[4] }
  function XField(b: seq<byte>): (r: seq<byte>) requires |b| >= HEADER ensures |r| == 4 { b[5..9] }
  function YField(b: seq<byte>): (r: seq<byte>) requires |b| >= HEADER ensures |r| == 4 { b[9..13] }
  function CountField(b: seq<byte>): (r: seq<byte>) requires |b| >= HEADER ensures |r| == 2 { b[13..15] }

  /** The length the count field announces. */
  function FrameSize(b: seq<byte>): (n: nat)
    requires |b| >= HEADER
    ensures n >= HEADER
  {
    HEADER + ENTRY * Read16(CountField(b))
  }

  lemma HeaderFields(p: Packet, rest: seq<byte>)
    ensures var b := EncodeHeader(p) + rest;
            && SeqField(b) == LE32(p.seqNum) && FlagsField(b) == p.flags
            && XField(b) == Signed32(p.chunk.x) && YField(b) == Signed32(p.chunk.y)
            && CountField(b) == LE16(|p.cells|)
  {
    hide LE32, LE16, Signed32;
    SignedRoundTrip32(p.chunk.x);
    SignedRoundTrip32(p.chunk.y);
    var b := EncodeHeader(p) + rest;
    assert b[0..4] == LE32(p.seqNum);
    assert b[5..9] == Signed32(p.chunk.x);
    assert b[9..13] == Signed32(p.chunk.y);
    assert b[13..15] == LE16(|p.cells|);
  }

  // ---------------------------------------------------------------- the client's parser

  function ReadCell(b: seq<byte>): Update
    requires |b| >= ENTRY
  {
    Update(b[0], b[1], b[2] != 0, Read64(b[3..11]))
  }

  function ParseCells(b: seq<byte>, n: nat): (r: seq<Update>)
    requires |b| >= ENTRY * n
    ensures |r| == n
  {
    if n == 0 then [] else [ReadCell(b)] + ParseCells(b[ENTRY..], n - 1)
  }

  function Parse(d: seq<byte>): Option<Parsed> {
    if |d| < HEADER || FrameSize(d) > |d| then None
    else Some(Parsed(Read32(SeqField(d)), FlagsField(d) == FLAG_FULL,
                     Coord(ReadSigned32(XField(d)), ReadSigned32(YField(d))),
                     ParseCells(d[HEADER..], Read16(CountField(d)))))
  }

  method ParseUdpWorldPacket(d: seq<byte>) returns (r: Option<Parsed>)
    ensures r == Parse(d)
  {
    hide ReadCell, SeqField, FlagsField, XField, YField, CountField, Read16, Read32, ReadSigned32;
    if |d| < HEADER {
      return None;
    }
    var cellCount := Read16(CountField(d));
    if HEADER + cellCount * ENTRY > |d| {
      return None;
    }
    var cells: seq<Update> := [];
    var cursor := HEADER;
    for i := 0 to cellCount
      invariant cursor == HEADER + ENTRY * i
      invariant cells + ParseCells(d[cursor..], cellCount - i) == ParseCells(d[HEADER..], cellCount)
    {
      assert d[cursor..][ENTRY..] == d[cursor + ENTRY..];
      cells := cells + [ReadCell(d[cursor..])];
      cursor := cursor + ENTRY;
    }
    assert cells + [] == cells;
    return Some(Parsed(Read32(SeqField(d)), FlagsField(d) == FLAG_FULL,
                       Coord(ReadSigned32(XField(d)), ReadSigned32(YField(d))), cells));
  }

  function UpdateOf(e: Entry): Update {
    Update(e.x, e.y, e.alive != 0, e.owner)
  }

  function UpdatesOf(es: seq<Entry>): (r: seq<Update>)
    ensures |r| == |es|
    ensures forall i | 0 <= i < |es| :: r[i] == UpdateOf(es[i])
  {
    seq(|es|, i requires 0 <= i < |es| => UpdateOf(es[i]))
  }

  function ParsedOf(p: Packet): Parsed {
    Parsed(p.seqNum, p.flags == FLAG_FULL, Coord(ToInt32(p.chunk.x), ToInt32(p.chunk.y)), UpdatesOf(p.cells))
  }

  lemma CellRoundTrip(e: Entry, rest: seq<byte>)
    ensures var b := EncodeEntry(e) + rest;
            ReadCell(b) == UpdateOf(e) && b[ENTRY..] == rest
  {
    hide LE64, Read64;
    var b := EncodeEntry(e) + rest;
    assert b[3..11] == LE64(e.owner);
    RoundTrip64(e.owner);
  }

  lemma {:induction false} CellsRoundTrip(es: seq<Entry>, rest: seq<byte>)
    ensures ParseCells(EncodeCells(es) + rest, |es|) == UpdatesOf(es)
  {
    hide EncodeEntry, ReadCell, UpdateOf;
    if es != [] {
      var tail := EncodeCells(es[1..]) + rest;
      assert EncodeCells(es) + rest == EncodeEntry(es[0]) + tail;
      CellRoundTrip(es[0], tail);
      CellsRoundTrip(es[1..], rest);
      assert UpdatesOf(es)[1..] == UpdatesOf(es[1..]);
    }
  }

  /** Parsing an encoded packet gives it back, whatever follows it in the datagram. */
  lemma ParseRoundTrip(p: Packet, rest: seq<byte>)
    requires |p.cells| < 0x1_0000
    ensures Parse(Encode(p) + rest) == Some(ParsedOf(p))
  {
    hide LE32, LE16, Signed32, Read32, Read16, ReadSigned32, EncodeHeader, EncodeCells, ParseCells,
      SeqField, FlagsField, XField, YField, CountField;
    var d := Encode(p) + rest;
    assert d == EncodeHeader(p) + (EncodeCells(p.cells) + rest);
    assert d[HEADER..] == EncodeCells(p.cells) + rest;
    HeaderFields(p, EncodeCells(p.cells) + rest);
    RoundTrip16(|p.cells|);
    RoundTrip32(p.seqNum);
    SignedRoundTrip32(p.chunk.x);
    SignedRoundTrip32(p.chunk.y);
    CellsRoundTrip(p.cells, rest);
  }

  lemma FrameOfEncoded(p: Packet, rest: seq<byte>)
    requires |p.cells| < 0x1_0000
    ensures |Encode(p) + rest| >= HEADER && FrameSize(Encode(p) + rest) == |Encode(p)|
  {
    hide LE16, Read16, EncodeHeader, EncodeCells, CountField;
    assert Encode(p) + rest == EncodeHeader(p) + (EncodeCells(p.cells) + rest);
    HeaderFields(p, EncodeCells(p.cells) + rest);
    RoundTrip16(|p.cells|);
  }

  // ---------------------------------------------------------------- where the fields lie

  lemma {:induction false} CellsLayout(es: seq<Entry>, i: nat)
    requires i < |es|
    ensures EncodeCells(es)[11 * i..11 * i + 11] == [es[i].x, es[i].y, es[i].alive] + LE64(es[i].owner)
    decreases i
  {
    hide LE64;
    if i > 0 {
      CellsLayout(es[1..], i - 1);
      assert EncodeCells(es)[11 * i..11 * i + 11] == EncodeCells(es[1..])[11 * (i - 1)..11 * (i - 1) + 11];
    }
  }

  /** The bytes of a packet, field by field. */
  lemma PacketLayout(p: Packet)
    ensures var b := Encode(p);
            && |b| == 15 + 11 * |p.cells|
            && b[0..4] == LE32(p.seqNum) && b[4] == p.flags
            && b[5..9] == Signed32(p.chunk.x) && b[9..13] == Signed32(p.chunk.y) && b[13..15] == LE16(|p.cells|)
            && forall i | 0 <= i < |p.cells| ::
                 var e := p.cells[i];
                 b[15 + 11 * i..26 + 11 * i] == [e.x, e.y, e.alive] + LE64(e.owner)
  {
    hide LE32, LE16, LE64, Signed32, EncodeHeader, EncodeCells;
    HeaderFields(p, EncodeCells(p.cells));
    var b := Encode(p);
    forall i | 0 <= i < |p.cells|
      ensures var e := p.cells[i]; b[15 + 11 * i..26 + 11 * i] == [e.x, e.y, e.alive] + LE64(e.owner)
    {
      CellsLayout(p.cells, i);
      assert b[15 + 11 * i..26 + 11 * i] == EncodeCells(p.cells)[11 * i..11 * i + 11];
    }
  }

  lemma {:induction false} ParsedCellsLayout(b: seq<byte>, n: nat, i: nat)
    requires |b| >= ENTRY * n && i < n
    ensures ParseCells(b, n)[i]
            == Update(b[11 * i], b[11 * i + 1], b[11 * i + 2] != 0, Read64(b[11 * i + 3..11 * i + 11]))
    decreases i
  {
    hide Read64;
    if i > 0 {
      ParsedCellsLayout(b[ENTRY..], n - 1, i - 1);
      assert b[ENTRY..][11 * (i - 1) + 3..11 * (i - 1) + 11] == b[11 * i + 3..11 * i + 11];
    }
  }

  /** What the client reads where: only the flag byte 1 means a full update, and any nonzero byte a live cell. */
  lemma ParseReadsLayout(d: seq<byte>)
    ensures Parse(d) == None <==> |d| < 15 || |d| < 15 + 11 * Read16(d[13..15])
    ensures Parse(d).Some? ==>
              var p := Parse(d).value;
              && p.seqNum == Read32(d[0..4]) && (p.full <==> d[4] == 1)
              && p.chunk == Coord(ReadSigned32(d[5..9]), ReadSigned32(d[9..13]))
              && |p.cells| == Read16(d[13..15])
              && forall i | 0 <= i < |p.cells| ::
                   p.cells[i] == Update(d[15 + 11 * i], d[16 + 11 * i], d[17 + 11 * i] != 0,
                                        Read64(d[18 + 11 * i..26 + 11 * i]))
  {
    hide Read64, Read32, Read16, ReadSigned32, ParseCells;
    if Parse(d).Some? {
      var n := Read16(d[13..15]);
      forall i | 0 <= i < n
        ensures ParseCells(d[15..], n)[i] == Update(d[15 + 11 * i], d[16 + 11 * i], d[17 + 11 * i] != 0,
                                                    Read64(d[18 + 11 * i..26 + 11 * i]))
      {
        ParsedCellsLayout(d[15..], n, i);
        assert d[15..][11 * i + 3..11 * i + 11] == d[18 + 11 * i..26 + 11 * i];
      }
    }
  }

  // ---------------------------------------------------------------- fragmentation

  function Fragments(seqNum: u32, flags: byte, c: Coord, es: seq<Entry>): (r: seq<Packet>)
    ensures forall p | p in r ::
              1 <= |p.cells| <= MAX_CELLS && p.chunk == c && p.flags == flags && p.seqNum == seqNum
  {
    if es == [] then [] else
      var n := if |es| < MAX_CELLS then |es| else MAX_CELLS;
      [Packet(seqNum, flags, c, es[..n])] + Fragments(seqNum, flags, c, es[n..])
  }

  /** The cells of all packets, one after the other. */
  function CellsOf(ps: seq<Packet>): seq<Entry> {
    if ps == [] then [] else ps[0].cells + CellsOf(ps[1..])
  }

  /** Fragmenting a chunk's entries loses, repeats and reorders none of them. */
  lemma {:induction false} FragmentsJoin(seqNum: u32, flags: byte, c: Coord, es: seq<Entry>)
    ensures CellsOf(Fragments(seqNum, flags, c, es)) == es
  {
    if es != [] {
      var n := if |es| < MAX_CELLS then |es| else MAX_CELLS;
      FragmentsJoin(seqNum, flags, c, es[n..]);
      assert es == es[..n] + es[n..];
    }
  }

  /** The entries that packet i of a chunk is to carry: 125 of them, or what remains. */
  function Part(es: seq<Entry>, i: nat): seq<Entry>
    requires 125 * i <= |es|
  {
    if 125 * (i + 1) <= |es| then es[125 * i..125 * (i + 1)] else es[125 * i..]
  }

  lemma PartShift(es: seq<Entry>, i: nat)
    requires 125 * (i + 1) <= |es|
    ensures Part(es[125..], i) == Part(es, i + 1)
  {
  }

  lemma FirstFragment(seqNum: u32, flags: byte, c: Coord, es: seq<Entry>)
    requires es != []
    ensures Fragments(seqNum, flags, c, es)
            == [Packet(seqNum, flags, c, Part(es, 0))]
               + if |es| <= 125 then [] else Fragments(seqNum, flags, c, es[125..])
  {
    if |es| <= 125 { assert es[|es|..] == [] && es[..|es|] == es; }
  }

  lemma {:induction false} FragmentsAreParts(seqNum: u32, flags: byte, c: Coord, es: seq<Entry>)
    ensures var ps := Fragments(seqNum, flags, c, es);
            && |ps| == (|es| + 124) / 125
            && forall i | 0 <= i < |ps| :: 125 * i < |es| && ps[i] == Packet(seqNum, flags, c, Part(es, i))
    decreases |es|
  {
    if es != [] {
      hide Part, Fragments;
      FirstFragment(seqNum, flags, c, es);
      var ps := Fragments(seqNum, flags, c, es);
      if |es| > 125 {
        FragmentsAreParts(seqNum, flags, c, es[125..]);
        forall i | 1 <= i < |ps| ensures 125 * i < |es| && ps[i] == Packet(seqNum, flags, c, Part(es, i)) {
          assert ps[i] == Fragments(seqNum, flags, c, es[125..])[i - 1];
          PartShift(es, i - 1);
        }
      }
    }
  }

  /**
   A chunk's entries take as few packets as they can: all but the last one carry exactly 125 cells,
   the last one the remaining ones, and each those that are its part in order.
   */
  lemma FragmentsAreFull(seqNum: u32, flags: byte, c: Coord, es: seq<Entry>)
    ensures var ps := Fragments(seqNum, flags, c, es);
            && |ps| == (|es| + 124) / 125
            && (forall i | 0 <= i < |ps| :: 125 * i < |es| && ps[i] == Packet(seqNum, flags, c, Part(es, i)))
            && (forall i | 0 <= i < |ps| - 1 :: |ps[i].cells| == 125)
            && (ps != [] ==> |ps[|ps| - 1].cells| == |es| - 125 * (|ps| - 1))
  {
    hide Fragments;
    FragmentsAreParts(seqNum, flags, c, es);
  }

  lemma {:induction false} EncodeAllAppend(ps: seq<Packet>, qs: seq<Packet>)
    ensures EncodeAll(ps + qs) == EncodeAll(ps) + EncodeAll(qs)
  {
    hide Encode;
    if ps == [] {
      assert ps + qs == qs;
    } else {
      assert (ps + qs)[1..] == ps[1..] + qs;
      EncodeAllAppend(ps[1..], qs);
    }
  }

  lemma {:induction false} EncodeCellsAppend(es: seq<Entry>, e: Entry)
    ensures EncodeCells(es + [e]) == EncodeCells(es) + EncodeEntry(e)
  {
    hide EncodeEntry;
    if es == [] {
      assert es + [e] == [e];
      assert EncodeCells([e][1..]) == [];
    } else {
      assert (es + [e])[1..] == es[1..] + [e];
      EncodeCellsAppend(es[1..], e);
    }
  }

  lemma NoCells()
    ensures EncodeCells([]) == []
  {
  }

  /** Grows the payload by one packet: its header, then entry by entry. */
  method AppendPacket(data: seq<byte>, seqNum: u32, flags: byte, c: Coord, entries: seq<Entry>,
                      offset: nat, chunkSize: nat) returns (out: seq<byte>)
    requires offset + chunkSize <= |entries|
    ensures out == data + Encode(Packet(seqNum, flags, c, entries[offset..offset + chunkSize]))
  {
    hide EncodeHeader, EncodeEntry, EncodeCells;
    var p := Packet(seqNum, flags, c, entries[offset..offset + chunkSize]);
    out := data + EncodeHeader(p);
    assert p.cells[..0] == [] && EncodeCells([]) == [] by { NoCells(); }
    for i := 0 to chunkSize
      invariant out == data + EncodeHeader(p) + EncodeCells(p.cells[..i])
    {
      assert p.cells[..i + 1] == p.cells[..i] + [entries[offset + i]];
      EncodeCellsAppend(p.cells[..i], entries[offset + i]);
      out := out + EncodeEntry(entries[offset + i]);
    }
    assert p.cells[..chunkSize] == p.cells;
  }

  /** Appends the packets of one chunk to the payload. */
  method AppendChunk(data: seq<byte>, seqNum: u32, flags: byte, c: Coord, entries: seq<Entry>)
    returns (out: seq<byte>)
    ensures out == data + EncodeAll(Fragments(seqNum, flags, c, entries))
  {
    hide Encode, Fragments;
    out := data;
    var offset := 0;
    while offset < |entries|
      invariant offset <= |entries|
      invariant out + EncodeAll(Fragments(seqNum, flags, c, entries[offset..]))
                == data + EncodeAll(Fragments(seqNum, flags, c, entries))
    {
      var chunkSize := if MAX_CELLS < |entries| - offset then MAX_CELLS else |entries| - offset;
      FragmentsUnfold(seqNum, flags, c, entries[offset..]);
      assert entries[offset..][..chunkSize] == entries[offset..offset + chunkSize];
      assert entries[offset..][chunkSize..] == entries[offset + chunkSize..];
      out := AppendPacket(out, seqNum, flags, c, entries, offset, chunkSize);
      offset := offset + chunkSize;
    }
    assert entries[offset..] == [];
    NoFragments(seqNum, flags, c);
  }

  lemma NoFragments(seqNum: u32, flags: byte, c: Coord)
    ensures EncodeAll(Fragments(seqNum, flags, c, [])) == []
  {
  }

  lemma FragmentsUnfold(seqNum: u32, flags: byte, c: Coord, es: seq<Entry>)
    requires es != []
    ensures var n := if |es| < MAX_CELLS then |es| else MAX_CELLS;
            EncodeAll(Fragments(seqNum, flags, c, es))
            == Encode(Packet(seqNum, flags, c, es[..n])) + EncodeAll(Fragments(seqNum, flags, c, es[n..]))
  {
    hide Encode;
    var n := if |es| < MAX_CELLS then |es| else MAX_CELLS;
    var first, rest := Packet(seqNum, flags, c, es[..n]), Fragments(seqNum, flags, c, es[n..]);
    assert Fragments(seqNum, flags, c, es) == [first] + rest;
    assert ([first] + rest)[1..] == rest;
  }

  // ---------------------------------------------------------------- renumbering

  /** A broadcast handed to the network thread: the update and the number of a snapshot in its place. */
  datatype Payload = Payload(data: seq<byte>, seqNum: u32)

  /** Overwrites the sequence number of every whole packet, stopping at the first truncated one. */
  function Renumber(b: seq<byte>, seqNum: u32): (r: seq<byte>)
    ensures |r| == |b|
    decreases |b|
  {
    if |b| < HEADER || FrameSize(b) > |b| then b
    else LE32(seqNum) + b[4..FrameSize(b)] + Renumber(b[FrameSize(b)..], seqNum)
  }

  method WriteSeqNum(payload: array<byte>, offset: nat, seqNum: u32)
    requires offset + 4 <= payload.Length
    modifies payload
    ensures payload[..] == old(payload[..offset]) + LE32(seqNum) + old(payload[offset + 4..])
  {
    var bytes := LE32(seqNum);
    for i := 0 to 4
      invariant payload[offset..offset + i] == bytes[..i]
      invariant payload[..offset] == old(payload[..offset])
      invariant payload[offset + i..] == old(payload[offset + i..])
    {
      payload[offset + i] := bytes[i];
    }
    assert payload[..] == payload[..offset] + payload[offset..offset + 4] + payload[offset + 4..];
  }

  /** One more packet of the array renumbered: done is what precedes it, rest what was there. */
  lemma RenumberStep(done: seq<byte>, rest: seq<byte>, seqNum: u32)
    requires |rest| >= HEADER && FrameSize(rest) <= |rest|
    ensures var n := FrameSize(rest);
            (done + (LE32(seqNum) + rest[4..n])) + Renumber(rest[n..], seqNum) == done + Renumber(rest, seqNum)
  {
    hide LE32, FrameSize;
  }

  method RewriteSnapshotSeqNums(payload: array<byte>, seqNum: u32)
    modifies payload
    ensures payload[..] == Renumber(old(payload[..]), seqNum)
  {
    hide Renumber, FrameSize, LE32;
    ghost var was := payload[..];
    var offset := 0;
    while offset + HEADER <= payload.Length
      invariant offset <= payload.Length
      invariant payload[offset..] == was[offset..]
      invariant payload[..offset] + Renumber(was[offset..], seqNum) == Renumber(was, seqNum)
      decreases payload.Length - offset
    {
      var packet := payload[offset..];
      var packetSize := FrameSize(packet);
      if offset + packetSize > payload.Length {
        break;
      }
      RenumberStep(payload[..offset], packet, seqNum);
      RewritePacket(payload, offset, packetSize, seqNum);
      assert packet[packetSize..] == was[offset + packetSize..];
      offset := offset + packetSize;
    }
    RenumberStop(was[offset..], seqNum);
    assert payload[..] == payload[..offset] + payload[offset..];
  }

  lemma RenumberStop(b: seq<byte>, seqNum: u32)
    requires |b| < HEADER || FrameSize(b) > |b|
    ensures Renumber(b, seqNum) == b
  {
  }

  method RewritePacket(payload: array<byte>, offset: nat, packetSize: nat, seqNum: u32)
    requires packetSize >= HEADER && offset + packetSize <= payload.Length
    modifies payload
    ensures payload[..offset + packetSize]
            == old(payload[..offset]) + (LE32(seqNum) + old(payload[offset..])[4..packetSize])
    ensures payload[offset + packetSize..] == old(payload[offset..])[packetSize..]
  {
    hide LE32;
    WriteSeqNum(payload, offset, seqNum);
  }

  function WithSeqNum(ps: seq<Packet>, seqNum: u32): (r: seq<Packet>)
    ensures |r| == |ps|
    ensures forall i | 0 <= i < |ps| :: r[i] == Packet(seqNum, ps[i].flags, ps[i].chunk, ps[i].cells)
  {
    seq(|ps|, i requires 0 <= i < |ps| => Packet(seqNum, ps[i].flags, ps[i].chunk, ps[i].cells))
  }

  ghost predicate Fragmented(ps: seq<Packet>) {
    forall p | p in ps :: 1 <= |p.cells| <= MAX_CELLS
  }

  /** A packet of which a part is missing, or less than a header. */
  predicate Truncated(b: seq<byte>) {
    |b| < 15 || |b| < 15 + 11 * Read16(b[13..15])
  }

  /** All whole packets in front of a truncated one get the new number; from there on nothing changes. */
  lemma {:induction false} RenumberStopsAtTruncated(ps: seq<Packet>, tail: seq<byte>, seqNum: u32)
    requires Fragmented(ps) && Truncated(tail)
    ensures Renumber(EncodeAll(ps) + tail, seqNum) == EncodeAll(WithSeqNum(ps, seqNum)) + tail
  {
    hide Encode, Renumber, Truncated;
    if ps == [] {
      assert EncodeAll(ps) + tail == tail;
      TruncatedIsLeft(tail, seqNum);
    } else {
      var rest, p := EncodeAll(ps[1..]) + tail, ps[0];
      assert p in ps;
      RenumberFirst(p, rest, seqNum);
      RenumberStopsAtTruncated(ps[1..], tail, seqNum);
      assert EncodeAll(ps) + tail == Encode(p) + rest;
      assert WithSeqNum(ps, seqNum)[1..] == WithSeqNum(ps[1..], seqNum);
    }
  }

  lemma RenumberFirst(p: Packet, rest: seq<byte>, seqNum: u32)
    requires |p.cells| < 0x1_0000
    ensures Renumber(Encode(p) + rest, seqNum)
            == Encode(Packet(seqNum, p.flags, p.chunk, p.cells)) + Renumber(rest, seqNum)
  {
    hide Encode, FrameSize;
    var b := Encode(p) + rest;
    FrameOfEncoded(p, rest);
    RenumberOne(p, seqNum);
    assert b[|Encode(p)|..] == rest && b[4..|Encode(p)|] == Encode(p)[4..];
  }

  lemma TruncatedIsLeft(tail: seq<byte>, seqNum: u32)
    requires Truncated(tail)
    ensures Renumber(tail, seqNum) == tail
  {
    hide Read16;
  }

  /** Renumbering an encoded payload changes the sequence numbers and nothing else. */
  lemma RenumberEncoded(ps: seq<Packet>, seqNum: u32)
    requires Fragmented(ps)
    ensures Renumber(EncodeAll(ps), seqNum) == EncodeAll(WithSeqNum(ps, seqNum))
  {
    hide Renumber, EncodeAll;
    RenumberStopsAtTruncated(ps, [], seqNum);
    assert EncodeAll(ps) + [] == EncodeAll(ps);
  }

  lemma RenumberOne(p: Packet, seqNum: u32)
    ensures |Encode(p)| >= HEADER
    ensures LE32(seqNum) + Encode(p)[4..] == Encode(Packet(seqNum, p.flags, p.chunk, p.cells))
  {
    hide LE32, LE16, Signed32, EncodeCells;
  }

  // ---------------------------------------------------------------- cutting into datagrams

  /** Every announced frame lies inside the buffer; fewer than HEADER trailing bytes may remain. */
  predicate WellFramed(b: seq<byte>)
    decreases |b|
  {
    |b| < HEADER || (FrameSize(b) <= |b| && WellFramed(b[FrameSize(b)..]))
  }

  /** An oversized frame is cut to MAX_CELLS entries, with the count field corrected. */
  function Capped(b: seq<byte>): seq<byte>
    requires |b| >= HEADER + ENTRY * MAX_CELLS
  {
    b[..13] + LE16(MAX_CELLS) + b[HEADER..HEADER + ENTRY * MAX_CELLS]
  }

  /** What is sent for the first frame of b. */
  function Datagram(b: seq<byte>): (d: seq<byte>)
    requires |b| >= HEADER && FrameSize(b) <= |b|
    ensures |d| <= MAX_PAYLOAD
  {
    if FrameSize(b) > MAX_PAYLOAD then Capped(b) else b[..FrameSize(b)]
  }

  function Cut(b: seq<byte>): (r: seq<seq<byte>>)
    requires WellFramed(b)
    ensures forall d | d in r :: |d| <= MAX_PAYLOAD
    decreases |b|
  {
    if |b| < HEADER then [] else [Datagram(b)] + Cut(b[FrameSize(b)..])
  }

  lemma CutStep(sent: seq<seq<byte>>, rest: seq<byte>)
    requires |rest| >= HEADER && WellFramed(rest)
    ensures FrameSize(rest) <= |rest| && WellFramed(rest[FrameSize(rest)..])
    ensures (sent + [Datagram(rest)]) + Cut(rest[FrameSize(rest)..]) == sent + Cut(rest)
  {
    hide FrameSize, Capped;
  }

  method SendPayloadTo(payload: seq<byte>) returns (sent: seq<seq<byte>>)
    requires WellFramed(payload)
    ensures sent == Cut(payload)
  {
    hide Cut, WellFramed, FrameSize, Capped;
    sent := [];
    var ptr := 0;
    while ptr + HEADER <= |payload|
      invariant ptr <= |payload| && WellFramed(payload[ptr..])
      invariant sent + Cut(payload[ptr..]) == Cut(payload)
      decreases |payload| - ptr
    {
      var rest := payload[ptr..];
      var pktSize := FrameSize(rest);
      CutStep(sent, rest);
      assert rest[pktSize..] == payload[ptr + pktSize..];
      if pktSize > MAX_PAYLOAD {
        sent := sent + [Capped(rest)];
      } else {
        sent := sent + [rest[..pktSize]];
      }
      ptr := ptr + pktSize;
    }
    CutStop(payload[ptr..]);
  }

  lemma CutStop(rest: seq<byte>)
    requires |rest| < HEADER
    ensures WellFramed(rest) && Cut(rest) == []
  {
  }

  /** A frame that announces more than fits a datagram, which no payload of the server holds, is cut to 125 cells. */
  lemma OversizedFrameIsCapped(p: Packet, rest: seq<byte>)
    requires 125 < |p.cells| < 0x1_0000
    ensures FrameSize(Encode(p) + rest) == |Encode(p)|
    ensures Datagram(Encode(p) + rest) == Encode(p.(cells := p.cells[..125]))
  {
    hide LE32, LE16, Signed32, EncodeCells, FrameSize;
    var b, q := Encode(p) + rest, p.(cells := p.cells[..125]);
    FrameOfEncoded(p, rest);
    CellsPrefix(p.cells, 125);
    SignedRoundTrip32(p.chunk.x);
    SignedRoundTrip32(p.chunk.y);
    assert b[..13] == EncodeHeader(p)[..13] == EncodeHeader(q)[..13];
    assert b[HEADER..HEADER + ENTRY * 125] == EncodeCells(p.cells)[..ENTRY * 125];
  }

  lemma {:induction false} CellsPrefix(es: seq<Entry>, n: nat)
    requires n <= |es|
    ensures EncodeCells(es)[..ENTRY * n] == EncodeCells(es[..n])
  {
    hide EncodeEntry;
    if n > 0 {
      CellsPrefix(es[1..], n - 1);
      assert es[..n][1..] == es[1..][..n - 1];
    }
  }

  function Datagrams(ps: seq<Packet>): (r: seq<seq<byte>>)
    ensures |r| == |ps|
    ensures forall i | 0 <= i < |ps| :: r[i] == Encode(ps[i])
  {
    seq(|ps|, i requires 0 <= i < |ps| => Encode(ps[i]))
  }

  /** A serialised payload is cut exactly at its packets; the capping branch is never taken. */
  lemma {:induction false} CutEncoded(ps: seq<Packet>)
    requires Fragmented(ps)
    ensures WellFramed(EncodeAll(ps)) && Cut(EncodeAll(ps)) == Datagrams(ps)
    ensures forall d | d in Cut(EncodeAll(ps)) :: |d| <= 1390
  {
    hide FrameSize, Encode, Cut, WellFramed;
    if ps == [] {
      CutStop([]);
    } else {
      var rest := EncodeAll(ps[1..]);
      assert ps[0] in ps;
      CutEncoded(ps[1..]);
      FrameOfEncoded(ps[0], rest);
      CutOne(ps[0], rest);
      assert Datagrams(ps)[1..] == Datagrams(ps[1..]);
      assert Datagrams(ps) == [Encode(ps[0])] + Datagrams(ps[1..]);
    }
  }

  lemma CutOne(p: Packet, rest: seq<byte>)
    requires 1 <= |p.cells| <= MAX_CELLS && WellFramed(rest)
    ensures WellFramed(Encode(p) + rest) && Cut(Encode(p) + rest) == [Encode(p)] + Cut(rest)
  {
    hide FrameSize, Encode, Capped;
    var b := Encode(p) + rest;
    FrameOfEncoded(p, rest);
    assert b[|Encode(p)|..] == rest && b[..|Encode(p)|] == Encode(p);
  }

  // ---------------------------------------------------------------- the whole way

  /** A chunk with the entries to be sent for it. */
  datatype ChunkCells = ChunkCells(chunk: Coord, cells: seq<Entry>)

  /** The packets of a list of chunks. */
  function PacketsOf(seqNum: u32, flags: byte, parts: seq<ChunkCells>): (r: seq<Packet>)
    ensures forall p | p in r :: 1 <= |p.cells| <= MAX_CELLS
  {
    if parts == [] then [] else
      Fragments(seqNum, flags, parts[0].chunk, parts[0].cells) + PacketsOf(seqNum, flags, parts[1..])
  }

  /** One cell as it is sent or arrives: its chunk, whether in a full update, and its state. */
  datatype CellUpdate = CellUpdate(chunk: Coord, full: bool, cell: Update)

  function Tagged(c: Coord, full: bool, us: seq<Update>): (r: seq<CellUpdate>)
    ensures |r| == |us|
    ensures forall i | 0 <= i < |us| :: r[i] == CellUpdate(c, full, us[i])
  {
    seq(|us|, i requires 0 <= i < |us| => CellUpdate(c, full, us[i]))
  }

  function SentCells(flags: byte, parts: seq<ChunkCells>): seq<CellUpdate> {
    if parts == [] then [] else
      Tagged(parts[0].chunk, flags == FLAG_FULL, UpdatesOf(parts[0].cells)) + SentCells(flags, parts[1..])
  }

  /** The cells of all datagrams that parse, in the order of their arrival. */
  function ArrivedCells(ds: seq<seq<byte>>): seq<CellUpdate> {
    if ds == [] then [] else
      match Parse(ds[0])
      case None => ArrivedCells(ds[1..])
      case Some(p) => Tagged(p.chunk, p.full, p.cells) + ArrivedCells(ds[1..])
  }

  /** Every datagram of a renumbered payload parses to its packet with only the number changed. */
  lemma DatagramsParse(ps: seq<Packet>, seqNum: u32)
    requires Fragmented(ps)
    ensures WellFramed(Renumber(EncodeAll(ps), seqNum))
    ensures var ds := Cut(Renumber(EncodeAll(ps), seqNum));
            && |ds| == |ps|
            && forall i | 0 <= i < |ps| ::
                 |ds[i]| <= 1390 && Parse(ds[i]) == Some(ParsedOf(ps[i]).(seqNum := seqNum))
  {
    hide EncodeAll, Renumber, Cut, WellFramed, Encode, Parse;
    var qs := WithSeqNum(ps, seqNum);
    RenumberEncoded(ps, seqNum);
    RenumberedStaysFragmented(ps, seqNum);
    CutEncoded(qs);
    forall i | 0 <= i < |ps| ensures Parse(Encode(qs[i])) == Some(ParsedOf(ps[i]).(seqNum := seqNum)) {
      assert qs[i] in qs;
      ParseRoundTrip(qs[i], []);
      assert Encode(qs[i]) + [] == Encode(qs[i]);
    }
  }

  lemma RenumberedStaysFragmented(ps: seq<Packet>, seqNum: u32)
    requires Fragmented(ps)
    ensures Fragmented(WithSeqNum(ps, seqNum))
  {
    forall p | p in WithSeqNum(ps, seqNum) ensures 1 <= |p.cells| <= MAX_CELLS {
      var i :| 0 <= i < |ps| && WithSeqNum(ps, seqNum)[i] == p;
      assert ps[i] in ps;
    }
  }

  lemma {:induction false} ArrivedAppend(ds: seq<seq<byte>>, es: seq<seq<byte>>)
    ensures ArrivedCells(ds + es) == ArrivedCells(ds) + ArrivedCells(es)
  {
    hide Parse;
    if ds == [] {
      assert ds + es == es;
    } else {
      assert (ds + es)[1..] == ds[1..] + es;
      ArrivedAppend(ds[1..], es);
    }
  }

  /** ds are datagrams that parse to the packets ps, their numbers aside. */
  ghost predicate Carry(ds: seq<seq<byte>>, ps: seq<Packet>, seqNum: u32) {
    && |ds| == |ps|
    && forall i | 0 <= i < |ps| :: Parse(ds[i]) == Some(ParsedOf(ps[i]).(seqNum := seqNum))
  }

  lemma CarrySplit(ds: seq<seq<byte>>, ps: seq<Packet>, qs: seq<Packet>, seqNum: u32)
    requires Carry(ds, ps + qs, seqNum)
    ensures |ds| == |ps| + |qs| && ds == ds[..|ps|] + ds[|ps|..]
    ensures Carry(ds[..|ps|], ps, seqNum) && Carry(ds[|ps|..], qs, seqNum)
  {
    hide Parse, ParsedOf;
    assert forall i | 0 <= i < |ps| :: ds[..|ps|][i] == ds[i] && ps[i] == (ps + qs)[i];
    assert forall i | 0 <= i < |qs| :: ds[|ps|..][i] == ds[|ps| + i] && qs[i] == (ps + qs)[|ps| + i];
  }

  lemma NothingArrives(ds: seq<seq<byte>>, seqNum: u32)
    requires Carry(ds, [], seqNum)
    ensures ds == [] && ArrivedCells(ds) == []
  {
  }

  lemma PacketArrives(ds: seq<seq<byte>>, p: Packet, seqNum: u32)
    requires Carry(ds, [p], seqNum)
    ensures ArrivedCells(ds)
            == Tagged(Coord(ToInt32(p.chunk.x), ToInt32(p.chunk.y)), p.flags == FLAG_FULL, UpdatesOf(p.cells))
  {
    hide Parse, ToInt32;
    assert ArrivedCells(ds[1..]) == [];
  }

  lemma TaggedSplit(c: Coord, full: bool, es: seq<Entry>, k: nat)
    requires k <= |es|
    ensures Tagged(c, full, UpdatesOf(es)) == Tagged(c, full, UpdatesOf(es[..k])) + Tagged(c, full, UpdatesOf(es[k..]))
  {
    hide UpdateOf;
  }

  lemma {:induction false} FragmentsArrive(ds: seq<seq<byte>>, n: u32, flags: byte, c: Coord, es: seq<Entry>,
                                           seqNum: u32)
    requires Carry(ds, Fragments(n, flags, c, es), seqNum)
    ensures ArrivedCells(ds)
            == Tagged(Coord(ToInt32(c.x), ToInt32(c.y)), flags == FLAG_FULL, UpdatesOf(es))
    decreases |es|
  {
    hide Parse, Carry, ArrivedCells, ToInt32;
    if es == [] {
      NothingArrives(ds, seqNum);
    } else {
      var k := if |es| < MAX_CELLS then |es| else MAX_CELLS;
      var first := Packet(n, flags, c, es[..k]);
      CarrySplit(ds, [first], Fragments(n, flags, c, es[k..]), seqNum);
      PacketArrives(ds[..1], first, seqNum);
      FragmentsArrive(ds[1..], n, flags, c, es[k..], seqNum);
      ArrivedAppend(ds[..1], ds[1..]);
      TaggedSplit(Coord(ToInt32(c.x), ToInt32(c.y)), flags == FLAG_FULL, es, k);
    }
  }

  lemma {:induction false} PacketsArrive(ds: seq<seq<byte>>, n: u32, flags: byte, parts: seq<ChunkCells>, seqNum: u32)
    requires Carry(ds, PacketsOf(n, flags, parts), seqNum)
    requires forall i | 0 <= i < |parts| :: FitsInt32(parts[i].chunk.x) && FitsInt32(parts[i].chunk.y)
    ensures ArrivedCells(ds) == SentCells(flags, parts)
    decreases |parts|
  {
    hide Parse, Fragments, FitsInt32, ToInt32, Carry, UpdatesOf, Tagged, ArrivedCells;
    if parts == [] {
      NothingArrives(ds, seqNum);
    } else {
      var c, es := parts[0].chunk, parts[0].cells;
      var ps, rest := Fragments(n, flags, c, es), PacketsOf(n, flags, parts[1..]);
      CarrySplit(ds, ps, rest, seqNum);
      FragmentsArrive(ds[..|ps|], n, flags, c, es, seqNum);
      PacketsArrive(ds[|ps|..], n, flags, parts[1..], seqNum);
      ArrivedAppend(ds[..|ps|], ds[|ps|..]);
      assert ToInt32(c.x) == c.x && ToInt32(c.y) == c.y;
    }
  }

  /**
   Whatever list of chunks and entries is serialised, renumbered, cut into datagrams and parsed, the
   same entries arrive with the same coordinates and flag, in order; every datagram parses, fits 1390
   bytes, and carries the new number.
   */
  lemma WireRoundTrip(n: u32, flags: byte, parts: seq<ChunkCells>, seqNum: u32)
    requires forall i | 0 <= i < |parts| :: FitsInt32(parts[i].chunk.x) && FitsInt32(parts[i].chunk.y)
    ensures WellFramed(Renumber(EncodeAll(PacketsOf(n, flags, parts)), seqNum))
    ensures var ds := Cut(Renumber(EncodeAll(PacketsOf(n, flags, parts)), seqNum));
            && ArrivedCells(ds) == SentCells(flags, parts)
            && forall d | d in ds :: |d| <= 1390 && Parse(d).Some? && Parse(d).value.seqNum == seqNum
  {
    hide Parse, PacketsOf, Cut, Renumber, EncodeAll, WellFramed, FitsInt32, ParsedOf, Encode;
    var ps := PacketsOf(n, flags, parts);
    DatagramsParse(ps, seqNum);
    PacketsArrive(Cut(Renumber(EncodeAll(ps), seqNum)), n, flags, parts, seqNum);
  }
}
