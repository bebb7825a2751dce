/** Little-endian integers, the only encoding the protocol uses (server/include/Protocol.hpp). */
module Codec {
  import opened Types
  import Coordinates

  type byte = b: int | 0 <= b < 256

  function Pow256(n: nat): (r: nat)
    ensures r > 0
  {
    if n == 0 then 1 else 256 * Pow256(n - 1)
  }

  function LE(v: nat, n: nat): (r: seq<byte>)
    ensures |r| == n
  {
    if n == 0 then [] else [v % 256] + LE(v / 256, n - 1)
  }

  function FromLE(b: seq<byte>): (v: nat)
    ensures v < Pow256(|b|)
  {
    if b == [] then 0 else b[0] + 256 * FromLE(b[1..])
  }

  lemma {:induction false} LERoundTrip(v: nat, n: nat)
    requires v < Pow256(n)
    ensures FromLE(LE(v, n)) == v
  {
    if n > 0 {
      assert LE(v, n)[1..] == LE(v / 256, n - 1);
      LERoundTrip(v / 256, n - 1);
    }
  }

  lemma Digits(low: byte, high: nat)
    ensures (low + 256 * high) % 256 == low && (low + 256 * high) / 256 == high
  {
  }

  /** The other direction: no two byte strings of one length stand for the same number. */
  lemma {:induction false} LEUnique(b: seq<byte>)
    ensures LE(FromLE(b), |b|) == b
    decreases |b|
  {
    if b != [] {
      LEUnique(b[1..]);
      Digits(b[0], FromLE(b[1..]));
    }
  }

  lemma Widths()
    ensures Pow256(2) == 0x1_0000 && Pow256(4) == 0x1_0000_0000
    ensures Pow256(8) == U64_LIMIT
  {
    assert Pow256(1) == 256;
    assert Pow256(2) == 0x1_0000;
    assert Pow256(3) == 0x100_0000;
    assert Pow256(4) == 0x1_0000_0000;
    assert Pow256(5) == 0x100_0000_0000;
    assert Pow256(6) == 0x1_0000_0000_0000;
    assert Pow256(7) == 0x100_0000_0000_0000;
  }

  function LE16(v: nat): (r: seq<byte>)
    ensures |r| == 2
  {
    LE(v, 2)
  }

  function Read16(b: seq<byte>): (v: nat)
    requires |b| == 2
    ensures v < 0x1_0000
  {
    Widths();
    FromLE(b)
  }

  function LE32(v: nat): (r: seq<byte>)
    ensures |r| == 4
  {
    LE(v, 4)
  }

  function Read32(b: seq<byte>): (v: nat)
    requires |b| == 4
    ensures v < 0x1_0000_0000
  {
    Widths();
    FromLE(b)
  }

  function LE64(v: nat): (r: seq<byte>)
    ensures |r| == 8
  {
    LE(v, 8)
  }

  function Read64(b: seq<byte>): (v: PlayerId)
    requires |b| == 8
  {
    Widths();
    FromLE(b)
  }

  lemma RoundTrip16(v: nat)
    requires v < 0x1_0000
    ensures Read16(LE16(v)) == v
  {
    hide LE, FromLE, Pow256;
    Widths();
    LERoundTrip(v, 2);
  }

  lemma RoundTrip32(v: nat)
    requires v < 0x1_0000_0000
    ensures Read32(LE32(v)) == v
  {
    hide LE, FromLE, Pow256;
    Widths();
    LERoundTrip(v, 4);
  }

  lemma RoundTrip64(v: nat)
    requires v < U64_LIMIT
    ensures Read64(LE64(v)) == v
  {
    hide LE, FromLE, Pow256;
    Widths();
    LERoundTrip(v, 8);
  }

  /** Two's complement, as memcpy of an int32 or int64 produces it. */
  function Signed32(v: int): seq<byte> {
    LE32(v % 0x1_0000_0000)
  }

  function ReadSigned32(b: seq<byte>): int
    requires |b| == 4
  {
    Coordinates.ToInt32(Read32(b))
  }

  function Signed64(v: int): seq<byte> {
    LE64(v % U64_LIMIT)
  }

  function ToInt64(v: int): (r: int)
    ensures -U64_LIMIT / 2 <= r < U64_LIMIT / 2
    ensures r == v <==> -U64_LIMIT / 2 <= v < U64_LIMIT / 2
  {
    (v + U64_LIMIT / 2) % U64_LIMIT - U64_LIMIT / 2
  }

  function ReadSigned64(b: seq<byte>): int
    requires |b| == 8
  {
    ToInt64(Read64(b))
  }

  lemma SignedRoundTrip32(v: int)
    ensures |Signed32(v)| == 4
    ensures ReadSigned32(Signed32(v)) == Coordinates.ToInt32(v)
  {
    hide LE32, Read32;
    RoundTrip32(v % 0x1_0000_0000);
  }

  lemma SignedRoundTrip64(v: int)
    ensures |Signed64(v)| == 8
    ensures ReadSigned64(Signed64(v)) == ToInt64(v)
  {
    hide LE64, Read64;
    RoundTrip64(v % U64_LIMIT);
  }

  // ---------------------------------------------------------------- byte by byte

  lemma LEStep(v: nat, n: nat)
    ensures LE(v, n + 1) == [v % 256] + LE(v / 256, n)
    ensures LE(v, 0) == []
  {
  }

  lemma LE16Bytes(v: nat)
    ensures LE16(v) == [v % 256, v / 0x100 % 256]
  {
    hide LE;
    LEStep(v, 1);
    LEStep(v / 0x100, 0);
    LEStep(v / 0x100 / 256, 0);
  }

  lemma LE32Bytes(v: nat)
    ensures LE32(v) == [v % 256, v / 0x100 % 256, v / 0x1_0000 % 256, v / 0x100_0000 % 256]
  {
    hide LE;
    LEStep(v, 3);
    LEStep(v / 0x100, 2);
    LE16Bytes(v / 0x1_0000);
    assert v / 0x100 / 256 == v / 0x1_0000 && v / 0x1_0000 / 0x100 == v / 0x100_0000;
  }

  lemma LE64Bytes(v: nat)
    ensures LE64(v) == LE32(v) + LE32(v / 0x1_0000_0000)
  {
    hide LE;
    LEStep(v, 7);
    LEStep(v / 0x100, 6);
    LEStep(v / 0x1_0000, 5);
    LEStep(v / 0x100_0000, 4);
    LE32Bytes(v);
    assert v / 0x100 / 256 == v / 0x1_0000;
    assert v / 0x1_0000 / 256 == v / 0x100_0000;
    assert v / 0x100_0000 / 256 == v / 0x1_0000_0000;
  }

  /** Negative numbers in two's complement. */
  lemma SignedBytes(v: int)
    ensures -0x8000_0000 <= v < 0x8000_0000 ==> Signed32(v) == LE32(if v < 0 then v + 0x1_0000_0000 else v)
    ensures -0x8000_0000_0000_0000 <= v < 0x8000_0000_0000_0000 ==>
              Signed64(v) == LE64(if v < 0 then v + 0x1_0000_0000_0000_0000 else v)
  {
    hide LE32, LE64;
  }
}
