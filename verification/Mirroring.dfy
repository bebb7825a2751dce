/** What a list of update packets does to the client's map, cell by cell. */
module Mirroring {
  import opened Types
  import opened Plane
  import Chunks
  import opened Coordinates
  import opened WorldSpec
  import opened Codec
  import opened Packets
  import opened Serializer
  import opened Client
  import Server

  /** What a client shows of a plane: the owners of its live, owned cells. */
  function MirrorOf(m: Plane): Mirror {
    map p | p in m && Counted(m[p]) :: m[p].owner
  }

  ghost function Shown(w: WorldV, p: Pos): PlayerId
    requires ValidWorld(w)
  {
    if Counted(WorldAt(w, p)) then WorldAt(w, p).owner else 0
  }

  lemma MirrorShows(w: WorldV, p: Pos)
    requires ValidWorld(w)
    ensures OwnerAt(MirrorOf(Abs(w)), p) == Shown(w, p)
    ensures Proper(MirrorOf(Abs(w)))
  {
    hide Abs, WorldAt;
    AbsAt(w, p);
  }

  predicate FitsCoord(c: Coord) {
    FitsInt32(c.x) && FitsInt32(c.y)
  }

  // ---------------------------------------------------------------- through the wire

  function ApplyPacket(m: Mirror, p: Packet): Mirror {
    var q := ParsedOf(p);
    ApplyUpdate(m, q.full, q.chunk, ToAlive(q.cells))
  }

  function ApplyPackets(m: Mirror, ps: seq<Packet>): Mirror
    decreases |ps|
  {
    if ps == [] then m else ApplyPackets(ApplyPacket(m, ps[0]), ps[1..])
  }

  /** Encoding, cutting and parsing in between make no difference. */
  lemma {:induction false} WireIsTransparent(m: Mirror, ps: seq<Packet>)
    requires Fragmented(ps)
    ensures WellFramed(EncodeAll(ps))
    ensures ReceiveAll(m, Cut(EncodeAll(ps))) == ApplyPackets(m, ps)
  {
    hide EncodeAll, Cut, WellFramed, ReceiveAll, ApplyPackets;
    CutEncoded(ps);
    DatagramsAreTransparent(m, ps);
  }

  lemma {:induction false} DatagramsAreTransparent(m: Mirror, ps: seq<Packet>)
    requires Fragmented(ps)
    ensures ReceiveAll(m, Datagrams(ps)) == ApplyPackets(m, ps)
    decreases |ps|
  {
    hide Encode, Parse, ParsedOf, ApplyUpdate;
    if ps != [] {
      assert ps[0] in ps;
      ParseRoundTrip(ps[0], []);
      assert Encode(ps[0]) + [] == Encode(ps[0]);
      DatagramsAreTransparent(ApplyPacket(m, ps[0]), ps[1..]);
      assert Datagrams(ps)[1..] == Datagrams(ps[1..]);
    }
  }

  lemma {:induction false} ApplyPacketsAppend(m: Mirror, ps: seq<Packet>, qs: seq<Packet>)
    ensures ApplyPackets(m, ps + qs) == ApplyPackets(ApplyPackets(m, ps), qs)
    decreases |ps|
  {
    hide ApplyPacket;
    if ps == [] {
      assert ps + qs == qs;
    } else {
      assert (ps + qs)[1..] == ps[1..] + qs;
      ApplyPacketsAppend(ApplyPacket(m, ps[0]), ps[1..], qs);
    }
  }

  lemma {:induction false} RenumberingIsInvisible(m: Mirror, ps: seq<Packet>, seqNum: u32)
    ensures ApplyPackets(m, WithSeqNum(ps, seqNum)) == ApplyPackets(m, ps)
    decreases |ps|
  {
    hide ApplyUpdate, UpdatesOf;
    if ps != [] {
      RenumberingIsInvisible(ApplyPacket(m, ps[0]), ps[1..], seqNum);
      assert WithSeqNum(ps, seqNum)[1..] == WithSeqNum(ps[1..], seqNum);
    }
  }

  // ---------------------------------------------------------------- the entries of one chunk

  function ApplyEntries(m: Mirror, c: Coord, es: seq<Entry>): Mirror {
    ApplyCells(m, c, ToAlive(UpdatesOf(es)))
  }

  /** Each entry tells the truth about its cell of chunk c. */
  ghost predicate Truthful(w: WorldV, c: Coord, es: seq<Entry>) {
    && ValidWorld(w) && c in w
    && forall e | e in es :: e.x < Chunks.WIDTH && e.y < Chunks.WIDTH && e == EntryAt(w[c], Local(e.x, e.y))
  }

  ghost predicate Hit(es: seq<Entry>, l: Local) {
    exists e :: e in es && e.x == l.x && e.y == l.y
  }

  lemma ApplyOneEntry(m: Mirror, w: WorldV, c: Coord, e: Entry, p: Pos)
    requires Truthful(w, c, [e])
    ensures var u := AliveCell(e.x, e.y, if e.alive != 0 then e.owner else 0);
            OwnerAt(ApplyCell(m, c, u), p)
            == if Home(p) == c && LocalOf(p) == Local(e.x, e.y) then Shown(w, p) else OwnerAt(m, p)
  {
    assert e in [e];
    var l := Local(e.x, e.y);
    SplitJoin(p, c, l);
    Server.GetIsWorldAt(w, c, l);
  }

  lemma {:induction false} EntriesShow(m: Mirror, w: WorldV, c: Coord, es: seq<Entry>, p: Pos)
    requires Truthful(w, c, es)
    ensures OwnerAt(ApplyEntries(m, c, es), p)
            == if Home(p) == c && Hit(es, LocalOf(p)) then Shown(w, p) else OwnerAt(m, p)
    decreases |es|
  {
    hide ApplyCell, Shown, EntryAt, Home, LocalOf;
    if es != [] {
      var e := es[0];
      var u := AliveCell(e.x, e.y, if e.alive != 0 then e.owner else 0);
      assert e in es && forall d | d in es[1..] :: d in es;
      ApplyOneEntry(m, w, c, e, p);
      EntriesShow(ApplyCell(m, c, u), w, c, es[1..], p);
      HitSplit(es, LocalOf(p));
      assert ToAlive(UpdatesOf(es))[0] == u;
      assert ToAlive(UpdatesOf(es))[1..] == ToAlive(UpdatesOf(es[1..]));
    } else {
      assert ToAlive(UpdatesOf(es)) == [];
    }
  }

  lemma HitSplit(es: seq<Entry>, l: Local)
    requires es != []
    ensures Hit(es, l) <==> (es[0].x == l.x && es[0].y == l.y) || Hit(es[1..], l)
  {
    assert forall d | d in es[1..] :: d in es;
    if Hit(es, l) {
      var e :| e in es && e.x == l.x && e.y == l.y;
      assert e == es[0] || e in es[1..];
    }
    if es[0].x == l.x && es[0].y == l.y { assert es[0] in es; }
  }

  // ---------------------------------------------------------------- deltas

  /** Cell p is on its chunk's dirty list. */
  ghost predicate Dirty(w: WorldV, p: Pos) {
    Home(p) in w && LocalOf(p) in w[Home(p)].dirty
  }

  lemma DirtyEntriesTruthful(w: WorldV, c: Coord)
    requires ValidWorld(w) && c in w
    ensures Truthful(w, c, DirtyEntries(w[c]))
    ensures forall l :: Hit(DirtyEntries(w[c]), l) <==> l in w[c].dirty
  {
    var es := DirtyEntries(w[c]);
    forall l | l in w[c].dirty ensures Hit(es, l) {
      var i :| 0 <= i < |w[c].dirty| && w[c].dirty[i] == l;
      assert es[i] in es;
    }
  }

  lemma {:induction false} DeltaFragmentsShow(m: Mirror, w: WorldV, seqNum: u32, c: Coord, es: seq<Entry>, p: Pos)
    requires Truthful(w, c, es) && FitsCoord(c)
    ensures OwnerAt(ApplyPackets(m, Fragments(seqNum, FLAG_DELTA, c, es)), p)
            == if Home(p) == c && Hit(es, LocalOf(p)) then Shown(w, p) else OwnerAt(m, p)
    decreases |es|
  {
    hide Shown, ApplyCells, Home, LocalOf, Hit;
    if es == [] {
      EntriesShow(m, w, c, es, p);
      assert ApplyEntries(m, c, es) == m by { NoEntries(m, c); }
    } else {
      var n := if |es| < MAX_CELLS then |es| else MAX_CELLS;
      var first := Packet(seqNum, FLAG_DELTA, c, es[..n]);
      assert (forall e | e in es[..n] :: e in es) && forall e | e in es[n..] :: e in es;
      assert ApplyPacket(m, first) == ApplyEntries(m, c, es[..n]);
      EntriesShow(m, w, c, es[..n], p);
      DeltaFragmentsShow(ApplyPacket(m, first), w, seqNum, c, es[n..], p);
      FragmentsSplit(m, seqNum, FLAG_DELTA, c, es, n);
      HitJoin(es, n, LocalOf(p));
    }
  }

  lemma NoEntries(m: Mirror, c: Coord)
    ensures ApplyEntries(m, c, []) == m
  {
    assert ToAlive(UpdatesOf([])) == [];
  }

  lemma FragmentsSplit(m: Mirror, seqNum: u32, flags: byte, c: Coord, es: seq<Entry>, n: nat)
    requires es != [] && n == if |es| < MAX_CELLS then |es| else MAX_CELLS
    ensures ApplyPackets(m, Fragments(seqNum, flags, c, es))
            == ApplyPackets(ApplyPacket(m, Packet(seqNum, flags, c, es[..n])), Fragments(seqNum, flags, c, es[n..]))
  {
    hide ApplyPacket;
    var first, rest := Packet(seqNum, flags, c, es[..n]), Fragments(seqNum, flags, c, es[n..]);
    assert Fragments(seqNum, flags, c, es) == [first] + rest;
    assert ([first] + rest)[1..] == rest;
  }

  lemma HitJoin(es: seq<Entry>, n: nat, l: Local)
    requires n <= |es|
    ensures Hit(es, l) <==> Hit(es[..n], l) || Hit(es[n..], l)
  {
    assert (forall e | e in es[..n] :: e in es) && forall e | e in es[n..] :: e in es;
    if Hit(es, l) {
      var e :| e in es && e.x == l.x && e.y == l.y;
      assert e in es[..n] || e in es[n..];
    }
  }

  /** The deltas of a world bring exactly its dirty cells up to date. */
  lemma {:induction false} DeltaShows(m: Mirror, w: WorldV, seqNum: u32, order: seq<Coord>, p: Pos)
    requires Listed(order, w) && forall c | c in order :: FitsCoord(c)
    ensures OwnerAt(ApplyPackets(m, DeltaPackets(seqNum, order, w)), p)
            == if Home(p) in order && Dirty(w, p) then Shown(w, p) else OwnerAt(m, p)
    decreases |order|
  {
    hide Shown, Fragments, DirtyEntries, Home, LocalOf, FitsCoord, Truthful, Hit;
    if order != [] {
      var c := order[0];
      assert c in order && forall d | d in order[1..] :: d in order;
      var ps := Fragments(seqNum, FLAG_DELTA, c, DirtyEntries(w[c]));
      DirtyEntriesTruthful(w, c);
      DeltaFragmentsShow(m, w, seqNum, c, DirtyEntries(w[c]), p);
      ApplyPacketsAppend(m, ps, DeltaPackets(seqNum, order[1..], w));
      DeltaShows(ApplyPackets(m, ps), w, seqNum, order[1..], p);
      assert Home(p) in order <==> Home(p) == c || Home(p) in order[1..];
    }
  }
}
