/** What a full snapshot does to the client's map: which chunks it restores, and exactly when. */
module Snapshots {
  import opened Types
  import opened Chunks
  import opened Coordinates
  import opened WorldSpec
  import opened Packets
  import opened Serializer
  import opened Client
  import Server
  import opened Mirroring

  lemma InChunkIsHome(p: Pos, c: Coord)
    ensures InChunk(p, c) <==> Home(p) == c
  {
    ClientCoordinatesAreFloor(p.x);
    ClientCoordinatesAreFloor(p.y);
  }

  lemma EraseShows(m: Mirror, c: Coord, p: Pos)
    ensures OwnerAt(EraseChunk(m, c), p) == if Home(p) == c then 0 else OwnerAt(m, p)
  {
    hide InChunk, Home;
    InChunkIsHome(p, c);
  }

  // ---------------------------------------------------------------- the live cells of a chunk

  predicate LiveAt(v: ChunkV, l: Local)
    requires |v.cur| == TOTAL_CELLS && l.x < WIDTH && l.y < WIDTH
  {
    v.Get(l.x, l.y).alive
  }

  ghost function Live(v: ChunkV): (r: seq<Entry>)
    requires v.Valid()
  {
    LiveEntries(v, WIDTH * WIDTH)
  }

  /** The live entries are truthful and miss no live cell. */
  lemma {:induction false} LiveEntriesFacts(w: WorldV, c: Coord, k: nat)
    requires ValidWorld(w) && c in w && k <= WIDTH * WIDTH
    ensures Truthful(w, c, LiveEntries(w[c], k))
    ensures forall i | 0 <= i < |LiveEntries(w[c], k)| ::
              var e := LiveEntries(w[c], k)[i]; e.alive == 1 && Rank(Local(e.x, e.y)) < k
    ensures forall l: Local | l.x < WIDTH && l.y < WIDTH && Rank(l) < k && LiveAt(w[c], l) ::
              Hit(LiveEntries(w[c], k), l)
  {
    hide AtRank, Rank;
    if k > 0 {
      var l := AtRank(k - 1);
      var before, after := LiveEntries(w[c], k - 1), LiveEntries(w[c], k);
      LiveEntriesFacts(w, c, k - 1);
      assert Local(l.x, l.y) == l;
      assert forall e | e in before :: e in after;
      forall m: Local | m.x < WIDTH && m.y < WIDTH && Rank(m) < k && LiveAt(w[c], m) ensures Hit(after, m) {
        if Rank(m) == k - 1 {
          RankInjective(m, l);
          assert EntryAt(w[c], l) in after;
        }
      }
    }
  }

  /** They are listed row by row and from left to right, each of them once. */
  lemma {:induction false} LiveEntriesAscend(w: WorldV, c: Coord, k: nat)
    requires ValidWorld(w) && c in w && k <= WIDTH * WIDTH
    ensures Ascending(LiveEntries(w[c], k))
  {
    hide AtRank, Rank, Truthful, Hit;
    if k > 0 {
      var l, before := AtRank(k - 1), LiveEntries(w[c], k - 1);
      LiveEntriesFacts(w, c, k - 1);
      LiveEntriesAscend(w, c, k - 1);
      assert Local(l.x, l.y) == l;
      forall i | 0 <= i < |before| ensures before[i].y < l.y || (before[i].y == l.y && before[i].x < l.x) {
        assert before[i] in before;
        EntryInChunk(w, c, before, before[i]);
        RankIsRowOrder(Local(before[i].x, before[i].y), l);
      }
    }
  }

  lemma EntryInChunk(w: WorldV, c: Coord, es: seq<Entry>, e: Entry)
    requires Truthful(w, c, es) && e in es
    ensures e.x < WIDTH && e.y < WIDTH
  {
  }

  ghost predicate Ascending(es: seq<Entry>) {
    forall i, j | 0 <= i < j < |es| ::
      es[i].y < es[j].y || (es[i].y == es[j].y && es[i].x < es[j].x)
  }

  // ---------------------------------------------------------------- the packets of one chunk

  /** What the last packet of a chunk with these live cells carries. */
  function LastPart(es: seq<Entry>): (r: seq<Entry>)
    ensures forall e | e in r :: e in es
    decreases |es|
  {
    if |es| <= MAX_CELLS then es else LastPart(es[MAX_CELLS..])
  }

  /** The last packet carries what is left after as many packets of 125 cells as precede it. */
  lemma {:induction false} LastPartIsRemainder(es: seq<Entry>)
    requires es != []
    ensures LastPart(es) == es[125 * ((|es| - 1) / 125)..]
    decreases |es|
  {
    if |es| > 125 { LastPartIsRemainder(es[125..]); }
  }

  /** Every packet of a full snapshot erases the chunk first, so only the last one survives. */
  lemma {:induction false} FullFragmentsShow(m: Mirror, w: WorldV, seqNum: u32, c: Coord, es: seq<Entry>, p: Pos)
    requires Truthful(w, c, es) && FitsCoord(c) && es != []
    ensures OwnerAt(ApplyPackets(m, Fragments(seqNum, FLAG_FULL, c, es)), p)
            == if Home(p) != c then OwnerAt(m, p)
               else if Hit(LastPart(es), LocalOf(p)) then Shown(w, p) else 0
    decreases |es|
  {
    hide Shown, ApplyCells, Home, LocalOf, Hit, EraseChunk, Fragments;
    var n := if |es| < MAX_CELLS then |es| else MAX_CELLS;
    var first := Packet(seqNum, FLAG_FULL, c, es[..n]);
    assert (forall e | e in es[..n] :: e in es) && forall e | e in es[n..] :: e in es;
    assert ApplyPacket(m, first) == ApplyEntries(EraseChunk(m, c), c, es[..n]);
    EntriesShow(EraseChunk(m, c), w, c, es[..n], p);
    EraseShows(m, c, p);
    FragmentsSplit(m, seqNum, FLAG_FULL, c, es, n);
    if |es| <= MAX_CELLS {
      assert es[..n] == es && es[n..] == [];
      NoPackets(ApplyPacket(m, first), seqNum, c);
    } else {
      FullFragmentsShow(ApplyPacket(m, first), w, seqNum, c, es[n..], p);
    }
  }

  lemma NoPackets(m: Mirror, seqNum: u32, c: Coord)
    ensures ApplyPackets(m, Fragments(seqNum, FLAG_FULL, c, [])) == m
  {
  }

  // ---------------------------------------------------------------- the whole snapshot

  ghost function SnapshotShown(m: Mirror, w: WorldV, order: seq<Coord>, p: Pos): PlayerId
    requires Listed(order, w)
  {
    if Home(p) !in order || Live(w[Home(p)]) == [] then OwnerAt(m, p)
    else if Hit(LastPart(Live(w[Home(p)])), LocalOf(p)) then Shown(w, p)
    else 0
  }

  lemma {:induction false} FullShows(m: Mirror, w: WorldV, seqNum: u32, order: seq<Coord>, p: Pos)
    requires Listed(order, w) && Distinct(order) && forall c | c in order :: FitsCoord(c)
    ensures OwnerAt(ApplyPackets(m, FullPackets(seqNum, order, w)), p) == SnapshotShown(m, w, order, p)
    decreases |order|
  {
    hide Shown, Fragments, Home, LocalOf, FitsCoord, Truthful, Hit, LastPart, LiveEntries, Ascending;
    if order != [] {
      var c := order[0];
      assert c in order && forall d | d in order[1..] :: d in order;
      assert c !in order[1..];
      var ps := Fragments(seqNum, FLAG_FULL, c, Live(w[c]));
      LiveEntriesFacts(w, c, WIDTH * WIDTH);
      if Live(w[c]) != [] {
        FullFragmentsShow(m, w, seqNum, c, Live(w[c]), p);
      } else {
        NoPackets(m, seqNum, c);
      }
      ApplyPacketsAppend(m, ps, FullPackets(seqNum, order[1..], w));
      FullShows(ApplyPackets(m, ps), w, seqNum, order[1..], p);
      assert Home(p) in order <==> Home(p) == c || Home(p) in order[1..];
    }
  }

  /** Every live cell of the world has an owner. */
  ghost predicate LiveCellsOwned(w: WorldV)
    requires ValidWorld(w)
  {
    forall p :: WorldAt(w, p).alive ==> WorldAt(w, p).owner != 0
  }

  /** m agrees with the server on chunk c. */
  ghost predicate Restored(m: Mirror, w: WorldV, c: Coord)
    requires ValidWorld(w)
  {
    forall p | Home(p) == c :: OwnerAt(m, p) == Shown(w, p)
  }

  ghost predicate EmptyIn(m: Mirror, c: Coord) {
    forall p | Home(p) == c :: OwnerAt(m, p) == 0
  }

  lemma ShownOnlyWhereLive(w: WorldV, p: Pos)
    requires ValidWorld(w) && Shown(w, p) != 0
    ensures Home(p) in w && Hit(Live(w[Home(p)]), LocalOf(p))
  {
    hide LiveEntries, Rank, Hit, Ascending, Truthful;
    var c, l := Home(p), LocalOf(p);
    LiveEntriesFacts(w, c, WIDTH * WIDTH);
    assert LiveAt(w[c], l);
    RankBound(l);
  }

  lemma HitNonempty(es: seq<Entry>, l: Local)
    requires Hit(es, l)
    ensures es != []
  {
  }

  /** Beyond one packet the chunk's first live cell is lost. */
  lemma FirstCellLost(w: WorldV, c: Coord)
    requires ValidWorld(w) && c in w && |Live(w[c])| > MAX_CELLS
    ensures var e := Live(w[c])[0];
            Truthful(w, c, Live(w[c])) && e in Live(w[c]) && !Hit(LastPart(Live(w[c])), Local(e.x, e.y)) && e.alive == 1
  {
    hide LiveEntries, Rank, Truthful;
    LiveEntriesFacts(w, c, WIDTH * WIDTH);
    LiveEntriesAscend(w, c, WIDTH * WIDTH);
    var es := Live(w[c]);
    LastPartIsLate(es);
    forall e | e in LastPart(es) ensures Local(e.x, e.y) != Local(es[0].x, es[0].y) {
      var i :| MAX_CELLS <= i < |es| && es[i] == e;
    }
  }

  lemma {:induction false} LastPartIsLate(es: seq<Entry>)
    requires |es| > MAX_CELLS
    ensures forall e | e in LastPart(es) :: exists i :: MAX_CELLS <= i < |es| && es[i] == e
    decreases |es|
  {
    var rest := es[MAX_CELLS..];
    if |rest| > MAX_CELLS { LastPartIsLate(rest); }
    forall e | e in LastPart(es) ensures exists i :: MAX_CELLS <= i < |es| && es[i] == e {
      assert e in rest;
      var j :| 0 <= j < |rest| && rest[j] == e;
      assert es[j + MAX_CELLS] == e;
    }
  }

  /**
   Whatever the client held before, a full snapshot brings chunk c into agreement with the server
   exactly when the chunk has 1 to 125 live cells, or none and the client showed none there.
   */
  lemma SnapshotRestoresExactly(m: Mirror, w: WorldV, seqNum: u32, order: seq<Coord>, c: Coord)
    requires Enumerates(order, w) && LiveCellsOwned(w) && c in w && forall d | d in order :: FitsCoord(d)
    ensures Restored(ApplyPackets(m, FullPackets(seqNum, order, w)), w, c)
            <==> (1 <= |Live(w[c])| <= 125 || (Live(w[c]) == [] && EmptyIn(m, c)))
  {
    hide FullPackets, ApplyPackets, Shown, LiveEntries, Hit, FitsCoord, LiveCellsOwned, Home, LocalOf, Ascending;
    var r := ApplyPackets(m, FullPackets(seqNum, order, w));
    forall p ensures OwnerAt(r, p) == SnapshotShown(m, w, order, p) { FullShows(m, w, seqNum, order, p); }
    if Live(w[c]) == [] {
      forall p | Home(p) == c ensures Shown(w, p) == 0 {
        if Shown(w, p) != 0 { ShownOnlyWhereLive(w, p); HitNonempty(Live(w[c]), LocalOf(p)); }
      }
    } else if |Live(w[c])| <= MAX_CELLS {
      forall p | Home(p) == c ensures OwnerAt(r, p) == Shown(w, p) {
        if Shown(w, p) != 0 { ShownOnlyWhereLive(w, p); }
      }
    } else {
      var p := LostCell(w, c);
      assert OwnerAt(r, p) == 0;
    }
  }

  lemma LostCell(w: WorldV, c: Coord) returns (p: Pos)
    requires ValidWorld(w) && LiveCellsOwned(w) && c in w && |Live(w[c])| > MAX_CELLS
    ensures Home(p) == c && !Hit(LastPart(Live(w[c])), LocalOf(p)) && Shown(w, p) != 0
  {
    hide LiveEntries, Hit, LastPart;
    FirstCellLost(w, c);
    var e := Live(w[c])[0];
    var l := Local(e.x, e.y);
    p := CellPos(c, l);
    SplitJoin(p, c, l);
    Server.GetIsWorldAt(w, c, l);
    assert WorldAt(w, p).alive;
  }

  /** Cells of chunks the server does not hold are never touched. */
  lemma SnapshotTouchesNoOtherChunk(m: Mirror, w: WorldV, seqNum: u32, order: seq<Coord>, p: Pos)
    requires Enumerates(order, w) && (forall d | d in order :: FitsCoord(d)) && Home(p) !in w
    ensures OwnerAt(ApplyPackets(m, FullPackets(seqNum, order, w)), p) == OwnerAt(m, p)
  {
    hide FullPackets, ApplyPackets, Shown, LiveEntries, Hit, FitsCoord, Home, LocalOf;
    FullShows(m, w, seqNum, order, p);
  }

  /** What a snapshot of w demands of a map m to leave it showing w everywhere. */
  ghost predicate ChunksSuit(m: Mirror, w: WorldV)
    requires ValidWorld(w)
  {
    && (forall c | c in w :: 1 <= |Live(w[c])| <= 125 || (Live(w[c]) == [] && EmptyIn(m, c)))
    && forall p | Home(p) !in w :: OwnerAt(m, p) == 0
  }

  /** After a snapshot the client shows the server's world exactly when every chunk suits, and nothing lay outside. */
  lemma SnapshotShowsAll(m: Mirror, w: WorldV, seqNum: u32, order: seq<Coord>)
    requires Enumerates(order, w) && LiveCellsOwned(w) && forall d | d in order :: FitsCoord(d)
    ensures (forall p :: OwnerAt(ApplyPackets(m, FullPackets(seqNum, order, w)), p) == Shown(w, p))
            <==> ChunksSuit(m, w)
  {
    hide FullPackets, ApplyPackets, Shown, Live, EmptyIn, FitsCoord, LiveCellsOwned, Home;
    var r := ApplyPackets(m, FullPackets(seqNum, order, w));
    forall c | c in w
      ensures Restored(r, w, c) <==> (1 <= |Live(w[c])| <= 125 || (Live(w[c]) == [] && EmptyIn(m, c)))
    {
      SnapshotRestoresExactly(m, w, seqNum, order, c);
    }
    forall p | Home(p) !in w ensures OwnerAt(r, p) == OwnerAt(m, p) && Shown(w, p) == 0 {
      SnapshotTouchesNoOtherChunk(m, w, seqNum, order, p);
      NothingShownOutside(w, p);
    }
    if ChunksSuit(m, w) {
      forall p ensures OwnerAt(r, p) == Shown(w, p) {
        if Home(p) in w { assert Restored(r, w, Home(p)); }
      }
    }
  }

  lemma NothingShownOutside(w: WorldV, p: Pos)
    requires ValidWorld(w) && Home(p) !in w
    ensures Shown(w, p) == 0
  {
  }

  /** No chunk has more than the 125 live cells that fit one packet. */
  ghost predicate Sparse(w: WorldV)
    requires ValidWorld(w)
  {
    forall c | c in w :: |Live(w[c])| <= 125
  }

  /** A fresh client that receives a snapshot of a sparse world shows exactly what the server does. */
  lemma SnapshotForFreshClient(w: WorldV, seqNum: u32, order: seq<Coord>)
    requires Enumerates(order, w) && Sparse(w) && forall d | d in order :: FitsCoord(d)
    ensures ApplyPackets(map[], FullPackets(seqNum, order, w)) == MirrorOf(Abs(w))
  {
    hide FullPackets, ApplyPackets, Shown, LiveEntries, Hit, FitsCoord, Home, LocalOf, Abs, MirrorOf;
    var r := ApplyPackets(map[], FullPackets(seqNum, order, w));
    forall p ensures OwnerAt(r, p) == OwnerAt(MirrorOf(Abs(w)), p) {
      FullShows(map[], w, seqNum, order, p);
      MirrorShows(w, p);
      if Shown(w, p) != 0 { ShownOnlyWhereLive(w, p); HitNonempty(Live(w[Home(p)]), LocalOf(p)); }
    }
    MirrorShows(w, Pos(0, 0));
    PacketsStayProper(map[], FullPackets(seqNum, order, w));
    MirrorsEqual(r, MirrorOf(Abs(w)));
  }

  lemma {:induction false} CellsStayProper(m: Mirror, c: Coord, us: seq<AliveCell>)
    requires Proper(m)
    ensures Proper(ApplyCells(m, c, us))
    decreases |us|
  {
    if us != [] { CellsStayProper(ApplyCell(m, c, us[0]), c, us[1..]); }
  }

  lemma {:induction false} PacketsStayProper(m: Mirror, ps: seq<Packet>)
    requires Proper(m)
    ensures Proper(ApplyPackets(m, ps))
    decreases |ps|
  {
    hide ToAlive, UpdatesOf, ApplyCells;
    if ps != [] {
      var q := ParsedOf(ps[0]);
      var n := if q.full then EraseChunk(m, q.chunk) else m;
      CellsStayProper(n, q.chunk, ToAlive(q.cells));
      PacketsStayProper(ApplyPacket(m, ps[0]), ps[1..]);
    }
  }
}
