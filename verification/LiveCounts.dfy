/** Adding up the chunks' live counts gives each player's live cells on the whole plane. */
module LiveCounts {
  import opened Types
  import opened Plane
  import opened Chunks
  import opened Coordinates
  import opened WorldSpec
  import opened Reference
  import Resources

  /** The cells of player id in the chunks cs. */
  ghost function CellsOf(w: WorldV, cs: set<Coord>, id: PlayerId): set<Pos>
    requires ValidWorld(w) && cs <= w.Keys
  {
    set c, l | c in cs && l in AllLocals() && Owns(w[c], l, id) :: CellPos(c, l)
  }

  lemma InCellsOf(w: WorldV, cs: set<Coord>, id: PlayerId, p: Pos)
    requires ValidWorld(w) && cs <= w.Keys
    ensures p in CellsOf(w, cs, id) <==> Home(p) in cs && Owns(w[Home(p)], LocalOf(p), id)
  {
    hide Home, LocalOf, CellPos, Owns;
    assert LocalOf(p) in AllLocals();
    SplitJoin(p, Home(p), LocalOf(p));
    if p in CellsOf(w, cs, id) {
      var c, l :| c in cs && l in AllLocals() && Owns(w[c], l, id) && CellPos(c, l) == p;
      SplitJoin(p, c, l);
    }
  }

  ghost function Placed(c: Coord, ls: set<Local>): set<Pos> {
    set l | l in ls :: CellPos(c, l)
  }

  lemma {:induction false} PlacedSize(c: Coord, ls: set<Local>)
    requires ls <= AllLocals()
    ensures |Placed(c, ls)| == |ls|
    decreases ls
  {
    hide CellPos;
    if ls != {} {
      var l :| l in ls;
      var rest := ls - {l};
      PlacedSize(c, rest);
      assert Placed(c, ls) == Placed(c, rest) + {CellPos(c, l)};
      forall m | m in rest ensures CellPos(c, m) != CellPos(c, l) {
        SplitJoin(CellPos(c, m), c, m);
        SplitJoin(CellPos(c, m), c, l);
      }
    }
  }

  lemma OneMoreChunk(w: WorldV, done: set<Coord>, c: Coord, id: PlayerId)
    requires ValidWorld(w) && done <= w.Keys && c in w && c !in done
    ensures |CellsOf(w, done + {c}, id)| == |CellsOf(w, done, id)| + |OwnedLocals(w[c], id, WIDTH * WIDTH)|
  {
    hide Home, LocalOf, Owns, Rank, CellsOf;
    var ls := OwnedLocals(w[c], id, WIDTH * WIDTH);
    PlacedSize(c, ls);
    forall p
      ensures p in CellsOf(w, done + {c}, id) <==> p in CellsOf(w, done, id) || p in Placed(c, ls)
      ensures !(p in CellsOf(w, done, id) && p in Placed(c, ls))
    {
      InCellsOf(w, done + {c}, id, p);
      InCellsOf(w, done, id, p);
      InPlaced(w, c, id, p);
    }
    assert CellsOf(w, done + {c}, id) == CellsOf(w, done, id) + Placed(c, ls);
    assert CellsOf(w, done, id) !! Placed(c, ls);
  }

  lemma InPlaced(w: WorldV, c: Coord, id: PlayerId, p: Pos)
    requires ValidWorld(w) && c in w
    ensures p in Placed(c, OwnedLocals(w[c], id, WIDTH * WIDTH)) <==> Home(p) == c && Owns(w[c], LocalOf(p), id)
  {
    hide Home, LocalOf, CellPos, Owns, Rank;
    var l := LocalOf(p);
    RankBound(l);
    assert l in AllLocals();
    SplitJoin(p, Home(p), l);
    if p in Placed(c, OwnedLocals(w[c], id, WIDTH * WIDTH)) {
      var m :| m in OwnedLocals(w[c], id, WIDTH * WIDTH) && CellPos(c, m) == p;
      SplitJoin(p, c, m);
    }
  }

  /** totals is the number of cells per owner in the chunks done so far. */
  ghost predicate TotalsUpTo(w: WorldV, totals: map<PlayerId, nat>, done: set<Coord>)
    requires ValidWorld(w) && done <= w.Keys
  {
    forall id: PlayerId ::
      && (id in totals <==> |CellsOf(w, done, id)| > 0)
      && (id in totals ==> totals[id] == |CellsOf(w, done, id)|)
  }

  lemma TotalsStart(w: WorldV)
    requires ValidWorld(w)
    ensures TotalsUpTo(w, map[], {})
  {
    forall id: PlayerId ensures |CellsOf(w, {}, id)| == 0 { assert CellsOf(w, {}, id) == {}; }
  }

  lemma TotalsGrow(w: WorldV, totals: map<PlayerId, nat>, done: set<Coord>, c: Coord, counts: map<PlayerId, nat>)
    requires ValidWorld(w) && done <= w.Keys && c in w && c !in done
    requires TotalsUpTo(w, totals, done) && CountsUpTo(w[c], counts, WIDTH * WIDTH)
    ensures TotalsUpTo(w, Award(totals, counts), done + {c})
  {
    hide CellsOf, OwnedLocals;
    forall id: PlayerId
      ensures |CellsOf(w, done + {c}, id)| == Balance(totals, id) + Balance(counts, id)
      ensures id in counts <==> |OwnedLocals(w[c], id, WIDTH * WIDTH)| > 0
    {
      OneMoreChunk(w, done, c, id);
    }
  }

  lemma CellsOfAllChunks(w: WorldV, id: PlayerId)
    requires ValidWorld(w)
    ensures CellsOf(w, w.Keys, id) == OwnedBy(Abs(w), id)
  {
    hide Home, LocalOf, Counted, Abs, CellsOf;
    forall p ensures p in CellsOf(w, w.Keys, id) <==> p in OwnedBy(Abs(w), id) {
      InCellsOf(w, w.Keys, id, p);
      AbsAt(w, p);
      CountedIsPresent(Abs(w), p);
    }
  }

  lemma CountedIsPresent(m: Plane, p: Pos)
    ensures Counted(At(m, p)) ==> p in m
  {
  }

  lemma TotalsAreIncome(w: WorldV, totals: map<PlayerId, nat>)
    requires ValidWorld(w) && TotalsUpTo(w, totals, w.Keys)
    ensures totals == Income(Abs(w))
  {
    hide CellsOf, OwnedBy, Owners, Abs;
    forall id: PlayerId
      ensures |CellsOf(w, w.Keys, id)| == |OwnedBy(Abs(w), id)|
      ensures id in Owners(Abs(w)) <==> |OwnedBy(Abs(w), id)| > 0
    {
      CellsOfAllChunks(w, id);
      OwnersHaveCells(Abs(w), id);
    }
    assert totals.Keys == Owners(Abs(w));
  }

  /** The accumulating inner loop over one chunk's counts, in any order. */
  method AddCounts(totals: map<PlayerId, nat>, counts: map<PlayerId, nat>) returns (sum: map<PlayerId, nat>)
    ensures sum == Award(totals, counts)
  {
    sum := totals;
    var todo := counts.Keys;
    while todo != {}
      invariant todo <= counts.Keys
      invariant sum == Award(totals, counts - todo)
    {
      var id :| id in todo;
      Resources.AwardOne(totals, counts, todo, id);
      sum := sum[id := (if id in sum then sum[id] else 0) + counts[id]];
      todo := todo - {id};
    }
    assert counts - todo == counts;
  }
}
