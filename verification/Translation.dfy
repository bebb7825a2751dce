/** The game looks the same from everywhere: shifting every command shifts the whole run. */
module Translation {
  import opened Types
  import opened Plane
  import opened Reference

  function Move(p: Pos, d: Pos): Pos {
    Pos(p.x + d.x, p.y + d.y)
  }

  function Back(p: Pos, d: Pos): Pos {
    Pos(p.x - d.x, p.y - d.y)
  }

  lemma MoveBack(p: Pos, d: Pos)
    ensures Back(Move(p, d), d) == p && Move(Back(p, d), d) == p
  {
  }

  function MoveSet(a: set<Pos>, d: Pos): set<Pos> {
    set p | p in a :: Move(p, d)
  }

  lemma InMoveSet(a: set<Pos>, d: Pos, q: Pos)
    ensures q in MoveSet(a, d) <==> Back(q, d) in a
  {
    hide Back;
    MoveBack(q, d);
    if q in MoveSet(a, d) {
      var p :| p in a && Move(p, d) == q;
      MoveBack(p, d);
    }
  }

  lemma {:induction false} MoveSetSize(a: set<Pos>, d: Pos)
    ensures |MoveSet(a, d)| == |a|
    decreases a
  {
    hide Move, Back;
    if a != {} {
      var p :| p in a;
      var rest := a - {p};
      MoveSetSize(rest, d);
      assert MoveSet(a, d) == MoveSet(rest, d) + {Move(p, d)};
      InMoveSet(rest, d, Move(p, d));
      MoveBack(p, d);
    }
  }

  function MovePlane(m: Plane, d: Pos): Plane {
    map q | q in MoveSet(m.Keys, d) && Back(q, d) in m :: m[Back(q, d)]
  }

  lemma MovedAt(m: Plane, d: Pos, q: Pos)
    ensures At(MovePlane(m, d), q) == At(m, Back(q, d))
    ensures q in MovePlane(m, d) <==> Back(q, d) in m
  {
    hide MoveSet, Back;
    InMoveSet(m.Keys, d, q);
  }

  function MoveCommand(c: PlayerCommand, d: Pos): PlayerCommand {
    PlayerCommand(c.player, c.kind, c.x + d.x, c.y + d.y)
  }

  function MoveBatch(cmds: seq<PlayerCommand>, d: Pos): (r: seq<PlayerCommand>)
    ensures |r| == |cmds|
    ensures forall i | 0 <= i < |cmds| ::
              r[i] == PlayerCommand(cmds[i].player, cmds[i].kind, cmds[i].x + d.x, cmds[i].y + d.y)
  {
    seq(|cmds|, i requires 0 <= i < |cmds| => MoveCommand(cmds[i], d))
  }

  function MoveEvent(e: Event, d: Pos): Event {
    match e
    case Join(id) => Join(id)
    case Tick(batch) => Tick(MoveBatch(batch, d))
  }

  function MoveEvents(es: seq<Event>, d: Pos): (r: seq<Event>)
    ensures |r| == |es|
    ensures forall i | 0 <= i < |es| :: r[i] == MoveEvent(es[i], d)
  {
    seq(|es|, i requires 0 <= i < |es| => MoveEvent(es[i], d))
  }

  function MoveState(s: State, d: Pos): State {
    State(MovePlane(s.plane, d), s.balances)
  }

  lemma MoveKeepsNormal(m: Plane, d: Pos)
    requires Normal(m)
    ensures Normal(MovePlane(m, d))
  {
    hide MovePlane, Back;
    forall q | q in MovePlane(m, d) ensures MovePlane(m, d)[q] != DEAD { MovedAt(m, d, q); }
  }

  lemma MovedPlaneIs(m: Plane, d: Pos, n: Plane)
    requires Normal(m) && Normal(n)
    requires forall q :: At(n, q) == At(m, Back(q, d))
    ensures MovePlane(m, d) == n
  {
    hide MovePlane, Back;
    MoveKeepsNormal(m, d);
    forall q ensures At(MovePlane(m, d), q) == At(n, q) { MovedAt(m, d, q); }
    NormalPlanesEqual(MovePlane(m, d), n);
  }

  lemma MovedCellsAround(m: Plane, d: Pos, q: Pos)
    ensures CellsAround(MovePlane(m, d), q) == CellsAround(m, Back(q, d))
  {
    hide MovePlane, At;
    MovedAt(m, d, Pos(q.x - 1, q.y - 1)); MovedAt(m, d, Pos(q.x, q.y - 1)); MovedAt(m, d, Pos(q.x + 1, q.y - 1));
    MovedAt(m, d, Pos(q.x - 1, q.y)); MovedAt(m, d, Pos(q.x + 1, q.y));
    MovedAt(m, d, Pos(q.x - 1, q.y + 1)); MovedAt(m, d, Pos(q.x, q.y + 1)); MovedAt(m, d, Pos(q.x + 1, q.y + 1));
  }

  lemma MoveLifeStep(m: Plane, d: Pos)
    requires Normal(m)
    ensures MovePlane(LifeStep(m), d) == LifeStep(MovePlane(m, d))
  {
    hide LifeStep, NextCell, MovePlane, Back, CellsAround;
    var moved := MovePlane(m, d);
    forall q ensures At(LifeStep(moved), q) == At(LifeStep(m), Back(q, d)) {
      LifeStepEverywhere(m, Back(q, d));
      LifeStepEverywhere(moved, q);
      MovedCellsAround(m, d, q);
      MovedAt(m, d, q);
    }
    LifeStepEverywhere(m, d);
    LifeStepEverywhere(moved, d);
    MovedPlaneIs(LifeStep(m), d, LifeStep(moved));
  }

  lemma MoveApply(s: State, c: PlayerCommand, d: Pos)
    requires Normal(s.plane)
    ensures Normal(Apply(s, c).plane)
    ensures MoveState(Apply(s, c), d) == Apply(MoveState(s, d), MoveCommand(c, d))
  {
    hide Edit, MovePlane;
    var p, q := Pos(c.x, c.y), Pos(c.x + d.x, c.y + d.y);
    var cell := Edit(At(s.plane, p), c.player, c.kind, s.balances).cell;
    MovedAt(s.plane, d, q);
    MoveKeepsNormal(s.plane, d);
    var n := Put(MovePlane(s.plane, d), q, cell);
    forall r ensures At(n, r) == At(Put(s.plane, p, cell), Back(r, d)) { MovedAt(s.plane, d, r); }
    MovedPlaneIs(Put(s.plane, p, cell), d, n);
  }

  lemma {:induction false} MoveApplyAll(s: State, cmds: seq<PlayerCommand>, d: Pos)
    requires Normal(s.plane)
    ensures Normal(ApplyAll(s, cmds).plane)
    ensures MoveState(ApplyAll(s, cmds), d) == ApplyAll(MoveState(s, d), MoveBatch(cmds, d))
    decreases |cmds|
  {
    hide MoveState, MoveCommand, Apply;
    if cmds != [] {
      MoveApply(s, cmds[0], d);
      MoveApplyAll(Apply(s, cmds[0]), cmds[1..], d);
      assert MoveBatch(cmds, d)[1..] == MoveBatch(cmds[1..], d);
    }
  }

  lemma MoveOwnedBy(m: Plane, d: Pos, id: PlayerId)
    ensures OwnedBy(MovePlane(m, d), id) == MoveSet(OwnedBy(m, id), d)
  {
    hide MovePlane, MoveSet, Back, Counted;
    forall q ensures q in OwnedBy(MovePlane(m, d), id) <==> q in MoveSet(OwnedBy(m, id), d) {
      InMoveSet(OwnedBy(m, id), d, q);
      MovedAt(m, d, q);
    }
  }

  lemma MoveIncome(m: Plane, d: Pos)
    ensures Income(MovePlane(m, d)) == Income(m)
  {
    hide MovePlane, MoveSet, Owners, OwnedBy;
    var n := MovePlane(m, d);
    forall id: PlayerId
      ensures |OwnedBy(n, id)| == |OwnedBy(m, id)| && (id in Owners(n) <==> id in Owners(m))
    {
      MoveOwnedBy(m, d, id);
      MoveSetSize(OwnedBy(m, id), d);
      OwnersHaveCells(m, id);
      OwnersHaveCells(n, id);
    }
    assert Owners(n) == Owners(m);
  }

  lemma MoveNext(s: State, e: Event, d: Pos)
    requires Normal(s.plane)
    ensures Normal(Next(s, e).plane)
    ensures MoveState(Next(s, e), d) == Next(MoveState(s, d), MoveEvent(e, d))
  {
    hide LifeStep, MovePlane, Income, Award, ApplyAll, MoveBatch;
    if e.Tick? {
      LifeStepEverywhere(s.plane, d);
      MoveLifeStep(s.plane, d);
      var s1 := State(LifeStep(s.plane), s.balances);
      MoveApplyAll(s1, e.batch, d);
      MoveIncome(ApplyAll(s1, e.batch).plane, d);
    }
  }

  /** Shifting every command by any vector shifts the whole run and leaves the balances alone. */
  lemma {:induction false} RunIsTranslationInvariant(s: State, es: seq<Event>, d: Pos)
    requires Normal(s.plane)
    ensures MoveState(Run(s, es), d) == Run(MoveState(s, d), MoveEvents(es, d))
    decreases |es|
  {
    hide MoveState, MoveEvent, Next;
    if es != [] {
      MoveNext(s, es[0], d);
      RunIsTranslationInvariant(Next(s, es[0]), es[1..], d);
      assert MoveEvents(es, d)[1..] == MoveEvents(es[1..], d);
    }
  }

  /** n is m shifted by d. */
  ghost predicate Shifted(m: Plane, n: Plane, d: Pos) {
    forall q: Pos, r: Pos | r.x == q.x + d.x && r.y == q.y + d.y :: At(n, r) == At(m, q)
  }

  lemma ShiftedIsMoved(m: Plane, n: Plane, d: Pos)
    requires Normal(m) && Normal(n)
    ensures Shifted(m, n, d) <==> n == MovePlane(m, d)
  {
    hide Normal, At, MovePlane;
    if Shifted(m, n, d) {
      forall q ensures At(n, q) == At(m, Back(q, d)) { }
      MovedPlaneIs(m, d, n);
    }
    if n == MovePlane(m, d) {
      forall q: Pos, r: Pos | r.x == q.x + d.x && r.y == q.y + d.y ensures At(n, r) == At(m, q) {
        MovedAt(m, d, r);
        assert Back(r, d) == q;
      }
    }
  }

  /** From shifted planes, runs with shifted commands end in shifted planes and the same balances. */
  lemma RunShifts(s: State, t: State, es: seq<Event>, d: Pos)
    requires Normal(s.plane) && Normal(t.plane) && s.balances == t.balances && Shifted(s.plane, t.plane, d)
    ensures Shifted(Run(s, es).plane, Run(t, MoveEvents(es, d)).plane, d)
    ensures Run(t, MoveEvents(es, d)).balances == Run(s, es).balances
  {
    hide Run, MoveEvents, Normal, MovePlane, Shifted;
    ShiftedIsMoved(s.plane, t.plane, d);
    RunIsTranslationInvariant(s, es, d);
    RunStaysNormal(s, es);
    MoveKeepsNormal(Run(s, es).plane, d);
    ShiftedIsMoved(Run(s, es).plane, Run(t, MoveEvents(es, d)).plane, d);
  }

  lemma {:induction false} RunStaysNormal(s: State, es: seq<Event>)
    requires Normal(s.plane)
    ensures Normal(Run(s, es).plane)
    decreases |es|
  {
    hide Normal, Next;
    if es != [] {
      MoveNext(s, es[0], Pos(0, 0));
      RunStaysNormal(Next(s, es[0]), es[1..]);
    }
  }
}
