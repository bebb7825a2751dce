/**
 The game as a player understands it: ownership-aware Life on an infinite plane, with no chunks,
 buffers or borders. A plane is a finite map; a cell it does not mention is DEAD.
 */
module Plane {
  import opened Types

  type Plane = map<Pos, CellState>

  function At(m: Plane, p: Pos): CellState {
    if p in m then m[p] else DEAD
  }

  /** A plane with no redundant entries: two such planes are equal when their cells are. */
  ghost predicate Normal(m: Plane) {
    forall p | p in m :: m[p] != DEAD
  }

  function Put(m: Plane, p: Pos, c: CellState): (r: Plane)
    ensures forall q :: At(r, q) == if q == p then c else At(m, q)
    ensures Normal(m) ==> Normal(r)
  {
    if c == DEAD then m - {p} else m[p := c]
  }

  lemma NormalPlanesEqual(m: Plane, n: Plane)
    requires Normal(m) && Normal(n)
    requires forall p :: At(m, p) == At(n, p)
    ensures m == n
  {
    assert forall p :: p in m <==> At(m, p) != DEAD;
    assert forall p :: p in n <==> At(n, p) != DEAD;
    assert forall p | p in m :: m[p] == At(m, p) == At(n, p) == n[p];
  }

  // ---------------------------------------------------------------- the rule for one cell

  /** A neighbour takes part in a birth only when it is alive and owned. */
  predicate Counted(c: CellState) {
    c.alive && c.owner != 0
  }

  function LiveCount(ns: seq<CellState>): (n: nat)
    ensures n <= |ns|
  {
    if ns == [] then 0 else
      LiveCount(ns[..|ns| - 1]) + (if Counted(ns[|ns| - 1]) then 1 else 0)
  }

  function Votes(ns: seq<CellState>, id: PlayerId): nat {
    if ns == [] then 0 else
      var c := ns[|ns| - 1];
      Votes(ns[..|ns| - 1], id) + (if Counted(c) && c.owner == id then 1 else 0)
  }

  /** b has more votes than a, or as many and at least as large an id. */
  predicate Beats(ns: seq<CellState>, b: PlayerId, a: PlayerId) {
    Votes(ns, a) < Votes(ns, b) || (Votes(ns, a) == Votes(ns, b) && a <= b)
  }

  /** The best-placed owner among the first k neighbours, 0 if none is counted. */
  function Leader(ns: seq<CellState>, k: nat): (r: PlayerId)
    requires k <= |ns|
    ensures forall i | 0 <= i < k && Counted(ns[i]) :: Beats(ns, r, ns[i].owner)
    ensures r == 0 || exists i :: 0 <= i < k && Counted(ns[i]) && ns[i].owner == r
    ensures r == 0 ==> forall i | 0 <= i < k :: !Counted(ns[i])
  {
    if k == 0 then 0 else
      var a := Leader(ns, k - 1);
      var c := ns[k - 1];
      NobodyVotesZero(ns);
      if Counted(c) && Beats(ns, c.owner, a) then c.owner else a
  }

  function Majority(ns: seq<CellState>): PlayerId {
    Leader(ns, |ns|)
  }

  function NextCell(c: CellState, ns: seq<CellState>): CellState {
    var n := LiveCount(ns);
    if c.alive then
      if n == 2 || n == 3 then c else DEAD
    else
      if n == 3 then CellState(true, Majority(ns)) else c
  }

  lemma {:induction false} NobodyVotesZero(ns: seq<CellState>)
    ensures Votes(ns, 0) == 0
  {
    if ns != [] { NobodyVotesZero(ns[..|ns| - 1]); }
  }

  lemma {:induction false} VotesWitness(ns: seq<CellState>, id: PlayerId)
    ensures Votes(ns, id) > 0 <==> exists i :: 0 <= i < |ns| && Counted(ns[i]) && ns[i].owner == id
  {
    if ns != [] {
      var front := ns[..|ns| - 1];
      VotesWitness(front, id);
      assert forall i | 0 <= i < |front| :: front[i] == ns[i];
      if Votes(front, id) > 0 {
        var i :| 0 <= i < |front| && Counted(front[i]) && front[i].owner == id;
        assert Counted(ns[i]) && ns[i].owner == id;
      }
    }
  }

  lemma {:induction false} LiveCountWitness(ns: seq<CellState>)
    ensures LiveCount(ns) > 0 <==> exists i :: 0 <= i < |ns| && Counted(ns[i])
  {
    if ns != [] {
      var front := ns[..|ns| - 1];
      LiveCountWitness(front);
      assert forall i | 0 <= i < |front| :: front[i] == ns[i];
      if LiveCount(front) > 0 {
        var i :| 0 <= i < |front| && Counted(front[i]);
        assert Counted(ns[i]);
      }
    }
  }

  function Voters(ns: seq<CellState>, id: PlayerId): set<nat> {
    set i: nat | i < |ns| && Counted(ns[i]) && ns[i].owner == id
  }

  function AllVoters(ns: seq<CellState>): set<nat> {
    set i: nat | i < |ns| && Counted(ns[i])
  }

  /** The two counts are numbers of neighbours, whatever the order of the scan. */
  lemma {:induction false} VotesAreCounted(ns: seq<CellState>, id: PlayerId)
    ensures Votes(ns, id) == |Voters(ns, id)|
  {
    if ns == [] {
      assert Voters(ns, id) == {};
    } else {
      var last := |ns| - 1;
      VotesAreCounted(ns[..last], id);
      assert forall i: nat | i < last :: ns[..last][i] == ns[i];
      assert Voters(ns, id) == Voters(ns[..last], id) +
                               (if Counted(ns[last]) && ns[last].owner == id then {last} else {});
    }
  }

  lemma {:induction false} LiveCountIsCounted(ns: seq<CellState>)
    ensures LiveCount(ns) == |AllVoters(ns)|
  {
    if ns == [] {
      assert AllVoters(ns) == {};
    } else {
      var last := |ns| - 1;
      LiveCountIsCounted(ns[..last]);
      assert forall i: nat | i < last :: ns[..last][i] == ns[i];
      assert AllVoters(ns) == AllVoters(ns[..last]) + (if Counted(ns[last]) then {last} else {});
    }
  }

  lemma AtMostOneLive(ns: seq<CellState>)
    requires forall i, j | 0 <= i < j < |ns| :: !(Counted(ns[i]) && Counted(ns[j]))
    ensures LiveCount(ns) <= 1
  {
    if ns != [] { LiveCountWitness(ns[..|ns| - 1]); }
  }

  lemma VotesAppend(ns: seq<CellState>, c: CellState, id: PlayerId)
    ensures Votes(ns + [c], id) == Votes(ns, id) + (if Counted(c) && c.owner == id then 1 else 0)
    ensures LiveCount(ns + [c]) == LiveCount(ns) + (if Counted(c) then 1 else 0)
  {
    assert (ns + [c])[..|ns|] == ns;
  }

  /** With a counted neighbour, the majority owner is a neighbour's owner and (votes, id)-greatest. */
  lemma MajorityIsGreatest(ns: seq<CellState>, id: PlayerId)
    requires LiveCount(ns) > 0
    ensures Majority(ns) != 0
    ensures exists i :: 0 <= i < |ns| && Counted(ns[i]) && ns[i].owner == Majority(ns)
    ensures Beats(ns, Majority(ns), id)
  {
    LiveCountWitness(ns);
    VotesWitness(ns, id);
  }

  /** Being (votes, id)-greatest determines the owner. */
  lemma MajorityUnique(ns: seq<CellState>, r: PlayerId)
    requires LiveCount(ns) > 0
    requires forall id: PlayerId :: Beats(ns, r, id)
    ensures r == Majority(ns)
  {
    MajorityIsGreatest(ns, r);
    assert Beats(ns, r, Majority(ns));
  }

  // ---------------------------------------------------------------- the whole plane

  /** The eight positions around p, row by row. */
  function Around(p: Pos): (r: seq<Pos>)
    ensures |r| == 8
  {
    [Pos(p.x - 1, p.y - 1), Pos(p.x, p.y - 1), Pos(p.x + 1, p.y - 1),
     Pos(p.x - 1, p.y), Pos(p.x + 1, p.y),
     Pos(p.x - 1, p.y + 1), Pos(p.x, p.y + 1), Pos(p.x + 1, p.y + 1)]
  }

  function CellsAround(m: Plane, p: Pos): (r: seq<CellState>)
    ensures |r| == 8
  {
    [At(m, Pos(p.x - 1, p.y - 1)), At(m, Pos(p.x, p.y - 1)), At(m, Pos(p.x + 1, p.y - 1)),
     At(m, Pos(p.x - 1, p.y)), At(m, Pos(p.x + 1, p.y)),
     At(m, Pos(p.x - 1, p.y + 1)), At(m, Pos(p.x, p.y + 1)), At(m, Pos(p.x + 1, p.y + 1))]
  }

  function NextAt(m: Plane, p: Pos): CellState {
    NextCell(At(m, p), CellsAround(m, p))
  }

  function Reach(m: Plane): set<Pos> {
    m.Keys + set q, i | q in m.Keys && 0 <= i < 8 :: Around(q)[i]
  }

  function LifeStep(m: Plane): Plane {
    map p | p in Reach(m) && NextAt(m, p) != DEAD :: NextAt(m, p)
  }

  lemma AroundSymmetric(p: Pos, i: nat)
    requires i < 8
    ensures Around(Around(p)[i])[7 - i] == p
  {
  }

  lemma OutOfReachStaysDead(m: Plane, p: Pos)
    requires p !in Reach(m)
    ensures NextAt(m, p) == DEAD
  {
    var ns := CellsAround(m, p);
    forall i | 0 <= i < 8 ensures ns[i] == DEAD {
      var q := Around(p)[i];
      AroundSymmetric(p, i);
      assert Around(q)[7 - i] == p;
      assert q !in m.Keys;
      assert ns[i] == At(m, q);
    }
    LiveCountWitness(ns);
  }

  /** LifeStep is the simultaneous application of the rule to every cell of the infinite plane. */
  lemma LifeStepEverywhere(m: Plane, p: Pos)
    ensures At(LifeStep(m), p) == NextAt(m, p)
    ensures Normal(LifeStep(m))
  {
    if p !in Reach(m) { OutOfReachStaysDead(m, p); }
  }

  predicate FarApart(p: Pos, q: Pos) {
    p.x - q.x > 2 || q.x - p.x > 2 || p.y - q.y > 2 || q.y - p.y > 2
  }

  lemma AroundIsClose(p: Pos, i: nat, j: nat)
    requires i < j < 8
    ensures Around(p)[i] != Around(p)[j] && !FarApart(Around(p)[i], Around(p)[j])
  {
  }

  ghost predicate Lonely(m: Plane) {
    && (forall p | p in m :: m[p].alive)
    && forall p, q | p in m && q in m && p != q :: FarApart(p, q)
  }

  lemma LonelyNeighbours(m: Plane, p: Pos)
    requires Lonely(m)
    ensures LiveCount(CellsAround(m, p)) <= 1
  {
    hide LiveCount, FarApart;
    var ns := CellsAround(m, p);
    forall i, j | 0 <= i < j < 8 ensures !(Counted(ns[i]) && Counted(ns[j])) {
      AroundIsClose(p, i, j);
      CellsAroundAre(m, p, i);
      CellsAroundAre(m, p, j);
    }
    AtMostOneLive(ns);
  }

  lemma CellsAroundAre(m: Plane, p: Pos, i: nat)
    requires i < 8
    ensures CellsAround(m, p)[i] == At(m, Around(p)[i])
  {
  }

  /** Live cells with no other within two steps all die, and nothing is born. */
  lemma LonelyCellsDie(m: Plane)
    requires Lonely(m)
    ensures LifeStep(m) == map[]
  {
    hide LiveCount, CellsAround, Reach, Majority;
    forall p ensures NextAt(m, p) == DEAD { LonelyNeighbours(m, p); }
  }

  // ---------------------------------------------------------------- the rule, counted on the plane

  /** q is one of the eight positions around p. */
  predicate Touches(p: Pos, q: Pos) {
    q != p && -1 <= q.x - p.x <= 1 && -1 <= q.y - p.y <= 1
  }

  /** The positions around p with a live cell that somebody owns. */
  function LiveAround(m: Plane, p: Pos): set<Pos> {
    set q | q in m && Touches(p, q) && m[q].alive && m[q].owner != 0
  }

  /** Those of them that player id owns. */
  function OwnedAround(m: Plane, p: Pos, id: PlayerId): set<Pos> {
    set q | q in LiveAround(m, p) && m[q].owner == id
  }

  function PositionsOf(p: Pos, indices: set<nat>): set<Pos>
    requires forall i | i in indices :: i < 8
  {
    set i | i in indices :: Around(p)[i]
  }

  lemma {:induction false} PositionsSize(p: Pos, indices: set<nat>)
    requires forall i | i in indices :: i < 8
    ensures |PositionsOf(p, indices)| == |indices|
    decreases indices
  {
    hide Around;
    if indices != {} {
      var i :| i in indices;
      var rest := indices - {i};
      PositionsSize(p, rest);
      forall j | j in rest ensures Around(p)[j] != Around(p)[i] { AroundIsInjective(p, i, j); }
      assert PositionsOf(p, indices) == PositionsOf(p, rest) + {Around(p)[i]};
    }
  }

  lemma AroundIsInjective(p: Pos, i: nat, j: nat)
    requires i < 8 && j < 8 && i != j
    ensures Around(p)[i] != Around(p)[j]
  {
  }

  lemma AroundTouches(p: Pos, q: Pos)
    ensures Touches(p, q) <==> exists i :: 0 <= i < 8 && Around(p)[i] == q
  {
    if Touches(p, q) {
      var k := (q.y - p.y + 1) * 3 + (q.x - p.x + 1);
      assert Around(p)[if k < 4 then k else k - 1] == q;
    }
  }

  /** The counts over the list of neighbours are cardinalities of sets of positions. */
  lemma CountsArePositions(m: Plane, p: Pos, id: PlayerId)
    ensures LiveCount(CellsAround(m, p)) == |LiveAround(m, p)|
    ensures Votes(CellsAround(m, p), id) == |OwnedAround(m, p, id)|
  {
    hide LiveCount, Votes, Around, Touches, CellsAround;
    var ns := CellsAround(m, p);
    LiveCountIsCounted(ns);
    VotesAreCounted(ns, id);
    forall i: nat | i < 8 ensures ns[i] == At(m, Around(p)[i]) { CellsAroundAre(m, p, i); }
    forall q ensures Touches(p, q) <==> exists i :: 0 <= i < 8 && Around(p)[i] == q { AroundTouches(p, q); }
    assert PositionsOf(p, AllVoters(ns)) == LiveAround(m, p);
    assert PositionsOf(p, Voters(ns, id)) == OwnedAround(m, p, id);
    PositionsSize(p, AllVoters(ns));
    PositionsSize(p, Voters(ns, id));
  }

  /**
   The rule of the game: with n live owned cells around it, a live cell stays as it is if n is 2 or 3
   and dies otherwise; a dead one is born if n is 3, to the player who owns most of the three, the one
   with the largest id if several do, and stays as it is otherwise.
   */
  lemma LifeStepIsTheRule(m: Plane, p: Pos)
    ensures var n, old', new' := |LiveAround(m, p)|, At(m, p), At(LifeStep(m), p);
            && (old'.alive ==> new' == if n == 2 || n == 3 then old' else CellState(false, 0))
            && (!old'.alive && n != 3 ==> new' == old')
            && (!old'.alive && n == 3 ==>
                  && new'.alive && OwnedAround(m, p, new'.owner) != {}
                  && forall id: PlayerId ::
                       var mine, theirs := |OwnedAround(m, p, new'.owner)|, |OwnedAround(m, p, id)|;
                       theirs < mine || (theirs == mine && id <= new'.owner))
  {
    hide LiveCount, Votes, Majority, CellsAround, LifeStep, LiveAround, OwnedAround;
    var ns := CellsAround(m, p);
    LifeStepEverywhere(m, p);
    CountsArePositions(m, p, 0);
    if LiveCount(ns) == 3 {
      forall id: PlayerId ensures Beats(ns, Majority(ns), id) && Votes(ns, id) == |OwnedAround(m, p, id)| {
        MajorityIsGreatest(ns, id);
        CountsArePositions(m, p, id);
      }
      MajorityIsGreatest(ns, 0);
      VotesWitness(ns, Majority(ns));
      assert |OwnedAround(m, p, Majority(ns))| > 0;
    }
  }
}
