/**
 The chunkless reference machine: a plane and the players' balances, changed by joins and by ticks
 (one Life step, then the tick's commands in order, then income), and what every run of it keeps.
 */
module Reference {
  import opened Types
  import opened Plane

  type Balances = map<PlayerId, nat>

  const PLACE_COST: nat := 2
  const REMOVE_AWARD: nat := 1
  const START_BALANCE: nat := 10

  function Balance(b: Balances, id: PlayerId): nat {
    if id in b then b[id] else 0
  }

  predicate CanPay(b: Balances, id: PlayerId, amount: nat) {
    id in b && b[id] >= amount
  }

  /** What a command does to its cell and to the purses. */
  datatype Outcome = Outcome(cell: CellState, balances: Balances)

  function Edit(cell: CellState, player: PlayerId, kind: CommandType, b: Balances): Outcome {
    match kind
    case PlaceCell =>
      if cell.owner == 0 && CanPay(b, player, PLACE_COST)
      then Outcome(CellState(true, player), b[player := b[player] - PLACE_COST])
      else Outcome(cell, b)
    case RemoveCell =>
      if cell.owner == player && player in b
      then Outcome(DEAD, b[player := b[player] + REMOVE_AWARD])
      else Outcome(cell, b)
    case ToggleCell =>
      if cell.owner != 0 && cell.owner != player then Outcome(cell, b)
      else if cell.alive && player in b
      then Outcome(DEAD, b[player := b[player] + REMOVE_AWARD])
      else if !cell.alive && CanPay(b, player, PLACE_COST)
      then Outcome(CellState(true, player), b[player := b[player] - PLACE_COST])
      else Outcome(cell, b)
  }

  datatype State = State(plane: Plane, balances: Balances)

  datatype Event = Join(id: PlayerId) | Tick(batch: seq<PlayerCommand>)

  function Apply(s: State, cmd: PlayerCommand): State {
    var p := Pos(cmd.x, cmd.y);
    var o := Edit(At(s.plane, p), cmd.player, cmd.kind, s.balances);
    State(Put(s.plane, p, o.cell), o.balances)
  }

  function ApplyAll(s: State, cmds: seq<PlayerCommand>): State
    decreases |cmds|
  {
    if cmds == [] then s else ApplyAll(Apply(s, cmds[0]), cmds[1..])
  }

  /** Cell p counts towards the income of player id. */
  predicate Mine(m: Plane, p: Pos, id: PlayerId) {
    Counted(At(m, p)) && At(m, p).owner == id
  }

  function OwnedBy(m: Plane, id: PlayerId): set<Pos> {
    set p | p in m && Mine(m, p, id)
  }

  function Owners(m: Plane): set<PlayerId> {
    set p | p in m && Counted(m[p]) :: m[p].owner
  }

  function Income(m: Plane): Balances {
    map id | id in Owners(m) :: |OwnedBy(m, id)|
  }

  function Award(b: Balances, income: Balances): Balances {
    map id | id in b.Keys + income.Keys :: Balance(b, id) + Balance(income, id)
  }

  function PayIncome(s: State): State {
    State(s.plane, Award(s.balances, Income(s.plane)))
  }

  /** A tick up to and including its commands, before income is paid. */
  function Play(s: State, batch: seq<PlayerCommand>): State {
    ApplyAll(State(LifeStep(s.plane), s.balances), batch)
  }

  function Next(s: State, e: Event): State {
    match e
    case Join(id) => State(s.plane, s.balances[id := START_BALANCE])
    case Tick(batch) => PayIncome(Play(s, batch))
  }

  function Run(s: State, es: seq<Event>): State
    decreases |es|
  {
    if es == [] then s else Run(Next(s, es[0]), es[1..])
  }

  lemma OwnersHaveCells(m: Plane, id: PlayerId)
    ensures id in Owners(m) <==> |OwnedBy(m, id)| > 0
  {
    if id in Owners(m) {
      var p :| p in m && Counted(m[p]) && m[p].owner == id;
      assert p in OwnedBy(m, id);
    }
    if |OwnedBy(m, id)| > 0 {
      var p :| p in OwnedBy(m, id);
      assert m[p].owner == id;
    }
  }

  /** A batch is worked off in order: first its one part, then its other. */
  lemma {:induction false} BatchInOrder(s: State, a: seq<PlayerCommand>, b: seq<PlayerCommand>)
    ensures ApplyAll(s, a + b) == ApplyAll(ApplyAll(s, a), b)
    decreases |a|
  {
    hide Apply;
    if a == [] {
      assert a + b == b;
    } else {
      assert (a + b)[1..] == a[1..] + b;
      BatchInOrder(Apply(s, a[0]), a[1..], b);
    }
  }

  lemma {:induction false} RunInOrder(s: State, es: seq<Event>, fs: seq<Event>)
    ensures Run(s, es + fs) == Run(Run(s, es), fs)
    decreases |es|
  {
    hide Next;
    if es == [] {
      assert es + fs == fs;
    } else {
      assert (es + fs)[1..] == es[1..] + fs;
      RunInOrder(Next(s, es[0]), es[1..], fs);
    }
  }

  /** Of two players who want the same empty cell in one batch, the first gets it. */
  lemma FirstComeFirstServed(s: State, p: Pos, a: PlayerId, b: PlayerId)
    requires a != 0 && At(s.plane, p) == DEAD && a in s.balances && s.balances[a] >= 2
    ensures At(ApplyAll(s, [PlayerCommand(a, PlaceCell, p.x, p.y), PlayerCommand(b, PlaceCell, p.x, p.y)]).plane, p)
            == CellState(true, a)
  {
    var c, d := PlayerCommand(a, PlaceCell, p.x, p.y), PlayerCommand(b, PlaceCell, p.x, p.y);
    assert [c, d] == [c] + [d] && [c][1..] == [] && [d][1..] == [];
    BatchInOrder(s, [c], [d]);
    assert ApplyAll(s, [c]) == Apply(s, c);
    assert ApplyAll(Apply(s, c), [d]) == Apply(Apply(s, c), d);
  }

  // ---------------------------------------------------------------- well-formed states

  predicate WellFormedCell(c: CellState) {
    c.alive <==> c.owner != 0
  }

  /** Live means owned, and whoever owns a live cell has an account. */
  ghost predicate WellFormed(s: State) {
    && Normal(s.plane)
    && (forall p | p in s.plane :: WellFormedCell(s.plane[p]))
    && (forall p | p in s.plane :: s.plane[p].alive ==> s.plane[p].owner in s.balances)
  }

  ghost predicate NonzeroPlayers(cmds: seq<PlayerCommand>) {
    forall i | 0 <= i < |cmds| :: cmds[i].player != 0
  }

  ghost predicate NonzeroEvents(es: seq<Event>) {
    forall i | 0 <= i < |es| :: es[i].Tick? ==> NonzeroPlayers(es[i].batch)
  }

  /** The only way a command breaks a well-formed state: player 0 paying for an empty cell. */
  predicate NobodysPlacement(s: State, cmd: PlayerCommand) {
    && cmd.player == 0 && cmd.kind != RemoveCell
    && At(s.plane, Pos(cmd.x, cmd.y)).owner == 0
    && CanPay(s.balances, 0, PLACE_COST)
  }

  lemma CommandKeepsWellFormed(s: State, cmd: PlayerCommand)
    requires WellFormed(s)
    ensures WellFormed(Apply(s, cmd)) <==> !NobodysPlacement(s, cmd)
  {
    var p := Pos(cmd.x, cmd.y);
    var t := Apply(s, cmd);
    assert At(t.plane, p) == Edit(At(s.plane, p), cmd.player, cmd.kind, s.balances).cell;
    assert forall q | q in t.plane :: t.plane[q] == At(t.plane, q);
    if NobodysPlacement(s, cmd) {
      assert t.plane[p] == CellState(true, 0);
    }
  }

  lemma {:induction false} BatchKeepsWellFormed(s: State, cmds: seq<PlayerCommand>)
    requires WellFormed(s) && NonzeroPlayers(cmds)
    ensures WellFormed(ApplyAll(s, cmds))
    decreases |cmds|
  {
    if cmds != [] {
      CommandKeepsWellFormed(s, cmds[0]);
      BatchKeepsWellFormed(Apply(s, cmds[0]), cmds[1..]);
    }
  }

  lemma LifeStepKeepsWellFormed(s: State)
    requires WellFormed(s)
    ensures WellFormed(State(LifeStep(s.plane), s.balances))
  {
    hide LiveCount, Majority;
    var m := LifeStep(s.plane);
    LifeStepEverywhere(s.plane, Pos(0, 0));
    forall p | p in m
      ensures WellFormedCell(m[p]) && (m[p].alive ==> m[p].owner in s.balances)
    {
      LifeStepEverywhere(s.plane, p);
      var ns := CellsAround(s.plane, p);
      if LiveCount(ns) == 3 { BirthOwnerIsANeighbour(s, p); }
    }
  }

  lemma BirthOwnerIsANeighbour(s: State, p: Pos)
    requires WellFormed(s) && LiveCount(CellsAround(s.plane, p)) > 0
    ensures Majority(CellsAround(s.plane, p)) != 0
    ensures Majority(CellsAround(s.plane, p)) in s.balances
  {
    hide LiveCount, Majority;
    var ns := CellsAround(s.plane, p);
    MajorityIsGreatest(ns, 0);
    var i :| 0 <= i < |ns| && Counted(ns[i]) && ns[i].owner == Majority(ns);
    assert ns[i] == At(s.plane, Around(p)[i]);
  }

  lemma OwnersHaveAccounts(s: State)
    requires WellFormed(s)
    ensures Owners(s.plane) <= s.balances.Keys
    ensures Award(s.balances, Income(s.plane)).Keys == s.balances.Keys
  {
  }

  /** Every reachable state is well formed, and ticks never open accounts. */
  lemma {:induction false} RunKeepsWellFormed(s: State, es: seq<Event>)
    requires WellFormed(s) && NonzeroEvents(es)
    ensures WellFormed(Run(s, es))
    ensures forall id | id in Run(s, es).balances :: id in s.balances || Join(id) in es
    decreases |es|
  {
    if es != [] {
      var t := Next(s, es[0]);
      if es[0].Tick? {
        LifeStepKeepsWellFormed(s);
        BatchKeepsWellFormed(State(LifeStep(s.plane), s.balances), es[0].batch);
        BatchKeepsAccounts(State(LifeStep(s.plane), s.balances), es[0].batch);
        OwnersHaveAccounts(Play(s, es[0].batch));
      }
      assert forall id | id in t.balances :: id in s.balances || es[0] == Join(id);
      RunKeepsWellFormed(t, es[1..]);
      assert forall e | e in es[1..] :: e in es;
    }
  }

  lemma {:induction false} BatchKeepsAccounts(s: State, cmds: seq<PlayerCommand>)
    ensures ApplyAll(s, cmds).balances.Keys == s.balances.Keys
    decreases |cmds|
  {
    if cmds != [] { BatchKeepsAccounts(Apply(s, cmds[0]), cmds[1..]); }
  }
}
