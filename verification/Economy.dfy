/**
 Conservation laws of the economy. Placements and removals are counted by what a player's own
 commands visibly change on the plane, not by the branch the code takes.
 */
module Economy {
  import opened Types
  import opened Plane
  import opened Reference

  function Placed(s: State, cmd: PlayerCommand, id: PlayerId): nat {
    var p := Pos(cmd.x, cmd.y);
    if cmd.player == id && !Mine(s.plane, p, id) && Mine(Apply(s, cmd).plane, p, id) then 1 else 0
  }

  function Removed(s: State, cmd: PlayerCommand, id: PlayerId): nat {
    var p := Pos(cmd.x, cmd.y);
    if cmd.player == id && Mine(s.plane, p, id) && !Mine(Apply(s, cmd).plane, p, id) then 1 else 0
  }

  function BatchPlaced(s: State, cmds: seq<PlayerCommand>, id: PlayerId): nat
    decreases |cmds|
  {
    if cmds == [] then 0 else Placed(s, cmds[0], id) + BatchPlaced(Apply(s, cmds[0]), cmds[1..], id)
  }

  function BatchRemoved(s: State, cmds: seq<PlayerCommand>, id: PlayerId): nat
    decreases |cmds|
  {
    if cmds == [] then 0 else Removed(s, cmds[0], id) + BatchRemoved(Apply(s, cmds[0]), cmds[1..], id)
  }

  function Stepped(s: State): State {
    State(LifeStep(s.plane), s.balances)
  }

  function RunPlaced(s: State, es: seq<Event>, id: PlayerId): nat
    decreases |es|
  {
    if es == [] then 0 else
      (if es[0].Tick? then BatchPlaced(Stepped(s), es[0].batch, id) else 0)
      + RunPlaced(Next(s, es[0]), es[1..], id)
  }

  function RunRemoved(s: State, es: seq<Event>, id: PlayerId): nat
    decreases |es|
  {
    if es == [] then 0 else
      (if es[0].Tick? then BatchRemoved(Stepped(s), es[0].batch, id) else 0)
      + RunRemoved(Next(s, es[0]), es[1..], id)
  }

  /** The live cells the player has after the commands of each tick, summed over the run. */
  function RunIncome(s: State, es: seq<Event>, id: PlayerId): nat
    decreases |es|
  {
    if es == [] then 0 else
      (if es[0].Tick? then |OwnedBy(Play(s, es[0].batch).plane, id)| else 0)
      + RunIncome(Next(s, es[0]), es[1..], id)
  }

  lemma OwnedIsMine(m: Plane, id: PlayerId)
    ensures forall q :: q in OwnedBy(m, id) <==> Mine(m, q, id)
  {
  }

  lemma OwnedAfterPut(m: Plane, p: Pos, c: CellState, id: PlayerId)
    ensures |OwnedBy(Put(m, p, c), id)| + (if Mine(m, p, id) then 1 else 0)
            == |OwnedBy(m, id)| + (if Counted(c) && c.owner == id then 1 else 0)
  {
    hide Put, Counted;
    var n := Put(m, p, c);
    var rest := OwnedBy(m, id) - {p};
    OwnedIsMine(n, id);
    OwnedIsMine(m, id);
    assert forall q | q != p :: q in OwnedBy(n, id) <==> q in rest;
    assert p in OwnedBy(m, id) <==> Mine(m, p, id);
    assert p in OwnedBy(n, id) <==> Counted(c) && c.owner == id;
    assert OwnedBy(m, id) == if Mine(m, p, id) then rest + {p} else rest;
    assert OwnedBy(n, id) == if Counted(c) && c.owner == id then rest + {p} else rest;
  }

  /** A placement costs 2 and adds a cell, a removal pays 1 and takes one away; nothing else counts. */
  lemma CommandLedger(s: State, cmd: PlayerCommand, id: PlayerId)
    requires WellFormed(s) && cmd.player != 0 && id != 0
    ensures Balance(Apply(s, cmd).balances, id) + 2 * Placed(s, cmd, id)
            == Balance(s.balances, id) + Removed(s, cmd, id)
    ensures |OwnedBy(Apply(s, cmd).plane, id)| + Removed(s, cmd, id)
            == |OwnedBy(s.plane, id)| + Placed(s, cmd, id)
  {
    var p := Pos(cmd.x, cmd.y);
    OwnedAfterPut(s.plane, p, Edit(At(s.plane, p), cmd.player, cmd.kind, s.balances).cell, id);
  }

  /** Whether the code goes through with a command, in the player's terms. */
  predicate Accepts(s: State, cmd: PlayerCommand) {
    var cell := At(s.plane, Pos(cmd.x, cmd.y));
    || (cmd.kind != RemoveCell && !cell.alive && cmd.player in s.balances && s.balances[cmd.player] >= 2)
    || (cmd.kind != PlaceCell && cell.owner == cmd.player && cell.alive && cmd.player in s.balances)
  }

  /** An accepted command flips its own cell, any other command changes nothing at all. */
  lemma AcceptedOrNothing(s: State, cmd: PlayerCommand)
    requires WellFormed(s) && cmd.player != 0
    ensures var p, t := Pos(cmd.x, cmd.y), Apply(s, cmd);
            && (!Accepts(s, cmd) ==> t == s)
            && (Accepts(s, cmd) ==>
                  && At(t.plane, p) == (if At(s.plane, p).alive then DEAD else CellState(true, cmd.player))
                  && forall q | q != p :: At(t.plane, q) == At(s.plane, q))
  {
    var p, t := Pos(cmd.x, cmd.y), Apply(s, cmd);
    assert WellFormedCell(At(s.plane, p));
    if !Accepts(s, cmd) {
      forall q ensures At(t.plane, q) == At(s.plane, q) { }
      NormalPlanesEqual(t.plane, s.plane);
    }
  }

  /**
   The ledger of the player who sends a command balances exactly unless nobody, that is player 0,
   buys or sells an empty cell: such a placement is not theirs, and removing nothing pays all the same.
   */
  lemma LedgerFailsOnlyForNobody(s: State, cmd: PlayerCommand)
    requires WellFormed(s)
    ensures Balance(Apply(s, cmd).balances, cmd.player) + 2 * Placed(s, cmd, cmd.player)
            == Balance(s.balances, cmd.player) + Removed(s, cmd, cmd.player)
            <==> !(cmd.player == 0 && At(s.plane, Pos(cmd.x, cmd.y)).owner == 0
                   && 0 in s.balances && (cmd.kind == RemoveCell || s.balances[0] >= 2))
  {
    if cmd.player != 0 { CommandLedger(s, cmd, cmd.player); }
  }

  /** Player 0 earns one unit by removing an empty cell. */
  lemma RemovingNothingPaysNobody()
    ensures Apply(State(map[], map[0 := 10]), PlayerCommand(0, RemoveCell, 5, 5)) == State(map[], map[0 := 11])
  {
  }

  /**
   A live cell nobody owns, which only player 0 can leave behind: anybody can buy it like an empty one,
   anybody with an account is paid for switching it off, and nobody else than player 0 can remove it.
   */
  lemma NobodysCellIsForSale(s: State, cmd: PlayerCommand)
    requires cmd.player != 0 && At(s.plane, Pos(cmd.x, cmd.y)) == CellState(true, 0)
    ensures var p, b, id := Pos(cmd.x, cmd.y), s.balances, cmd.player;
            var sold, off := id in b && b[id] >= 2 && cmd.kind == PlaceCell, id in b && cmd.kind == ToggleCell;
            && At(Apply(s, cmd).plane, p) == (if sold then CellState(true, id) else if off then CellState(false, 0)
                                              else CellState(true, 0))
            && Apply(s, cmd).balances == if sold then b[id := b[id] - 2] else if off then b[id := b[id] + 1] else b
  {
  }

  /** No command touches the balance or the cells of a player who did not send it. */
  lemma OthersAreUntouched(s: State, cmd: PlayerCommand, id: PlayerId)
    requires id != 0 && cmd.player != id
    ensures Balance(Apply(s, cmd).balances, id) == Balance(s.balances, id)
    ensures id in Apply(s, cmd).balances <==> id in s.balances
    ensures forall p :: At(s.plane, p).owner == id || At(Apply(s, cmd).plane, p).owner == id ==>
              At(Apply(s, cmd).plane, p) == At(s.plane, p)
  {
  }

  /** Over a batch, balance plus live cells drops by exactly the number of placements. */
  lemma {:induction false} BatchLedger(s: State, cmds: seq<PlayerCommand>, id: PlayerId)
    requires WellFormed(s) && NonzeroPlayers(cmds) && id != 0
    ensures var t := ApplyAll(s, cmds);
            && Balance(t.balances, id) + 2 * BatchPlaced(s, cmds, id)
               == Balance(s.balances, id) + BatchRemoved(s, cmds, id)
            && Balance(t.balances, id) + |OwnedBy(t.plane, id)| + BatchPlaced(s, cmds, id)
               == Balance(s.balances, id) + |OwnedBy(s.plane, id)|
    decreases |cmds|
  {
    if cmds != [] {
      CommandLedger(s, cmds[0], id);
      CommandKeepsWellFormed(s, cmds[0]);
      BatchLedger(Apply(s, cmds[0]), cmds[1..], id);
    }
  }

  /** The income of a player is the number of the live cells that carry their id. */
  lemma IncomeIsLiveCells(m: Plane, id: PlayerId)
    requires id != 0
    ensures Balance(Income(m), id) == |set p | p in m && m[p].alive && m[p].owner == id|
  {
    IncomeIsLiveCount(m, id);
    assert OwnedBy(m, id) == set p | p in m && m[p].alive && m[p].owner == id;
  }

  lemma IncomeIsLiveCount(m: Plane, id: PlayerId)
    ensures Balance(Income(m), id) == |OwnedBy(m, id)|
  {
    if id !in Owners(m) { assert OwnedBy(m, id) == {}; }
  }

  lemma TickLedger(s: State, batch: seq<PlayerCommand>, id: PlayerId)
    requires WellFormed(s) && NonzeroPlayers(batch) && id != 0
    ensures Balance(Next(s, Tick(batch)).balances, id) + 2 * BatchPlaced(Stepped(s), batch, id)
            == Balance(s.balances, id) + BatchRemoved(Stepped(s), batch, id)
               + |OwnedBy(Play(s, batch).plane, id)|
  {
    LifeStepKeepsWellFormed(s);
    BatchLedger(Stepped(s), batch, id);
    IncomeIsLiveCount(Play(s, batch).plane, id);
  }

  /**
   Over any run in which the player does not join again: what they own now is what they started
   with, plus one per live cell and tick, plus one per removal, minus two per placement.
   */
  lemma {:induction false} RunLedger(s: State, es: seq<Event>, id: PlayerId)
    requires WellFormed(s) && NonzeroEvents(es) && id != 0 && Join(id) !in es
    ensures Balance(Run(s, es).balances, id) + 2 * RunPlaced(s, es, id)
            == Balance(s.balances, id) + RunIncome(s, es, id) + RunRemoved(s, es, id)
    decreases |es|
  {
    if es != [] {
      var t := Next(s, es[0]);
      RunKeepsWellFormed(s, es[..1]);
      assert Run(s, es[..1]) == Run(t, []);
      assert forall e | e in es[1..] :: e in es;
      assert es[0] in es;
      RunLedger(t, es[1..], id);
      if es[0].Tick? { TickLedger(s, es[0].batch, id); }
    }
  }

  /** The same from the moment of joining, with the starting balance of 10. */
  lemma LedgerSinceJoin(s: State, es: seq<Event>, id: PlayerId)
    requires WellFormed(s) && NonzeroEvents(es) && id != 0 && Join(id) !in es
    ensures var t := Next(s, Join(id));
            Balance(Run(s, [Join(id)] + es).balances, id)
            == 10 + RunIncome(t, es, id) + RunRemoved(t, es, id) - 2 * RunPlaced(t, es, id)
  {
    var t := Next(s, Join(id));
    assert ([Join(id)] + es)[1..] == es;
    RunLedger(t, es, id);
  }
}
