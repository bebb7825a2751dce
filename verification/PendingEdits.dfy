/**
 The client's queue of edits (client/src/GameWindow.cpp): a click is admitted against the mirror and
 the known balance, and the queue is later sent in whatever order the hash map yields.
 */
module PendingEdits {
  import opened Types
  import opened Plane
  import opened Reference
  import opened Economy
  import opened Client
  import opened Mirroring

  type Pending = map<Pos, CommandType>

  function WillSpend(action: CommandType, owner: PlayerId): nat {
    match action
    case PlaceCell => if owner == 0 then PLACE_COST else 0
    case ToggleCell => if owner == 0 then PLACE_COST else 0
    case RemoveCell => 0
  }

  predicate IsAllowed(action: CommandType, owner: PlayerId, me: PlayerId) {
    match action
    case PlaceCell => owner == 0
    case RemoveCell => owner == me
    case ToggleCell => owner == 0 || owner == me
  }

  /** The queued edits that will cost something. */
  function Spending(edits: Pending, mirror: Mirror): set<Pos> {
    set p | p in edits && WillSpend(edits[p], OwnerAt(mirror, p)) != 0
  }

  function QueuedSpend(edits: Pending, mirror: Mirror): nat {
    PLACE_COST * |Spending(edits, mirror)|
  }

  /** Every queued edit is permitted, and together they cost no more than the balance, if known. */
  ghost predicate Admitted(edits: Pending, mirror: Mirror, me: PlayerId, balance: Option<nat>) {
    && (forall p | p in edits :: IsAllowed(edits[p], OwnerAt(mirror, p), me))
    && (balance.Some? ==> QueuedSpend(edits, mirror) <= balance.value)
  }

  /** What a click has to pass: permission, and the queue's cost with it. */
  predicate Admits(edits: Pending, mirror: Mirror, me: PlayerId, balance: Option<nat>,
                   action: CommandType, owner: PlayerId)
  {
    && IsAllowed(action, owner, me)
    && (balance.Some? ==> QueuedSpend(edits, mirror) + WillSpend(action, owner) <= balance.value)
  }

  lemma SpendIs(action: CommandType, owner: PlayerId)
    ensures WillSpend(action, owner) == 0 || WillSpend(action, owner) == PLACE_COST
  {
  }

  lemma SpendingAfterInsert(edits: Pending, mirror: Mirror, p: Pos, action: CommandType)
    ensures QueuedSpend(edits[p := action], mirror)
            <= QueuedSpend(edits, mirror) + WillSpend(action, OwnerAt(mirror, p))
  {
    hide WillSpend, OwnerAt;
    SpendIs(action, OwnerAt(mirror, p));
    var before, after := Spending(edits, mirror), Spending(edits[p := action], mirror);
    var rest := before - {p};
    assert after == if WillSpend(action, OwnerAt(mirror, p)) != 0 then rest + {p} else rest;
    SubsetSize(rest, before);
  }

  lemma SpendingAfterErase(edits: Pending, mirror: Mirror, p: Pos)
    ensures QueuedSpend(edits - {p}, mirror) <= QueuedSpend(edits, mirror)
  {
    assert Spending(edits - {p}, mirror) == Spending(edits, mirror) - {p};
  }

  class GameWindow {
    const me: PlayerId
    const model: WorldModel
    var balance: Option<nat>
    var pending: Pending

    constructor (player: PlayerId, worldModel: WorldModel)
      ensures me == player && model == worldModel && balance == None && pending == map[]
    {
      me, model, balance, pending := player, worldModel, None, map[];
    }

    /** The loop over the queue that adds up what it will cost. */
    method SumQueuedSpend() returns (spend: nat)
      ensures spend == QueuedSpend(pending, model.aliveCells)
    {
      spend := 0;
      var todo := pending.Keys;
      ghost var counted: set<Pos> := {};
      while todo != {}
        invariant todo <= pending.Keys
        invariant counted == set p | p in pending && p !in todo &&
                                     WillSpend(pending[p], OwnerAt(model.aliveCells, p)) != 0
        invariant spend == PLACE_COST * |counted|
      {
        var p :| p in todo;
        var cost := WillSpend(pending[p], OwnerAt(model.aliveCells, p));
        if cost != 0 {
          counted := counted + {p};
        }
        spend := spend + cost;
        todo := todo - {p};
      }
      assert counted == Spending(pending, model.aliveCells);
    }

    /** A click in queue mode: refused, toggled out of the queue, or (re)queued. */
    method OnGridCellClicked(action: CommandType, x: int, y: int) returns (accepted: bool)
      modifies `pending
      ensures var mirror, p := model.aliveCells, Pos(x, y);
              var owner := OwnerAt(mirror, p);
              && (accepted <==> Admits(old(pending), mirror, me, balance, action, owner))
              && pending == (if !accepted then old(pending)
                             else if p in old(pending) && old(pending)[p] == action then old(pending) - {p}
                             else old(pending)[p := action])
      ensures Admitted(old(pending), model.aliveCells, me, balance) ==>
                Admitted(pending, model.aliveCells, me, balance)
    {
      var p := Pos(x, y);
      var owner := OwnerAt(model.aliveCells, p);
      if !IsAllowed(action, owner, me) {
        return false;
      }
      if balance.Some? {
        var queuedSpend := SumQueuedSpend();
        if queuedSpend + WillSpend(action, owner) > balance.value {
          return false;
        }
      }
      SpendingAfterInsert(pending, model.aliveCells, p, action);
      SpendingAfterErase(pending, model.aliveCells, p);
      if p in pending && pending[p] == action {
        pending := pending - {p};
      } else {
        pending := pending[p := action];
      }
      accepted := true;
    }

    /** sendAction checks an edit once more, against the mirror and the whole balance. */
    method SendAction(action: CommandType, p: Pos) returns (cmd: Option<PlayerCommand>)
      ensures cmd == if Passes(action, OwnerAt(model.aliveCells, p), me, balance)
                     then Some(PlayerCommand(me, action, p.x, p.y)) else None
    {
      var owner := OwnerAt(model.aliveCells, p);
      match action
      case PlaceCell =>
        if owner != 0 || (balance.Some? && balance.value < PLACE_COST) { return None; }
        return Some(PlayerCommand(me, action, p.x, p.y));
      case RemoveCell =>
        if owner != me { return None; }
        return Some(PlayerCommand(me, action, p.x, p.y));
      case ToggleCell =>
        if owner != 0 && owner != me { return None; }
        if balance.Some? && owner == 0 && balance.value < PLACE_COST { return None; }
        return Some(PlayerCommand(me, action, p.x, p.y));
    }

    /**
     Sends the queue in the map's order, leaving out what no longer passes, and empties it. An admitted
     queue is sent complete.
     */
    method ApplyPendingEdits() returns (sent: seq<PlayerCommand>, ghost order: seq<Pos>)
      modifies `pending
      ensures pending == map[] && OrderOf(order, old(pending))
      ensures sent == SentFor(me, old(pending), model.aliveCells, balance, order)
      ensures Admitted(old(pending), model.aliveCells, me, balance) ==> sent == CommandsFor(me, old(pending), order)
    {
      ghost var edits := pending;
      sent, order := [], [];
      var todo := pending.Keys;
      while todo != {}
        invariant pending == edits && todo <= edits.Keys
        invariant forall p :: p in order <==> p in edits && p !in todo
        invariant DistinctPositions(order)
        invariant sent == SentFor(me, edits, model.aliveCells, balance, order)
      {
        var p :| p in todo;
        var cmd := SendAction(pending[p], p);
        assert p !in order;
        SentForGrows(me, edits, model.aliveCells, balance, order, p);
        if cmd.Some? {
          sent := sent + [cmd.value];
        }
        order := order + [p];
        todo := todo - {p};
      }
      pending := map[];
      if Admitted(edits, model.aliveCells, me, balance) {
        AdmittedQueueIsSentComplete(edits, model.aliveCells, me, balance, order);
      }
    }
  }

  /** The edit still passes the checks made when it is sent. */
  predicate Passes(action: CommandType, owner: PlayerId, me: PlayerId, balance: Option<nat>) {
    && IsAllowed(action, owner, me)
    && (balance.Some? && WillSpend(action, owner) != 0 ==> balance.value >= PLACE_COST)
  }

  /** The commands of those queued edits that pass, in the given order. */
  function SentFor(me: PlayerId, edits: Pending, mirror: Mirror, balance: Option<nat>, order: seq<Pos>)
    : seq<PlayerCommand>
    requires forall p | p in order :: p in edits
    decreases |order|
  {
    if order == [] then [] else
      var p := order[0];
      (if Passes(edits[p], OwnerAt(mirror, p), me, balance) then [PlayerCommand(me, edits[p], p.x, p.y)] else [])
      + SentFor(me, edits, mirror, balance, order[1..])
  }

  lemma {:induction false} SentForGrows(me: PlayerId, edits: Pending, mirror: Mirror, balance: Option<nat>,
                                        order: seq<Pos>, p: Pos)
    requires (forall q | q in order :: q in edits) && p in edits
    ensures forall q | q in order + [p] :: q in edits
    ensures SentFor(me, edits, mirror, balance, order + [p])
            == SentFor(me, edits, mirror, balance, order)
               + (if Passes(edits[p], OwnerAt(mirror, p), me, balance) then [PlayerCommand(me, edits[p], p.x, p.y)]
                  else [])
    decreases |order|
  {
    hide Passes;
    if order == [] {
      assert [p][1..] == [];
    } else {
      assert (order + [p])[1..] == order[1..] + [p];
      SentForGrows(me, edits, mirror, balance, order[1..], p);
    }
  }

  lemma {:induction false} AdmittedQueueIsSentComplete(edits: Pending, mirror: Mirror, me: PlayerId,
                                                       balance: Option<nat>, order: seq<Pos>)
    requires Admitted(edits, mirror, me, balance) && forall p | p in order :: p in edits
    ensures SentFor(me, edits, mirror, balance, order) == CommandsFor(me, edits, order)
    decreases |order|
  {
    hide IsAllowed, WillSpend, QueuedSpend;
    if order != [] {
      var p := order[0];
      assert p in order && forall q | q in order[1..] :: q in order;
      SpendingIsAffordable(edits, mirror, p);
      AdmittedQueueIsSentComplete(edits, mirror, me, balance, order[1..]);
      assert CommandsFor(me, edits, order)[1..] == CommandsFor(me, edits, order[1..]);
    }
  }

  lemma SpendingIsAffordable(edits: Pending, mirror: Mirror, p: Pos)
    requires p in edits
    ensures WillSpend(edits[p], OwnerAt(mirror, p)) != 0 ==> QueuedSpend(edits, mirror) >= PLACE_COST
  {
    if WillSpend(edits[p], OwnerAt(mirror, p)) != 0 {
      assert p in Spending(edits, mirror);
      assert Spending(edits, mirror) != {};
    }
  }

  ghost predicate DistinctPositions(order: seq<Pos>) {
    forall i, j | 0 <= i < j < |order| :: order[i] != order[j]
  }

  ghost predicate OrderOf(order: seq<Pos>, edits: Pending) {
    DistinctPositions(order) && forall p :: p in order <==> p in edits
  }

  function CommandsFor(me: PlayerId, edits: Pending, order: seq<Pos>): (r: seq<PlayerCommand>)
    requires forall p | p in order :: p in edits
    ensures |r| == |order|
    ensures forall i | 0 <= i < |order| :: r[i] == PlayerCommand(me, edits[order[i]], order[i].x, order[i].y)
  {
    seq(|order|, i requires 0 <= i < |order| => PlayerCommand(me, edits[order[i]], order[i].x, order[i].y))
  }

  // ---------------------------------------------------------------- on the server

  /** The state the player expects: every queued cell flipped, each placement paid, each removal awarded. */
  ghost predicate Expected(s: State, t: State, me: PlayerId, edits: set<Pos>) {
    && (forall p :: At(t.plane, p) ==
          if p !in edits then At(s.plane, p)
          else if At(s.plane, p).alive then DEAD else CellState(true, me))
    && t.balances.Keys == s.balances.Keys
    && (forall id | id in s.balances && id != me :: t.balances[id] == s.balances[id])
    && me in s.balances
    && t.balances[me] + 2 * |Placements(s.plane, edits)|
       == s.balances[me] + |edits - Placements(s.plane, edits)|
  }

  ghost function Placements(m: Plane, edits: set<Pos>): set<Pos> {
    set p | p in edits && !At(m, p).alive
  }

  /** The client mirrors the server's plane and knows its balance. */
  ghost predicate InSync(s: State, mirror: Mirror, me: PlayerId, balance: Option<nat>) {
    && WellFormed(s) && me != 0 && me in s.balances
    && mirror == MirrorOf(s.plane) && balance == Some(s.balances[me])
  }

  lemma MirrorOwner(s: State, p: Pos)
    requires WellFormed(s)
    ensures OwnerAt(MirrorOf(s.plane), p) == At(s.plane, p).owner
    ensures WellFormedCell(At(s.plane, p))
  {
  }

  /** A permitted edit that can be paid for flips its cell. */
  lemma PermittedEditFlips(cell: CellState, me: PlayerId, kind: CommandType, b: Balances)
    requires WellFormedCell(cell) && me != 0 && me in b && IsAllowed(kind, cell.owner, me)
    requires !cell.alive ==> b[me] >= PLACE_COST
    ensures Edit(cell, me, kind, b)
            == if cell.alive then Outcome(DEAD, b[me := b[me] + REMOVE_AWARD])
               else Outcome(CellState(true, me), b[me := b[me] - PLACE_COST])
  {
  }

  /** One more edit that flips its cell, after those in done. */
  lemma OneMoreFlip(s: State, t: State, me: PlayerId, done: set<Pos>, p: Pos, kind: CommandType)
    requires Expected(s, t, me, done) && p !in done
    requires !At(s.plane, p).alive ==> t.balances[me] >= PLACE_COST
    requires Edit(At(t.plane, p), me, kind, t.balances)
             == if At(s.plane, p).alive then Outcome(DEAD, t.balances[me := t.balances[me] + REMOVE_AWARD])
                else Outcome(CellState(true, me), t.balances[me := t.balances[me] - PLACE_COST])
    ensures Expected(s, Apply(t, PlayerCommand(me, kind, p.x, p.y)), me, done + {p})
  {
    hide Edit, Placements, At;
    PlacementsGrow(s.plane, done, p);
  }

  /** One more admitted edit: the server accepts it. */
  lemma EditAccepted(s: State, t: State, mirror: Mirror, me: PlayerId, balance: Option<nat>,
                     edits: Pending, done: set<Pos>, p: Pos)
    requires InSync(s, mirror, me, balance) && Admitted(edits, mirror, me, balance)
    requires Expected(s, t, me, done) && p in edits && p !in done && done <= edits.Keys
    ensures Expected(s, Apply(t, PlayerCommand(me, edits[p], p.x, p.y)), me, done + {p})
  {
    hide MirrorOf, Edit, Apply, WellFormed, Placements, QueuedSpend;
    MirrorOwner(s, p);
    assert At(t.plane, p) == At(s.plane, p);
    assert IsAllowed(edits[p], OwnerAt(mirror, p), me);
    if !At(s.plane, p).alive {
      forall q | q in edits && edits[q] == RemoveCell ensures At(s.plane, q).alive { MirrorOwner(s, q); }
      AffordableNext(s, edits, done, p);
    }
    PermittedEditFlips(At(s.plane, p), me, edits[p], t.balances);
    OneMoreFlip(s, t, me, done, p, edits[p]);
  }

  lemma {:induction false} EditsAccepted(s: State, t: State, mirror: Mirror, me: PlayerId, balance: Option<nat>,
                                         edits: Pending, done: set<Pos>, order: seq<Pos>)
    requires InSync(s, mirror, me, balance) && Admitted(edits, mirror, me, balance)
    requires Expected(s, t, me, done) && done <= edits.Keys
    requires DistinctPositions(order) && forall p | p in order :: p in edits && p !in done
    ensures Expected(s, ApplyAll(t, CommandsFor(me, edits, order)), me, done + Elements(order))
    decreases |order|
  {
    hide InSync, Admitted, Expected, Apply;
    if order == [] {
      assert done + Elements(order) == done;
    } else {
      var p, rest := order[0], order[1..];
      assert p in order && forall q | q in rest :: q in order;
      EditAccepted(s, t, mirror, me, balance, edits, done, p);
      var cmds := CommandsFor(me, edits, order);
      assert cmds[1..] == CommandsFor(me, edits, rest);
      assert p !in rest;
      EditsAccepted(s, Apply(t, cmds[0]), mirror, me, balance, edits, done + {p}, rest);
      assert done + {p} + Elements(rest) == done + Elements(order);
    }
  }

  /**
   A client in sync with the server whose queue was admitted: whatever order the queue is sent in, the
   server accepts every edit, and all orders lead to the same plane and the same balances.
   */
  lemma AdmittedQueueIsAccepted(s: State, mirror: Mirror, me: PlayerId, balance: Option<nat>,
                                edits: Pending, order: seq<Pos>)
    requires InSync(s, mirror, me, balance) && Admitted(edits, mirror, me, balance) && OrderOf(order, edits)
    ensures Expected(s, ApplyAll(s, CommandsFor(me, edits, order)), me, edits.Keys)
  {
    hide Admitted;
    assert Expected(s, s, me, {}) by { assert Placements(s.plane, {}) == {}; }
    EditsAccepted(s, s, mirror, me, balance, edits, {}, order);
    assert {} + Elements(order) == edits.Keys;
  }

  /** What is expected is one state only. */
  lemma ExpectedIsUnique(s: State, a: State, b: State, me: PlayerId, edits: set<Pos>)
    requires Expected(s, a, me, edits) && Expected(s, b, me, edits) && Normal(a.plane) && Normal(b.plane)
    ensures a == b
  {
    hide Placements, Normal;
    NormalPlanesEqual(a.plane, b.plane);
    assert forall id | id in s.balances :: a.balances[id] == b.balances[id];
  }

  lemma OrderDoesNotMatter(s: State, mirror: Mirror, me: PlayerId, balance: Option<nat>,
                           edits: Pending, order: seq<Pos>, other: seq<Pos>)
    requires InSync(s, mirror, me, balance) && Admitted(edits, mirror, me, balance)
    requires OrderOf(order, edits) && OrderOf(other, edits)
    ensures ApplyAll(s, CommandsFor(me, edits, order)) == ApplyAll(s, CommandsFor(me, edits, other))
  {
    hide Admitted, CommandsFor, Expected, ApplyAll, MirrorOf;
    AdmittedQueueIsAccepted(s, mirror, me, balance, edits, order);
    AdmittedQueueIsAccepted(s, mirror, me, balance, edits, other);
    AppliedStaysNormal(s, CommandsFor(me, edits, order));
    AppliedStaysNormal(s, CommandsFor(me, edits, other));
    ExpectedIsUnique(s, ApplyAll(s, CommandsFor(me, edits, order)), ApplyAll(s, CommandsFor(me, edits, other)),
                     me, edits.Keys);
  }

  lemma {:induction false} AppliedStaysNormal(s: State, cmds: seq<PlayerCommand>)
    requires Normal(s.plane)
    ensures Normal(ApplyAll(s, cmds).plane)
    decreases |cmds|
  {
    hide Edit, Normal;
    if cmds != [] { AppliedStaysNormal(Apply(s, cmds[0]), cmds[1..]); }
  }

  lemma PlacementsGrow(m: Plane, done: set<Pos>, p: Pos)
    requires p !in done
    ensures |Placements(m, done + {p})| == |Placements(m, done)| + (if At(m, p).alive then 0 else 1)
    ensures |(done + {p}) - Placements(m, done + {p})|
            == |done - Placements(m, done)| + (if At(m, p).alive then 1 else 0)
  {
    hide At;
    var a, b := Placements(m, done), Placements(m, done + {p});
    if At(m, p).alive {
      assert b == a;
      assert (done + {p}) - b == (done - a) + {p};
    } else {
      assert b == a + {p};
      assert (done + {p}) - b == done - a;
    }
  }

  /** The placements already made plus this one are part of what was admitted. */
  lemma AffordableNext(s: State, edits: Pending, done: set<Pos>, p: Pos)
    requires WellFormed(s) && p in edits && p !in done && done <= edits.Keys && !At(s.plane, p).alive
    requires forall q | q in edits :: edits[q] == RemoveCell ==> At(s.plane, q).alive
    ensures PLACE_COST * (|Placements(s.plane, done)| + 1) <= QueuedSpend(edits, MirrorOf(s.plane))
  {
    hide MirrorOf;
    var a := Placements(s.plane, done) + {p};
    forall q | q in a ensures q in Spending(edits, MirrorOf(s.plane)) { MirrorOwner(s, q); }
    SubsetSize(a, Spending(edits, MirrorOf(s.plane)));
    assert |a| == |Placements(s.plane, done)| + 1;
  }

  // ---------------------------------------------------------------- admission is acceptance

  /** What the client permits and could pay for on its own is exactly what the server would accept. */
  lemma PermittedIsAccepted(s: State, mirror: Mirror, me: PlayerId, balance: Option<nat>, p: Pos, kind: CommandType)
    requires InSync(s, mirror, me, balance)
    ensures Accepts(s, PlayerCommand(me, kind, p.x, p.y))
            <==> IsAllowed(kind, OwnerAt(mirror, p), me) && (OwnerAt(mirror, p) == 0 ==> balance.value >= 2)
  {
    hide MirrorOf, WellFormed;
    MirrorOwner(s, p);
  }

  /** An edit is sent exactly if the server would accept it as its next command. */
  lemma PassesIsAccepted(s: State, mirror: Mirror, me: PlayerId, balance: Option<nat>, p: Pos, kind: CommandType)
    requires InSync(s, mirror, me, balance)
    ensures Passes(kind, OwnerAt(mirror, p), me, balance) <==> Accepts(s, PlayerCommand(me, kind, p.x, p.y))
  {
    hide InSync;
    PermittedIsAccepted(s, mirror, me, balance, p, kind);
    assert balance.Some? && me != 0 by { KnownBalance(s, mirror, me, balance); }
  }

  lemma KnownBalance(s: State, mirror: Mirror, me: PlayerId, balance: Option<nat>)
    requires InSync(s, mirror, me, balance)
    ensures me != 0 && me in s.balances && balance == Some(s.balances[me])
  {
  }

  /** An admitted queue costs 2 for each of its empty cells. */
  lemma QueueCost(s: State, mirror: Mirror, me: PlayerId, balance: Option<nat>, edits: Pending)
    requires InSync(s, mirror, me, balance) && Admitted(edits, mirror, me, balance)
    ensures QueuedSpend(edits, mirror) == 2 * |Placements(s.plane, edits.Keys)|
  {
    hide MirrorOf, WellFormed, InSync;
    KnownBalance(s, mirror, me, balance);
    forall p ensures p in Spending(edits, mirror) <==> p in Placements(s.plane, edits.Keys) {
      if p in edits { SpendsOnEmpty(s, mirror, me, balance, edits, p); }
    }
    assert Spending(edits, mirror) == Placements(s.plane, edits.Keys);
  }

  lemma SpendsOnEmpty(s: State, mirror: Mirror, me: PlayerId, balance: Option<nat>, edits: Pending, p: Pos)
    requires InSync(s, mirror, me, balance) && Admitted(edits, mirror, me, balance) && p in edits
    ensures WillSpend(edits[p], OwnerAt(mirror, p)) != 0 <==> !At(s.plane, p).alive
  {
    hide MirrorOf, WellFormed, QueuedSpend;
    MirrorOwner(s, p);
    assert IsAllowed(edits[p], OwnerAt(mirror, p), me);
  }

  /**
   A click on top of an admitted queue is refused exactly when the server would refuse the edit or the
   balance does not cover 2 for every empty cell queued so far and, once more, for this one.
   */
  lemma ClickIsAdmittedExactly(s: State, mirror: Mirror, me: PlayerId, balance: Option<nat>, edits: Pending,
                               p: Pos, kind: CommandType)
    requires InSync(s, mirror, me, balance) && Admitted(edits, mirror, me, balance)
    ensures Admits(edits, mirror, me, balance, kind, OwnerAt(mirror, p))
            <==> && Accepts(s, PlayerCommand(me, kind, p.x, p.y))
                 && 2 * |Placements(s.plane, edits.Keys)| + (if At(s.plane, p).alive then 0 else 2) <= s.balances[me]
  {
    hide MirrorOf, WellFormed, InSync, QueuedSpend, Placements, Admitted, Accepts;
    KnownBalance(s, mirror, me, balance);
    PermittedIsAccepted(s, mirror, me, balance, p, kind);
    QueueCost(s, mirror, me, balance, edits);
    InSyncOwner(s, mirror, me, balance, p);
  }

  lemma InSyncOwner(s: State, mirror: Mirror, me: PlayerId, balance: Option<nat>, p: Pos)
    requires InSync(s, mirror, me, balance)
    ensures OwnerAt(mirror, p) == At(s.plane, p).owner && WellFormedCell(At(s.plane, p))
  {
    hide MirrorOf, WellFormed;
    MirrorOwner(s, p);
  }
}
