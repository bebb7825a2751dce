/** The players' balances (server/src/ResourceManager.cpp). */
module Resources {
  import opened Types
  import opened Reference

  class ResourceManager {
    var balances: Balances

    constructor ()
      ensures balances == map[]
    {
      balances := map[];
    }

    /** A player who joins again starts over: the balance is overwritten. */
    method AddPlayer(id: PlayerId) returns (balance: nat)
      modifies this
      ensures balances == old(balances)[id := 10] && balance == 10
    {
      balances := balances[id := START_BALANCE];
      balance := balances[id];
    }

    method GetBalance(id: PlayerId) returns (balance: nat)
      ensures balance == if id in balances then balances[id] else 0
    {
      if id !in balances {
        return 0;
      }
      balance := balances[id];
    }

    method TrySpend(id: PlayerId, amount: nat) returns (ok: bool)
      modifies this
      ensures ok <==> id in old(balances) && old(balances)[id] >= amount
      ensures balances == if ok then old(balances)[id := old(balances)[id] - amount] else old(balances)
    {
      if id !in balances || balances[id] < amount {
        return false;
      }
      balances := balances[id := balances[id] - amount];
      ok := true;
    }

    method AwardPlayer(id: PlayerId, amount: nat) returns (ok: bool)
      modifies this
      ensures ok <==> id in old(balances)
      ensures balances == if ok then old(balances)[id := old(balances)[id] + amount] else old(balances)
    {
      if id !in balances {
        return false;
      }
      balances := balances[id := balances[id] + amount];
      ok := true;
    }

    /** Pays every listed player one unit per live cell, whatever the order of the list. */
    method AwardFromLiveCounts(liveCounts: map<PlayerId, nat>)
      modifies this
      ensures balances == Award(old(balances), liveCounts)
      ensures balances.Keys == old(balances.Keys) + liveCounts.Keys
      ensures forall id | id in balances ::
                balances[id] == (if id in old(balances) then old(balances)[id] else 0)
                                + (if id in liveCounts then liveCounts[id] else 0)
    {
      var todo := liveCounts.Keys;
      while todo != {}
        invariant todo <= liveCounts.Keys
        invariant balances == Award(old(balances), liveCounts - todo)
      {
        var id :| id in todo;
        AwardOne(old(balances), liveCounts, todo, id);
        balances := balances[id := (if id in balances then balances[id] else 0) + liveCounts[id]];
        todo := todo - {id};
      }
      assert liveCounts - todo == liveCounts;
    }
  }

  lemma AwardOne(b: Balances, counts: map<PlayerId, nat>, todo: set<PlayerId>, id: PlayerId)
    requires id in todo && todo <= counts.Keys
    ensures var paid := Award(b, counts - todo);
            Award(b, counts - (todo - {id})) == paid[id := Balance(paid, id) + counts[id]]
  {
    assert (counts - (todo - {id})).Keys == (counts - todo).Keys + {id};
  }
}
