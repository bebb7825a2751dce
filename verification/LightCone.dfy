/** Influence spreads by one cell a tick. */
module LightCone {
  import opened Types
  import opened Plane
  import opened Reference

  predicate Near(p: Pos, k: int) {
    -k <= p.x <= k && -k <= p.y <= k
  }

  ghost predicate Within(m: Plane, k: int) {
    forall p | p in m :: Near(p, k)
  }

  ghost predicate CommandsWithin(es: seq<Event>, k: int) {
    forall i, j | 0 <= i < |es| && es[i].Tick? && 0 <= j < |es[i].batch| ::
      Near(Pos(es[i].batch[j].x, es[i].batch[j].y), k)
  }

  function Ticks(es: seq<Event>): nat {
    if es == [] then 0 else (if es[0].Tick? then 1 else 0) + Ticks(es[1..])
  }

  lemma LifeStepSpreadsByOne(m: Plane, k: int)
    requires Within(m, k)
    ensures Within(LifeStep(m), k + 1)
  {
    hide NextAt;
    forall p | p in LifeStep(m) ensures Near(p, k + 1) {
      assert p in Reach(m);
      if p !in m {
        var q, i :| q in m.Keys && 0 <= i < 8 && Around(q)[i] == p;
        assert Near(q, k);
      }
    }
  }

  lemma {:induction false} BatchStaysWithin(s: State, cmds: seq<PlayerCommand>, k: int)
    requires Within(s.plane, k)
    requires forall j | 0 <= j < |cmds| :: Near(Pos(cmds[j].x, cmds[j].y), k)
    ensures Within(ApplyAll(s, cmds).plane, k)
    decreases |cmds|
  {
    if cmds != [] {
      assert Near(Pos(cmds[0].x, cmds[0].y), k);
      BatchStaysWithin(Apply(s, cmds[0]), cmds[1..], k);
    }
  }

  /** Commands within [-k, k] keep every cell of the plane within k plus the number of ticks. */
  lemma {:induction false} RunStaysInLightCone(s: State, es: seq<Event>, k: int)
    requires Within(s.plane, k) && CommandsWithin(es, k)
    ensures Within(Run(s, es).plane, k + Ticks(es))
    decreases |es|
  {
    if es != [] {
      var t := Next(s, es[0]);
      assert CommandsWithin(es[1..], k);
      if es[0].Tick? {
        LifeStepSpreadsByOne(s.plane, k);
        BatchStaysWithin(State(LifeStep(s.plane), s.balances), es[0].batch, k + 1);
        WidenCommands(es[1..], k);
        RunStaysInLightCone(t, es[1..], k + 1);
      } else {
        RunStaysInLightCone(t, es[1..], k);
      }
    }
  }

  lemma WidenCommands(es: seq<Event>, k: int)
    requires CommandsWithin(es, k)
    ensures CommandsWithin(es, k + 1)
  {
  }
}
