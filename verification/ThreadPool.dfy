/**
 The worker pool (server/src/ThreadPool.cpp) as a step system: each critical section, and each
 task's completion, is one step, taken in any order the threads may produce.
 */
module ThreadPool {

  type Worker = nat

  /** Tasks are numbered in the order of the enqueue calls. */
  datatype Pool = Pool(
    workers: set<Worker>,
    queue: seq<nat>,
    running: map<Worker, nat>,
    done: seq<nat>,
    started: seq<nat>,
    submitted: nat,
    stopping: bool,
    exited: set<Worker>)

  datatype Step = Enqueue | Pop(w: Worker) | Finish(w: Worker) | Shutdown | Exit(w: Worker)

  predicate Idle(p: Pool, w: Worker) {
    w in p.workers && w !in p.running && w !in p.exited
  }

  /** enqueue and shutdown never block; a worker waits for a task or for the stop flag. */
  predicate Enabled(p: Pool, s: Step) {
    match s
    case Enqueue => true
    case Shutdown => true
    case Pop(w) => Idle(p, w) && p.queue != []
    case Finish(w) => w in p.running
    case Exit(w) => Idle(p, w) && p.stopping && p.queue == []
  }

  function Next(p: Pool, s: Step): Pool
    requires Enabled(p, s)
  {
    match s
    case Enqueue => p.(queue := p.queue + [p.submitted], submitted := p.submitted + 1)
    case Shutdown => p.(stopping := true)
    case Pop(w) =>
      p.(queue := p.queue[1..], running := p.running[w := p.queue[0]], started := p.started + [p.queue[0]])
    case Finish(w) => p.(running := p.running - {w}, done := p.done + [p.running[w]])
    case Exit(w) => p.(exited := p.exited + {w})
  }

  predicate CanRun(p: Pool, steps: seq<Step>)
    decreases |steps|
  {
    steps == [] || (Enabled(p, steps[0]) && CanRun(Next(p, steps[0]), steps[1..]))
  }

  function Run(p: Pool, steps: seq<Step>): Pool
    requires CanRun(p, steps)
    decreases |steps|
  {
    if steps == [] then p else Run(Next(p, steps[0]), steps[1..])
  }

  function Fresh(workers: set<Worker>): Pool {
    Pool(workers, [], map[], [], [], 0, false, {})
  }

  function UpTo(n: nat): (r: seq<nat>)
    ensures |r| == n && forall i | 0 <= i < n :: r[i] == i
  {
    seq(n, i => i)
  }

  ghost predicate NoRepeats(q: seq<nat>) {
    forall i, j | 0 <= i < j < |q| :: q[i] != q[j]
  }

  /** Started tasks are exactly the first ones, each is running on one worker or done once. */
  ghost predicate Invariant(p: Pool) {
    && p.started + p.queue == UpTo(p.submitted)
    && NoRepeats(p.done)
    && (forall t | t in p.done :: t in p.started && t !in p.running.Values)
    && (forall w | w in p.running :: p.running[w] in p.started && w in p.workers && w !in p.exited)
    && (forall v, w | v in p.running && w in p.running && v != w :: p.running[v] != p.running[w])
    && (forall t | t in p.started :: t in p.done || t in p.running.Values)
    && (p.exited != {} ==> p.stopping)
    && p.exited <= p.workers
  }

  lemma PrefixOfUpTo(a: seq<nat>, b: seq<nat>, n: nat)
    requires a + b == UpTo(n)
    ensures a == UpTo(|a|)
    ensures forall t | t in b :: t !in a
    ensures forall t :: t in a <==> 0 <= t < |a|
  {
    assert forall i | 0 <= i < |a| :: a[i] == (a + b)[i];
    assert forall i | 0 <= i < |b| :: b[i] == (a + b)[|a| + i];
    forall t: nat | t < |a| ensures t in a { assert a[t] == t; }
  }

  lemma StartedPrefix(p: Pool)
    requires Invariant(p)
    ensures p.started == UpTo(|p.started|)
    ensures forall t | t in p.queue :: t !in p.started
    ensures forall t :: t in p.started <==> 0 <= t < |p.started|
  {
    PrefixOfUpTo(p.started, p.queue, p.submitted);
  }

  lemma PopKeeps(p: Pool, w: Worker)
    requires Invariant(p) && Enabled(p, Pop(w))
    ensures Invariant(Next(p, Pop(w)))
  {
    hide UpTo;
    StartedPrefix(p);
    var q, t := Next(p, Pop(w)), p.queue[0];
    assert t in p.queue;
    assert q.started + q.queue == p.started + p.queue;
    assert q.running[w] == t;
    forall u | u in p.running.Values ensures u in q.running.Values {
      var v :| v in p.running && p.running[v] == u;
      assert q.running[v] == u;
    }
    forall v | v in q.running ensures q.running[v] !in p.done {
      if v != w { assert p.running[v] in p.running.Values; }
    }
  }

  lemma FinishKeeps(p: Pool, w: Worker)
    requires Invariant(p) && Enabled(p, Finish(w))
    ensures Invariant(Next(p, Finish(w)))
  {
    hide UpTo;
    var q, t := Next(p, Finish(w)), p.running[w];
    assert t in p.running.Values;
    forall u | u in p.running.Values && u != t ensures u in q.running.Values {
      var v :| v in p.running && p.running[v] == u;
      assert v in q.running && q.running[v] == u;
    }
    forall v | v in q.running ensures q.running[v] !in q.done {
      assert p.running[v] in p.running.Values;
    }
  }

  lemma StepKeeps(p: Pool, s: Step)
    requires Invariant(p) && Enabled(p, s)
    ensures Invariant(Next(p, s))
  {
    match s
    case Pop(w) => PopKeeps(p, w);
    case Finish(w) => FinishKeeps(p, w);
    case Enqueue =>
      assert p.started + (p.queue + [p.submitted]) == UpTo(p.submitted) + [p.submitted] == UpTo(p.submitted + 1);
    case Shutdown =>
    case Exit(w) =>
  }

  lemma {:induction false} RunKeeps(p: Pool, steps: seq<Step>)
    requires Invariant(p) && CanRun(p, steps)
    ensures Invariant(Run(p, steps))
    decreases |steps|
  {
    hide Invariant, Enabled, Next;
    if steps != [] {
      StepKeeps(p, steps[0]);
      RunKeeps(Next(p, steps[0]), steps[1..]);
    }
  }

  /**
   In every run tasks start in FIFO order and at most once, and every submitted task is at all times
   in exactly one of the three places: queued, running, done.
   */
  lemma EveryTaskInOnePlace(workers: set<Worker>, steps: seq<Step>, t: nat)
    requires CanRun(Fresh(workers), steps)
    ensures var p := Run(Fresh(workers), steps);
            && p.started == UpTo(|p.started|) && NoRepeats(p.done)
            && (t < p.submitted <==> t in p.queue || t in p.running.Values || t in p.done)
            && !(t in p.queue && t in p.running.Values)
            && !(t in p.queue && t in p.done)
            && !(t in p.running.Values && t in p.done)
  {
    var p := Run(Fresh(workers), steps);
    RunKeeps(Fresh(workers), steps);
    StartedPrefix(p);
    var all := UpTo(p.submitted);
    assert t < p.submitted <==> t in all by {
      if t < p.submitted { assert all[t] == t; }
    }
    assert t in all <==> t in p.started || t in p.queue;
    if t in p.running.Values {
      var w :| w in p.running && p.running[w] == t;
    }
  }

  // ---------------------------------------------------------------- draining

  /** No task is handed in once the pool is stopping. */
  predicate NoLateEnqueue(p: Pool, steps: seq<Step>)
    requires CanRun(p, steps)
    decreases |steps|
  {
    steps == [] || (!(p.stopping && steps[0] == Enqueue) && NoLateEnqueue(Next(p, steps[0]), steps[1..]))
  }

  /** Once a worker has left, the queue is empty and stays so. */
  lemma {:induction false} ExitedMeansDrained(p: Pool, steps: seq<Step>)
    requires Invariant(p) && CanRun(p, steps) && NoLateEnqueue(p, steps)
    requires p.exited != {} ==> p.queue == []
    ensures var r := Run(p, steps); r.exited != {} ==> r.queue == []
    decreases |steps|
  {
    hide UpTo;
    if steps != [] {
      StepKeeps(p, steps[0]);
      ExitedMeansDrained(Next(p, steps[0]), steps[1..]);
    }
  }

  lemma {:induction false} WorkersStay(p: Pool, steps: seq<Step>)
    requires CanRun(p, steps)
    ensures Run(p, steps).workers == p.workers
    decreases |steps|
  {
    if steps != [] { WorkersStay(Next(p, steps[0]), steps[1..]); }
  }

  /** With at least one worker, when all have exited every task that was handed in has been done. */
  lemma ShutdownDrains(workers: set<Worker>, steps: seq<Step>, t: nat)
    requires workers != {} && CanRun(Fresh(workers), steps) && NoLateEnqueue(Fresh(workers), steps)
    requires Run(Fresh(workers), steps).exited == workers
    ensures t in Run(Fresh(workers), steps).done <==> t < Run(Fresh(workers), steps).submitted
  {
    hide NoLateEnqueue;
    var p := Run(Fresh(workers), steps);
    RunKeeps(Fresh(workers), steps);
    WorkersStay(Fresh(workers), steps);
    ExitedMeansDrained(Fresh(workers), steps);
    EveryTaskInOnePlace(workers, steps, t);
    assert p.running == map[];
  }

  /** A task that is queued once the workers have left is never run. */
  lemma {:induction false} LateTaskIsStranded(p: Pool, steps: seq<Step>)
    requires Invariant(p) && p.exited == p.workers && CanRun(p, steps)
    ensures p.queue <= Run(p, steps).queue && Run(p, steps).done == p.done
    decreases |steps|
  {
    hide UpTo;
    if steps != [] {
      StepKeeps(p, steps[0]);
      LateTaskIsStranded(Next(p, steps[0]), steps[1..]);
    }
  }

  /** What is left to do: two worker steps per queued task, one per running task, one exit each. */
  function Work(p: Pool): nat {
    2 * |p.queue| + |p.running| + |p.workers - p.exited|
  }

  /** A stopping pool whose workers have not all left can always move, and moving uses up work. */
  lemma ShutdownMakesProgress(p: Pool) returns (s: Step)
    requires Invariant(p) && p.stopping && p.exited != p.workers
    ensures Enabled(p, s) && s != Enqueue && s != Shutdown
  {
    hide UpTo;
    var w :| w in p.workers && w !in p.exited;
    if w in p.running {
      s := Finish(w);
    } else if p.queue != [] {
      s := Pop(w);
    } else {
      s := Exit(w);
    }
  }

  lemma WorkerStepsUseUpWork(p: Pool, s: Step)
    requires Enabled(p, s) && s != Enqueue && s != Shutdown
    ensures Work(Next(p, s)) < Work(p)
  {
    match s
    case Pop(w) =>
      assert Next(p, s).running.Keys == p.running.Keys + {w};
    case Finish(w) =>
      assert Next(p, s).running.Keys == p.running.Keys - {w};
    case Exit(w) =>
      assert Next(p, s).workers - Next(p, s).exited == (p.workers - p.exited) - {w};
  }

  predicate WorkersOnly(steps: seq<Step>) {
    forall i | 0 <= i < |steps| :: steps[i] != Enqueue && steps[i] != Shutdown
  }

  /** So shutdown's joins return: the workers cannot take more steps than there is work. */
  lemma {:induction false} DrainIsBounded(p: Pool, steps: seq<Step>)
    requires CanRun(p, steps) && WorkersOnly(steps)
    ensures |steps| <= Work(p)
    decreases |steps|
  {
    hide Work, Enabled, Next;
    if steps != [] {
      assert steps[0] != Enqueue && steps[0] != Shutdown;
      WorkerStepsUseUpWork(p, steps[0]);
      DrainIsBounded(Next(p, steps[0]), steps[1..]);
    }
  }

  // ---------------------------------------------------------------- what the steps amount to

  function Enqueues(steps: seq<Step>): nat {
    if steps == [] then 0 else (if steps[0] == Enqueue then 1 else 0) + Enqueues(steps[1..])
  }

  /** A pool is stopping exactly if it was shut down, and every enqueue submits one task. */
  lemma {:induction false} RunCounts(p: Pool, steps: seq<Step>)
    requires CanRun(p, steps)
    ensures Run(p, steps).stopping <==> p.stopping || Shutdown in steps
    ensures Run(p, steps).submitted == p.submitted + Enqueues(steps)
    decreases |steps|
  {
    if steps != [] {
      RunCounts(Next(p, steps[0]), steps[1..]);
      assert Shutdown in steps <==> steps[0] == Shutdown || Shutdown in steps[1..];
    }
  }

  lemma PrependStep(p: Pool, s: Step, rest: seq<Step>)
    requires Enabled(p, s) && CanRun(Next(p, s), rest)
    ensures CanRun(p, [s] + rest) && Run(p, [s] + rest) == Run(Next(p, s), rest)
  {
    hide Enabled, Next;
    assert ([s] + rest)[1..] == rest;
  }

  lemma WorkersOnlyPrepend(s: Step, rest: seq<Step>)
    requires s != Enqueue && s != Shutdown && WorkersOnly(rest)
    ensures WorkersOnly([s] + rest)
  {
    assert forall i | 1 <= i < |rest| + 1 :: ([s] + rest)[i] == rest[i - 1];
  }

  /**
   What a worker that has not left can do on its own, whatever the others do: it finishes its task if
   it has one; otherwise it takes the first task of the queue if there is one, leaves if there is none
   and the pool is stopping, and waits if it is not.
   */
  lemma WorkerMoves(p: Pool, w: Worker, s: Step)
    requires Invariant(p) && w in p.workers && w !in p.exited && s in {Pop(w), Finish(w), Exit(w)}
    ensures Enabled(p, s) <==>
            if w in p.running then s == Finish(w)
            else if p.queue != [] then s == Pop(w)
            else p.stopping && s == Exit(w)
    ensures Enabled(p, s) ==>
              var q := Next(p, s);
              && (s == Pop(w) ==> w in q.running && q.running[w] == p.queue[0] && q.queue == p.queue[1..])
              && (s == Finish(w) ==> w !in q.running && q.done == p.done + [p.running[w]])
              && (s == Exit(w) ==> w in q.exited)
  {
    hide UpTo;
  }

  /** From a stopping pool the workers can go on until all of them have left. */
  lemma {:induction false} WorkersLeave(p: Pool) returns (rest: seq<Step>)
    requires Invariant(p) && p.stopping
    ensures WorkersOnly(rest) && CanRun(p, rest) && Run(p, rest).exited == p.workers
    ensures Run(p, rest).workers == p.workers
    decreases Work(p)
  {
    hide Invariant, Enabled, Next, Work, WorkersOnly;
    if p.exited == p.workers {
      rest := [];
      assert WorkersOnly([]) by { NoSteps(); }
    } else {
      var s := ShutdownMakesProgress(p);
      StepKeeps(p, s);
      WorkerStepsUseUpWork(p, s);
      StoppingStays(p, s);
      rest := WorkersLeave(Next(p, s));
      PrependStep(p, s, rest);
      WorkersOnlyPrepend(s, rest);
      rest := [s] + rest;
    }
  }

  lemma NoSteps()
    ensures WorkersOnly([])
  {
  }

  lemma StoppingStays(p: Pool, s: Step)
    requires Enabled(p, s)
    ensures p.stopping ==> Next(p, s).stopping
    ensures Next(p, s).workers == p.workers
  {
  }

  lemma {:induction false} WorkersOnlyNeverEnqueue(p: Pool, steps: seq<Step>)
    requires CanRun(p, steps) && WorkersOnly(steps)
    ensures NoLateEnqueue(p, steps) && Enqueues(steps) == 0
    decreases |steps|
  {
    hide Enabled, Next;
    if steps != [] {
      assert steps[0] != Enqueue;
      assert forall i | 0 <= i < |steps[1..]| :: steps[1..][i] == steps[i + 1];
      WorkersOnlyNeverEnqueue(Next(p, steps[0]), steps[1..]);
    }
  }

  lemma EverythingDone(p: Pool, t: nat)
    requires Invariant(p) && p.queue == [] && p.running == map[]
    ensures t in p.done <==> t < p.submitted
  {
    StartedPrefix(p);
    assert p.started == p.started + p.queue;
  }

  /**
   Shutting down works from any state: after the shutdown the workers can take steps until all of them
   have left, so the joins return, and if there is a worker and none had left before, every task that
   was ever submitted has been done by then.
   */
  lemma ShutdownCompletes(p: Pool) returns (rest: seq<Step>)
    requires Invariant(p)
    ensures WorkersOnly(rest) && CanRun(p, [Shutdown] + rest)
    ensures var r := Run(p, [Shutdown] + rest);
            && r.exited == r.workers == p.workers && r.submitted == p.submitted
            && (p.workers != {} && p.exited == {} ==> forall t: nat :: t in r.done <==> t < p.submitted)
  {
    hide Invariant, WorkersOnly, NoLateEnqueue;
    StepKeeps(p, Shutdown);
    var q := Next(p, Shutdown);
    rest := WorkersLeave(q);
    PrependStep(p, Shutdown, rest);
    WorkersOnlyNeverEnqueue(q, rest);
    RunKeeps(q, rest);
    RunCounts(q, rest);
    var r := Run(q, rest);
    if p.workers != {} && p.exited == {} {
      ExitedMeansDrained(q, rest);
      NobodyRuns(r);
      forall t: nat ensures t in r.done <==> t < p.submitted { EverythingDone(r, t); }
    }
  }

  lemma NobodyRuns(p: Pool)
    requires Invariant(p) && p.exited == p.workers
    ensures p.running == map[]
  {
  }

  /** Without a shutdown, too, the workers can work off everything that was submitted. */
  lemma {:induction false} TasksGetDone(p: Pool) returns (steps: seq<Step>)
    requires Invariant(p) && !p.stopping && p.workers != {}
    ensures WorkersOnly(steps) && CanRun(p, steps)
    ensures var r := Run(p, steps);
            !r.stopping && r.submitted == p.submitted && forall t: nat :: t in r.done <==> t < p.submitted
    decreases Work(p)
  {
    hide WorkersOnly, Work, UpTo, CanRun, Run;
    if p.running == map[] && p.queue == [] {
      steps := [];
      NoSteps();
      assert CanRun(p, []) && Run(p, []) == p by { EmptyRun(p); }
      forall t: nat ensures t in p.done <==> t < p.submitted { EverythingDone(p, t); }
    } else {
      var w :| w in if p.running != map[] then p.running.Keys else p.workers;
      var s := if p.running != map[] then Finish(w) else Pop(w);
      StepKeeps(p, s);
      WorkerStepsUseUpWork(p, s);
      var rest := TasksGetDone(Next(p, s));
      PrependStep(p, s, rest);
      WorkersOnlyPrepend(s, rest);
      steps := [s] + rest;
    }
  }

  lemma EmptyRun(p: Pool)
    ensures CanRun(p, []) && Run(p, []) == p
  {
  }
}
