/**
 The worker threads of a tick (server/src/GameServer.cpp): the tasks of different chunks may be
 interleaved at every single cell, and even a swap may overtake other chunks' calculations.
 */
module Schedule {
  import opened Types
  import opened Chunks
  import opened WorldSpec

  const CELL_STEPS: nat := WIDTH * WIDTH

  /**
   Step k of a chunk's task: compute and store one cell, or, last of all, swap the buffers. These are
   the values the methods Chunk.CalculateCell and Chunk.SwapBuffers are proved to produce.
   */
  ghost function TaskStep(v: ChunkV, k: nat): (r: ChunkV)
    requires v.Valid() && k <= CELL_STEPS
    ensures r.Valid()
  {
    if k == CELL_STEPS then SwapV(v) else CalculateCellV(v, AtRank(k))
  }

  /** n steps of one chunk's task, starting with step k. */
  ghost function TaskRun(v: ChunkV, k: nat, n: nat): (r: ChunkV)
    requires v.Valid() && k + n <= CELL_STEPS + 1
    ensures r.Valid()
    decreases n
  {
    if n == 0 then v else TaskRun(TaskStep(v, k), k + 1, n - 1)
  }

  function Count(schedule: seq<Coord>, c: Coord): nat {
    if schedule == [] then 0 else (if schedule[0] == c then 1 else 0) + Count(schedule[1..], c)
  }

  /** pc is each task's next step; the schedule never takes a task past its end. */
  ghost predicate Runnable(w: WorldV, pc: map<Coord, nat>, schedule: seq<Coord>) {
    && ValidWorld(w) && pc.Keys == w.Keys
    && (forall c | c in schedule :: c in w)
    && (forall c | c in w :: pc[c] + Count(schedule, c) <= CELL_STEPS + 1)
  }

  /** The world after the threads have taken steps in the order of the schedule. */
  ghost function Interleave(w: WorldV, pc: map<Coord, nat>, schedule: seq<Coord>): WorldV
    requires Runnable(w, pc, schedule)
    decreases |schedule|
  {
    if schedule == [] then w else
      var c := schedule[0];
      RunnableStep(w, pc, schedule);
      Interleave(w[c := TaskStep(w[c], pc[c])], pc[c := pc[c] + 1], schedule[1..])
  }

  lemma RunnableStep(w: WorldV, pc: map<Coord, nat>, schedule: seq<Coord>)
    requires Runnable(w, pc, schedule) && schedule != []
    ensures var c := schedule[0];
            && c in w && pc[c] <= CELL_STEPS
            && Runnable(w[c := TaskStep(w[c], pc[c])], pc[c := pc[c] + 1], schedule[1..])
  {
    hide TaskStep;
    var c := schedule[0];
    assert c in schedule && forall d | d in schedule[1..] :: d in schedule;
  }

  /** The tasks do not influence each other: each chunk has made exactly its own steps. */
  lemma {:induction false} TasksAreIndependent(w: WorldV, pc: map<Coord, nat>, schedule: seq<Coord>, c: Coord)
    requires Runnable(w, pc, schedule) && c in w
    ensures Interleave(w, pc, schedule).Keys == w.Keys
    ensures Interleave(w, pc, schedule)[c] == TaskRun(w[c], pc[c], Count(schedule, c))
    decreases |schedule|
  {
    hide TaskStep;
    if schedule != [] {
      var d := schedule[0];
      RunnableStep(w, pc, schedule);
      TasksAreIndependent(w[d := TaskStep(w[d], pc[d])], pc[d := pc[d] + 1], schedule[1..], c);
    }
  }

  ghost predicate InProgress(was: ChunkV, v: ChunkV, k: nat)
    requires was.Valid() && k <= CELL_STEPS
  {
    v.cur == was.cur && v.dirty == was.dirty + Changed(was.cur, k) && PartlyNext(was, v.next, k)
  }

  lemma InProgressStep(was: ChunkV, v: ChunkV, k: nat)
    requires was.Valid() && v.Valid() && k < CELL_STEPS && InProgress(was, v, k)
    ensures InProgress(was, TaskStep(v, k), k + 1)
  {
    hide NextInner, Changes, Changed, PartlyNext, AtRank;
    var l := AtRank(k);
    PartlyNextGrows(was, v.next, l.x, l.y);
    ChangedGrows(was.cur, l);
  }

  lemma {:induction false} RunToTheEnd(was: ChunkV, v: ChunkV, k: nat)
    requires was.Valid() && v.Valid() && k <= CELL_STEPS && InProgress(was, v, k)
    ensures TaskRun(v, k, CELL_STEPS + 1 - k) == SwapV(CalculateNextV(was))
    decreases CELL_STEPS - k
  {
    hide NextInner, Changes, Changed, PartlyNext, AtRank, InProgress;
    if k == CELL_STEPS {
      CalculationDone(was, v);
      SwapIsLast(v);
    } else {
      InProgressStep(was, v, k);
      RunToTheEnd(was, TaskStep(v, k), k + 1);
    }
  }

  lemma SwapIsLast(v: ChunkV)
    requires v.Valid()
    ensures TaskRun(v, CELL_STEPS, 1) == SwapV(v)
  {
  }

  lemma CalculationDone(was: ChunkV, v: ChunkV)
    requires was.Valid() && InProgress(was, v, CELL_STEPS)
    ensures v == CalculateNextV(was)
  {
    hide Changed, PartlyNext;
    PartlyNextEnds(was, v.next);
  }

  ghost function AtStart(w: WorldV): map<Coord, nat> {
    map c | c in w :: 0
  }

  /** Every chunk's task runs to completion. */
  ghost predicate Complete(w: WorldV, schedule: seq<Coord>) {
    && (forall c | c in schedule :: c in w)
    && (forall c | c in w :: Count(schedule, c) == CELL_STEPS + 1)
  }

  /**
   Every complete interleaving ends in the same world as calculating all chunks one after the other
   and then swapping all of them.
   */
  lemma ScheduleDoesNotMatter(w: WorldV, schedule: seq<Coord>)
    requires ValidWorld(w) && Complete(w, schedule)
    ensures Runnable(w, AtStart(w), schedule)
    ensures Interleave(w, AtStart(w), schedule) == SwapAll(CalculateAll(w))
  {
    hide Interleave, TaskRun, SwapV, CalculateNextV, Count, Changed;
    var r := Interleave(w, AtStart(w), schedule);
    forall c | c in w ensures r.Keys == w.Keys && r[c] == SwapV(CalculateNextV(w[c])) {
      TasksAreIndependent(w, AtStart(w), schedule, c);
      TaskStarts(w[c]);
      RunToTheEnd(w[c], w[c], 0);
    }
    if w == map[] { EmptySchedule(w, schedule); }
    assert SwapAll(CalculateAll(w)).Keys == w.Keys;
  }

  lemma TaskStarts(v: ChunkV)
    requires v.Valid()
    ensures InProgress(v, v, 0)
  {
    hide PartlyNext;
    PartlyNextStarts(v);
  }

  lemma EmptySchedule(w: WorldV, schedule: seq<Coord>)
    requires w == map[] && Complete(w, schedule)
    ensures Runnable(w, AtStart(w), schedule) && Interleave(w, AtStart(w), schedule) == w
  {
    assert forall i | 0 <= i < |schedule| :: schedule[i] in schedule;
  }
}
