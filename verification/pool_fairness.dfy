/** Infinite runs of the worker pool in which no thread that can move is passed over for ever. */
module PoolFairness {
  import opened ThreadPool

  predicate Moves(a: Action, t: Thread) { (a.Begin? || a.Finish? || a.Wake?) && a.t == t }

  predicate CanMove(s: Pool, t: Thread) { t in s.pc && s.pc[t] != Exited }

  predicate IsStep(s: Pool, a: Action, n: Pool) { Enabled(s, a) && n == Next(s, a) }

  ghost predicate IsRun(st: nat -> Pool, act: nat -> Action) {
    forall n: nat :: IsStep(st(n), act(n), st(n + 1))
  }

  /** Thread `t` moves at `m`, or cannot. */
  predicate Treated(st: nat -> Pool, act: nat -> Action, t: Thread, m: nat) {
    Moves(act(m), t) || !CanMove(st(m), t)
  }

  ghost predicate TreatedFrom(st: nat -> Pool, act: nat -> Action, t: Thread, n: nat) {
    exists m: nat :: m >= n && Treated(st, act, t, m)
  }

  ghost predicate Fair(st: nat -> Pool, act: nat -> Action) {
    forall t: Thread, n: nat :: TreatedFrom(st, act, t, n)
  }

  /** The step queues a job that is taken before all jobs of this priority. */
  predicate Overtakes(s: Pool, a: Action, priority: int) {
    a.Start?
    && var queue := Started(s, a.job, a.priority, a.id).queue;
       |queue| > |s.queue| && queue[|queue| - 1].priority > priority
  }

  /** A queued job, with its priority. */
  ghost predicate Waits(queue: seq<Queued>, job: Job, priority: int) {
    exists i :: 0 <= i < |queue| && queue[i] == Queued(job, priority)
  }

  predicate Before(queue: seq<Queued>, i: nat, p: nat)
    requires i < |queue| && p < |queue|
  {
    queue[i].priority > queue[p].priority || (queue[i].priority == queue[p].priority && i < p)
  }

  /** The jobs that are taken before this one. */
  ghost function Ahead(queue: seq<Queued>, job: Job): set<Job> {
    set i, p | 0 <= i < |queue| && 0 <= p < |queue| && queue[p].job == job && Before(queue, i, p) :: queue[i].job
  }

  ghost predicate OneEach(queue: seq<Queued>) { forall i, j :: 0 <= i < j < |queue| ==> queue[i].job != queue[j].job }

  // -------- one step

  lemma AheadAdded(queue: seq<Queued>, job: Job, priority: int, more: Queued)
    requires OneEach(queue + [more]) && Waits(queue, job, priority) && more.priority <= priority
    ensures Waits(queue + [more], job, priority) && Ahead(queue + [more], job) <= Ahead(queue, job)
  {
    var all := queue + [more];
    var p :| 0 <= p < |queue| && queue[p] == Queued(job, priority);
    assert all[p] == queue[p];
    forall i, q | 0 <= i < |all| && 0 <= q < |all| && all[q].job == job && Before(all, i, q)
      ensures all[i].job in Ahead(queue, job)
    {
      assert q == p && i < |queue|;
      assert Before(queue, i, p);
    }
  }

  lemma AheadTaken(queue: seq<Queued>, job: Job, priority: int)
    requires OneEach(queue) && Waits(queue, job, priority) && queue[Best(queue)].job != job
    ensures var b := Best(queue); var rest := queue[..b] + queue[b + 1..];
            Waits(rest, job, priority) && Ahead(rest, job) < Ahead(queue, job)
  {
    hide Best;
    var b := Best(queue);
    var rest := queue[..b] + queue[b + 1..];
    var p :| 0 <= p < |queue| && queue[p] == Queued(job, priority);
    assert rest[if p < b then p else p - 1] == queue[p];
    assert Before(queue, b, p) && queue[b].job in Ahead(queue, job);
    forall i, q | 0 <= i < |rest| && 0 <= q < |rest| && rest[q].job == job && Before(rest, i, q)
      ensures rest[i].job in Ahead(queue, job) && rest[i].job != queue[b].job
    {
      var i', q' := if i < b then i else i + 1, if q < b then q else q + 1;
      assert queue[i'] == rest[i] && queue[q'] == rest[q] && Before(queue, i', q');
    }
  }

  /** The queue keeps its jobs, or loses the best one to a thread that looks for work. */
  lemma QueueStep(s: Pool, a: Action, job: Job, priority: int)
    requires Inv(s) && Enabled(s, a) && Waits(s.queue, job, priority) && !Overtakes(s, a, priority)
    ensures var n := Next(s, a);
            || IsHeld(n.pc, job)
            || (Waits(n.queue, job, priority) && Ahead(n.queue, job) <= Ahead(s.queue, job)
                && (a.Start? || n.queue == s.queue || Ahead(n.queue, job) < Ahead(s.queue, job)))
  {
    hide Inv, Next, Enabled, Started, Ahead, Best;
    InvStep(s, a);
    OneJobEach(s);
    OneJobEach(Next(s, a));
    if a.Start? {
      Put(s, a);
      if |Next(s, a).queue| > |s.queue| {
        AheadAdded(s.queue, job, priority, Next(s, a).queue[|s.queue|]);
      }
    } else if Next(s, a).queue != s.queue {
      Taken(s, a);
      TakenJob(s, a, job, priority);
    }
  }

  lemma OneJobEach(s: Pool)
    requires Inv(s)
    ensures OneEach(s.queue)
  {
    hide Lists, Counts, Joins;
  }

  lemma Put(s: Pool, a: Action)
    requires Enabled(s, a) && a.Start?
    ensures Next(s, a).queue == Started(s, a.job, a.priority, a.id).queue
    ensures var q := Next(s, a).queue; q == s.queue || (|q| == |s.queue| + 1 && q == s.queue + [q[|s.queue|]])
  {
  }

  lemma Taken(s: Pool, a: Action)
    requires Enabled(s, a) && !a.Start? && Next(s, a).queue != s.queue
    ensures (a.Finish? || a.Wake?) && s.queue != []
    ensures var b := Best(s.queue); var n := Next(s, a);
            n.queue == s.queue[..b] + s.queue[b + 1..] && n.pc == s.pc[a.t := Running(s.queue[b].job)]
  {
    hide Best;
  }

  lemma TakenJob(s: Pool, a: Action, job: Job, priority: int)
    requires OneEach(s.queue) && Waits(s.queue, job, priority) && (a.Finish? || a.Wake?)
    ensures var b := Best(s.queue); var rest := s.queue[..b] + s.queue[b + 1..];
            || (Waits(rest, job, priority) && Ahead(rest, job) < Ahead(s.queue, job))
            || IsHeld(s.pc[a.t := Running(s.queue[b].job)], job)
  {
    hide Ahead, Best;
    var b := Best(s.queue);
    if s.queue[b].job == job {
      assert Holds(s.pc[a.t := Running(job)], a.t, job);
    } else {
      AheadTaken(s.queue, job, priority);
    }
  }

  /** A thread that will look at the queue keeps its place until it moves. */
  lemma ServesStays(s: Pool, a: Action, t: Thread)
    requires Inv(s) && Enabled(s, a) && Serves(s, t) && s.queue != [] && !Moves(a, t)
    ensures Serves(Next(s, a), t) && Next(s, a).pc[t] == s.pc[t]
  {
    hide Counts, Jobs, Joins, Best;
  }

  lemma HolderStays(s: Pool, a: Action, t: Thread)
    requires Inv(s) && Enabled(s, a) && t in s.pc && s.pc[t].Busy() && !Moves(a, t)
    ensures t in Next(s, a).pc && Next(s, a).pc[t] == s.pc[t]
  {
    hide Counts, Jobs, Joins, Best;
  }

  /** Such a thread takes a job when it looks. */
  lemma MoveTakes(s: Pool, a: Action, t: Thread)
    requires Inv(s) && Enabled(s, a) && Serves(s, t) && s.queue != [] && Moves(a, t)
    ensures if a.Begin? then
              s.pc[t].Starting? && Next(s, a).queue == s.queue && Serves(Next(s, a), t) && Next(s, a).pc[t].Running?
            else Next(s, a).queue != s.queue
  {
    hide Counts, Jobs, Joins, Best;
    if !a.Begin? {
      assert |Next(s, a).queue| == |s.queue| - 1;
    }
  }

  /** The thread that holds a job begins it, or finishes it. */
  lemma HolderMoves(s: Pool, a: Action, t: Thread, job: Job)
    requires Inv(s) && Enabled(s, a) && Holds(s.pc, t, job) && Moves(a, t)
    ensures if s.pc[t].Starting? then t in Next(s, a).pc && Next(s, a).pc[t] == Running(job)
            else job in Next(s, a).finished
  {
    hide Counts, Jobs, Joins, Best;
  }

  lemma FinishedStays(s: Pool, a: Action)
    requires Enabled(s, a)
    ensures s.finished <= Next(s, a).finished && (!a.Start? ==> Next(s, a).submitted == s.submitted)
  {
    hide Best;
  }

  // -------- runs

  ghost predicate IsPoolRun(capacity: int, st: nat -> Pool, act: nat -> Action) {
    st(0) == Initial(capacity) && IsRun(st, act) && Fair(st, act)
  }

  lemma {:induction false} RunState(capacity: int, st: nat -> Pool, act: nat -> Action, n: nat)
    requires st(0) == Initial(capacity) && IsRun(st, act)
    ensures Inv(st(n)) && st(n).capacity == capacity && (capacity >= 1 ==> Served(st(n)))
    ensures Enabled(st(n), act(n)) && st(n + 1) == Next(st(n), act(n))
    decreases n
  {
    hide Inv, Served, Enabled, Next;
    assert IsStep(st(n), act(n), st(n + 1));
    if n == 0 {
      InitialInv(capacity);
    } else {
      var s, a := st(n - 1), act(n - 1);
      RunState(capacity, st, act, n - 1);
      InvStep(s, a);
      CapacityStays(s, a);
      if capacity >= 1 {
        ServedStep(s, a);
      }
    }
  }

  ghost predicate NotOvertaken(st: nat -> Pool, act: nat -> Action, n: nat, priority: int) {
    forall m: nat :: m >= n ==> !Overtakes(st(m), act(m), priority)
  }

  /** The first move of a thread that will look at the queue. */
  lemma {:induction false} FirstLook(
      capacity: int, st: nat -> Pool, act: nat -> Action, n: nat, m: nat, t: Thread, job: Job, priority: int)
    returns (k: nat)
    requires st(0) == Initial(capacity) && IsRun(st, act) && NotOvertaken(st, act, n, priority)
    requires Waits(st(n).queue, job, priority) && Serves(st(n), t) && m >= n && Treated(st, act, t, m)
    ensures k >= n
    ensures || IsHeld(st(k).pc, job)
            || (Waits(st(k).queue, job, priority) && Ahead(st(k).queue, job) <= Ahead(st(n).queue, job)
                && Serves(st(k), t) && st(k).pc[t] == st(n).pc[t] && Moves(act(k), t))
    decreases m - n
  {
    hide Inv, Ahead, Next, Enabled, Served, Overtakes;
    k := n;
    if !Moves(act(n), t) {
      RunState(capacity, st, act, n);
      QueueStep(st(n), act(n), job, priority);
      if IsHeld(st(n + 1).pc, job) {
        k := n + 1;
      } else {
        ServesStays(st(n), act(n), t);
        k := FirstLook(capacity, st, act, n + 1, m, t, job, priority);
      }
    }
  }

  /** A thread that looks takes the job, or one that is ahead of it. */
  lemma {:induction false} JobsGo(
      capacity: int, st: nat -> Pool, act: nat -> Action, n: nat, t: Thread, job: Job, priority: int) returns (k: nat)
    requires IsPoolRun(capacity, st, act) && NotOvertaken(st, act, n, priority)
    requires Waits(st(n).queue, job, priority) && Serves(st(n), t)
    ensures k >= n
    ensures || IsHeld(st(k).pc, job)
            || (Waits(st(k).queue, job, priority) && Ahead(st(k).queue, job) < Ahead(st(n).queue, job))
    decreases st(n).pc[t].Starting?
  {
    hide Inv, Ahead, Next, Enabled, Served, Overtakes, Treated;
    assert TreatedFrom(st, act, t, n);
    var m: nat :| m >= n && Treated(st, act, t, m);
    k := FirstLook(capacity, st, act, n, m, t, job, priority);
    if !IsHeld(st(k).pc, job) {
      RunState(capacity, st, act, k);
      MoveTakes(st(k), act(k), t);
      QueueStep(st(k), act(k), job, priority);
      if act(k).Begin? && !IsHeld(st(k + 1).pc, job) {
        k := JobsGo(capacity, st, act, k + 1, t, job, priority);
      } else {
        k := k + 1;
      }
    }
  }

  /** A queued job is taken. */
  lemma {:induction false} QueuedIsTaken(
      capacity: int, st: nat -> Pool, act: nat -> Action, n: nat, job: Job, priority: int) returns (k: nat)
    requires capacity >= 1 && IsPoolRun(capacity, st, act) && NotOvertaken(st, act, n, priority)
    requires Waits(st(n).queue, job, priority)
    ensures k >= n && IsHeld(st(k).pc, job)
    decreases Ahead(st(n).queue, job)
  {
    hide Inv, Ahead, Serves, Overtakes;
    RunState(capacity, st, act, n);
    var t :| Serves(st(n), t);
    k := JobsGo(capacity, st, act, n, t, job, priority);
    if !IsHeld(st(k).pc, job) {
      k := QueuedIsTaken(capacity, st, act, k, job, priority);
    }
  }

  lemma {:induction false} FirstMove(capacity: int, st: nat -> Pool, act: nat -> Action, n: nat, m: nat, t: Thread)
    returns (k: nat)
    requires st(0) == Initial(capacity) && IsRun(st, act) && t in st(n).pc && st(n).pc[t].Busy()
    requires m >= n && Treated(st, act, t, m)
    ensures k >= n && t in st(k).pc && st(k).pc[t] == st(n).pc[t] && Moves(act(k), t)
    decreases m - n
  {
    hide Inv, Next, Enabled, Served;
    k := n;
    if !Moves(act(n), t) {
      RunState(capacity, st, act, n);
      HolderStays(st(n), act(n), t);
      k := FirstMove(capacity, st, act, n + 1, m, t);
    }
  }

  /** A job that a thread holds is finished. */
  lemma {:induction false} HeldIsFinished(
      capacity: int, st: nat -> Pool, act: nat -> Action, n: nat, t: Thread, job: Job)
    returns (k: nat)
    requires IsPoolRun(capacity, st, act) && Holds(st(n).pc, t, job)
    ensures k >= n && job in st(k).finished
    decreases st(n).pc[t].Starting?
  {
    hide Inv, Next, Enabled, Served, Treated;
    assert TreatedFrom(st, act, t, n);
    var m: nat :| m >= n && Treated(st, act, t, m);
    k := FirstMove(capacity, st, act, n, m, t);
    RunState(capacity, st, act, k);
    HolderMoves(st(k), act(k), t, job);
    k := k + 1;
    if st(n).pc[t].Starting? {
      k := HeldIsFinished(capacity, st, act, k, t, job);
    }
  }

  /** In a run in which no thread is passed over, every submitted job is finished, if the capacity is at least 1 and
      from some point on no job is queued with a higher priority. */
  lemma JobFinishes(capacity: int, st: nat -> Pool, act: nat -> Action, n: nat, job: Job) returns (k: nat)
    requires capacity >= 1 && IsPoolRun(capacity, st, act) && job in st(n).submitted
    requires forall priority :: Waits(st(n).queue, job, priority) ==> NotOvertaken(st, act, n, priority)
    ensures k >= n && job in st(k).finished
  {
    hide IsRun, Fair, NotOvertaken, Counts, Lists, Joins, Served, Next, Enabled;
    RunState(capacity, st, act, n);
    k := n;
    if job !in st(n).finished {
      if !IsHeld(st(n).pc, job) {
        var i :| 0 <= i < |st(n).queue| && st(n).queue[i].job == job;
        k := QueuedIsTaken(capacity, st, act, n, job, st(n).queue[i].priority);
      }
      var t :| Holds(st(k).pc, t, job);
      k := HeldIsFinished(capacity, st, act, k, t, job);
    }
  }

  lemma {:induction false} FinishedLater(capacity: int, st: nat -> Pool, act: nat -> Action, n: nat, k: nat)
    requires st(0) == Initial(capacity) && IsRun(st, act) && n <= k
    ensures st(n).finished <= st(k).finished
    ensures (forall m: nat :: n <= m < k ==> !act(m).Start?) ==> st(k).submitted == st(n).submitted
    decreases k - n
  {
    hide Inv, Enabled, Served, Next;
    if n < k {
      RunState(capacity, st, act, n);
      FinishedStays(st(n), act(n));
      FinishedLater(capacity, st, act, n + 1, k);
    }
  }

  lemma {:induction false} AllFinish(capacity: int, st: nat -> Pool, act: nat -> Action, n: nat, jobs: set<Job>)
    returns (k: nat)
    requires capacity >= 1 && IsPoolRun(capacity, st, act) && jobs <= st(n).submitted
    requires forall m: nat :: m >= n ==> !act(m).Start?
    ensures k >= n && jobs <= st(k).finished
    decreases jobs
  {
    hide Waits, IsRun, Fair;
    k := n;
    if jobs != {} {
      var job :| job in jobs;
      var k1 := AllFinish(capacity, st, act, n, jobs - {job});
      var k2 := JobFinishes(capacity, st, act, n, job);
      k := if k1 < k2 then k2 else k1;
      FinishedLater(capacity, st, act, k1, k);
      FinishedLater(capacity, st, act, k2, k);
    }
  }

  /** When no more jobs are submitted, the work comes to an end with all jobs finished, and no caller of joinAll is left
      waiting without a notification. */
  lemma WorkEnds(capacity: int, st: nat -> Pool, act: nat -> Action, n: nat) returns (k: nat)
    requires capacity >= 1 && IsPoolRun(capacity, st, act)
    requires forall m: nat :: m >= n ==> !act(m).Start?
    ensures k >= n && st(k).finished == st(k).submitted == st(n).submitted && !st(k).HasWork()
    ensures forall j :: j in st(k).joiners && st(k).joiners[j].Waiting? ==> st(k).joiners[j] == Waiting(true)
  {
    hide IsRun, Fair, Enabled, Next, Served;
    k := AllFinish(capacity, st, act, n, st(n).submitted);
    FinishedLater(capacity, st, act, n, k);
    RunState(capacity, st, act, k);
    NothingLeft(st(k));
  }

  lemma NothingLeft(s: Pool)
    requires Inv(s) && s.submitted <= s.finished
    ensures !s.HasWork() && s.finished == s.submitted
  {
    if s.queue != [] {
      assert IsQueued(s.queue, s.queue[0].job);
    }
    assert BusyThreads(s.pc) == {};
  }

  // -------- jobs that are overtaken

  /** A pool with one thread: a job of priority 0 waits while others of priority 1 are submitted one by one. */
  function OvertakingAct(n: nat): Action {
    if n == 0 then Start(0, 0, 0)
    else if n == 1 then Begin(0)
    else if n == 2 then Start(1, 0, 1)
    else if n % 2 == 1 then Start(n, 1, 1)
    else Finish(0)
  }

  /** The thread runs one job, and job 1 is still queued. */
  ghost predicate Overtaken(s: Pool, n: nat) {
    && n >= 3 && s.capacity == 1 && s.allThreads == {0} && s.waiting == [] && s.expired == []
    && s.queue == (if n % 2 == 1 then [Queued(1, 0)] else [Queued(1, 0), Queued(n - 1, 1)])
    && s.pc.Keys == {0} && s.pc[0].Running? && s.pc[0].job != 1
    && 1 in s.submitted && 1 !in s.finished && forall job :: job in s.submitted ==> job < n
  }

  /** The first submission, its beginning, and the second submission. */
  ghost function OvertakingFirst(n: nat): (s: Pool)
    ensures (n <= 3 ==> Enabled(s, OvertakingAct(n))) && (n >= 3 ==> Overtaken(s, 3))
  {
    var started := Initial(1).(allThreads := {0}, active := 1, pc := map[0 := Starting(0)], submitted := {0});
    if n == 0 then Initial(1)
    else if n == 1 then started
    else if n == 2 then started.(pc := map[0 := Running(0)], begun := [0])
    else started.(pc := map[0 := Running(0)], begun := [0], queue := [Queued(1, 0)], submitted := {0, 1})
  }

  lemma OvertakingStep(s: Pool, n: nat)
    requires Overtaken(s, n)
    ensures Enabled(s, OvertakingAct(n)) && Overtaken(Next(s, OvertakingAct(n)), n + 1)
  {
  }

  lemma OvertakingGoesOn(s: Pool, n: nat)
    requires Overtaken(s, n)
    ensures Enabled(s, OvertakingAct(n))
  {
  }

  ghost function OvertakingAt(n: nat): (s: Pool)
    ensures Enabled(s, OvertakingAct(n)) && (n >= 3 ==> Overtaken(s, n))
  {
    hide Next, Enabled, Overtaken, OvertakingFirst, OvertakingAct;
    if n <= 3 then OvertakingFirst(n)
    else
      var (before, a) := (OvertakingAt(n - 1), OvertakingAct(n - 1));
      OvertakingStep(before, n - 1);
      OvertakingGoesOn(Next(before, a), n);
      Next(before, a)
  }

  lemma OvertakingStarts(n: nat)
    requires n < 3
    ensures IsStep(OvertakingAt(n), OvertakingAct(n), OvertakingAt(n + 1))
  {
  }

  lemma OvertakingBegins()
    ensures OvertakingAt(0) == Initial(1)
  {
  }

  lemma OvertakingSteps(n: nat)
    ensures IsStep(OvertakingAt(n), OvertakingAct(n), OvertakingAt(n + 1))
  {
    hide Next, Enabled, Overtaken;
    if n < 3 {
      OvertakingStarts(n);
    }
  }

  lemma OvertakingIsFair(t: Thread, n: nat)
    ensures TreatedFrom(OvertakingAt, OvertakingAct, t, n)
  {
    hide Next, Enabled, OvertakingAt;
    var m := 2 * n + 4;
    assert Overtaken(OvertakingAt(m), m) && OvertakingAct(m) == Finish(0);
    assert Treated(OvertakingAt, OvertakingAct, t, m);
  }

  /** Without the condition on priorities a job can be passed over for ever, although every thread is treated fairly. */
  lemma OvertakenJobNeverRuns()
    ensures IsPoolRun(1, OvertakingAt, OvertakingAct)
    ensures forall n :: n >= 3 ==> 1 in OvertakingAt(n).submitted && 1 !in OvertakingAt(n).finished
  {
    hide Next, Enabled, OvertakingAt, OvertakingAct, TreatedFrom, IsStep;
    forall n: nat ensures IsStep(OvertakingAt(n), OvertakingAct(n), OvertakingAt(n + 1)) {
      OvertakingSteps(n);
    }
    forall t: Thread, n: nat ensures TreatedFrom(OvertakingAt, OvertakingAct, t, n) {
      OvertakingIsFair(t, n);
    }
    OvertakingBegins();
    forall n | n >= 3 ensures 1 in OvertakingAt(n).submitted && 1 !in OvertakingAt(n).finished {
      assert Overtaken(OvertakingAt(n), n);
    }
  }
}
