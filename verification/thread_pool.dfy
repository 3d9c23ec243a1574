/** The worker pool as a protocol: every step is what one thread does while it holds the pool's mutex.
    Sleeping threads may wake at any time, so signals, timeouts and spurious wake-ups are all covered. */
module ThreadPool {

  type Thread = nat
  type Joiner = nat
  type Job = nat  // one submission; the same runnable may be submitted again as another job

  /** Where a pooled thread is: started with its target, running a job outside the mutex, sleeping on its
      condition, or returned from run(). */
  datatype Pc = Starting(job: Job) | Running(job: Job) | Sleeping | Exited
  {
    predicate Busy() { Starting? || Running? }
  }

  /** Where a caller of joinAll is: waiting for noActiveThreads, joining the threads it took out of the
      pool, or returned. */
  datatype JoinPc = Waiting(notified: bool) | Joining(left: set<Thread>) | Returned

  datatype Queued = Queued(job: Job, priority: int)

  datatype Pool = Pool(
    capacity: int,
    allThreads: set<Thread>, waiting: seq<Thread>, expired: seq<Thread>,
    queue: seq<Queued>, active: int,
    pc: map<Thread, Pc>, joiners: map<Joiner, JoinPc>,
    submitted: set<Job>, begun: seq<Job>, finished: set<Job>)
  {
    predicate HasWork() { queue != [] || active != 0 }

    /** activeThreadCount */
    function ActiveThreadCount(): int { |allThreads| - |expired| - |waiting| }

    /** registerThreadInactive */
    function Deactivated(): Pool {
      var s := this.(active := active - 1);
      if s.active != 0 then s
      else s.(joiners := map k | k in joiners :: if joiners[k].Waiting? then Waiting(true) else joiners[k])
    }
  }

  function Initial(capacity: int): Pool {
    Pool(capacity, {}, [], [], [], 0, map[], map[], {}, [], {})
  }

  datatype Action =
    | Start(job: Job, priority: int, id: Thread)
    | Begin(t: Thread)
    | Finish(t: Thread)
    | Wake(t: Thread)
    | Join(k: Joiner)
    | JoinWake(k: Joiner)
    | JoinThread(k: Joiner, t: Thread)
    | JoinEnd(k: Joiner)

  /** RunnablePriorityQueue::pop: the oldest of the queued jobs with the highest priority. */
  function Best(queue: seq<Queued>): (i: nat)
    requires queue != []
    ensures i < |queue|
    ensures forall j :: 0 <= j < |queue| ==> queue[j].priority <= queue[i].priority
    ensures forall j :: 0 <= j < i ==> queue[j].priority < queue[i].priority
  {
    if |queue| == 1 then 0
    else
      var i := Best(queue[..|queue| - 1]);
      if queue[i].priority < queue[|queue| - 1].priority then |queue| - 1 else i
  }

  predicate Enabled(s: Pool, a: Action) {
    match a
    case Start(job, _, id) => job !in s.submitted && id !in s.pc
    case Begin(t) => t in s.pc && s.pc[t].Starting?
    case Finish(t) => t in s.pc && s.pc[t].Running?
    case Wake(t) => t in s.pc && s.pc[t].Sleeping?
    case Join(k) => k !in s.joiners
    case JoinWake(k) => k in s.joiners && s.joiners[k].Waiting?
    case JoinThread(k, t) =>
      && k in s.joiners && s.joiners[k].Joining? && t in s.joiners[k].left
      && t in s.pc && s.pc[t].Exited?
    case JoinEnd(k) => k in s.joiners && s.joiners[k] == Joining({})
  }

  /** startThread */
  function StartThread(s: Pool, job: Job, t: Thread): Pool {
    s.(allThreads := s.allThreads + {t}, active := s.active + 1, pc := s.pc[t := Starting(job)])
  }

  function Enqueue(s: Pool, job: Job, priority: int): Pool {
    s.(queue := s.queue + [Queued(job, priority)])
  }

  /** Takes the longest waiting thread off the list and signals it. */
  function Notify(s: Pool): Pool
    requires s.waiting != []
  {
    s.(waiting := s.waiting[1..])
  }

  /** start and tryStart; a recycled thread gets its job through the queue, with priority 0. */
  function Started(s: Pool, job: Job, priority: int, id: Thread): Pool {
    if s.allThreads == {} then StartThread(s, job, id)
    else if s.ActiveThreadCount() >= s.capacity then
      var q := Enqueue(s, job, priority);
      if q.waiting != [] then Notify(q) else q
    else if s.waiting != [] then Notify(Enqueue(s, job, 0))
    else if s.expired != [] then
      s.(expired := s.expired[1..], active := s.active + 1, pc := s.pc[s.expired[0] := Starting(job)])
    else StartThread(s, job, id)
  }

  /** The head of the loop in run(), without a target: take a job, or go to sleep. */
  function LookForWork(s: Pool, t: Thread): Pool {
    if s.queue == [] then
      s.(waiting := s.waiting + [t], pc := s.pc[t := Sleeping]).Deactivated()
    else
      var i := Best(s.queue);
      var job := s.queue[i].job;
      s.(queue := s.queue[..i] + s.queue[i + 1..], pc := s.pc[t := Running(job)], begun := s.begun + [job])
  }

  function Index(t: Thread, ts: seq<Thread>): (i: nat)
    requires t in ts
    ensures i < |ts| && ts[i] == t
  {
    if ts[0] == t then 0 else 1 + Index(t, ts[1..])
  }

  function Woken(s: Pool, t: Thread): Pool {
    var w := s.(active := s.active + 1);
    if t in s.waiting then
      var i := Index(t, s.waiting);
      w.(waiting := s.waiting[..i] + s.waiting[i + 1..], expired := s.expired + [t],
          pc := s.pc[t := Exited]).Deactivated()
    else if t !in s.allThreads then
      w.(pc := s.pc[t := Exited]).Deactivated()
    else
      LookForWork(w, t)
  }

  /** joinAll with the mutex held: wait while there is work, and otherwise take all threads out. */
  function JoinLoop(s: Pool, k: Joiner): Pool {
    if s.HasWork() then s.(joiners := s.joiners[k := Waiting(false)])
    else s.(allThreads := {}, expired := [], waiting := [], joiners := s.joiners[k := Joining(s.allThreads)])
  }

  function Next(s: Pool, a: Action): Pool
    requires Enabled(s, a)
  {
    match a
    case Start(job, priority, id) => Started(s, job, priority, id).(submitted := s.submitted + {job})
    case Begin(t) =>
      var job := s.pc[t].job;
      s.(pc := s.pc[t := Running(job)], begun := s.begun + [job])
    case Finish(t) => LookForWork(s.(finished := s.finished + {s.pc[t].job}), t)
    case Wake(t) => Woken(s, t)
    case Join(k) => JoinLoop(s, k)
    case JoinWake(k) => JoinLoop(s, k)
    case JoinThread(k, t) => s.(joiners := s.joiners[k := Joining(s.joiners[k].left - {t})])
    case JoinEnd(k) =>
      if s.HasWork() then s.(joiners := s.joiners[k := Waiting(false)])
      else s.(joiners := s.joiners[k := Returned])
  }

  // -------- what every step keeps

  ghost predicate Distinct<T>(ts: seq<T>) { forall i, j :: 0 <= i < j < |ts| ==> ts[i] != ts[j] }

  /** Waiting and expired threads are disjoint parts of the pool, and sleep or have returned. A busy thread
      belongs to the pool, and a thread of the pool that has returned is on the expired list. */
  ghost predicate Lists(all: set<Thread>, waiting: seq<Thread>, expired: seq<Thread>, pc: map<Thread, Pc>) {
    && Distinct(waiting) && Distinct(expired)
    && (forall t :: t in waiting ==> t in all && t !in expired && t in pc && pc[t] == Sleeping)
    && (forall t :: t in expired ==> t in all && t in pc && pc[t] == Exited)
    && (forall t :: t in all ==> t in pc && (pc[t] == Exited ==> t in expired))
    && (forall t :: t in pc && pc[t].Busy() ==> t in all)
  }

  ghost function BusyThreads(pc: map<Thread, Pc>): set<Thread> { set t | t in pc && pc[t].Busy() }

  /** The counter counts the busy threads, and the pool stays within its capacity. */
  ghost predicate Counts(all: set<Thread>, capacity: int, active: int, pc: map<Thread, Pc>) {
    && active == |BusyThreads(pc)|
    && (|all| <= 1 || |all| <= capacity)
  }

  ghost predicate Holds(pc: map<Thread, Pc>, t: Thread, job: Job) {
    t in pc && pc[t].Busy() && pc[t].job == job
  }

  ghost predicate OneHolder(pc: map<Thread, Pc>) {
    forall t, u, job :: Holds(pc, t, job) && Holds(pc, u, job) ==> t == u
  }

  ghost predicate IsHeld(pc: map<Thread, Pc>, job: Job) { exists t :: Holds(pc, t, job) }

  ghost predicate IsQueued(queue: seq<Queued>, job: Job) { exists i :: 0 <= i < |queue| && queue[i].job == job }

  /** Every submitted job is in exactly one place: queued, held by exactly one thread, or finished; it has
      begun to run exactly once when it is running or finished, and not at all before. */
  ghost predicate Jobs(queue: seq<Queued>, pc: map<Thread, Pc>, submitted: set<Job>, begun: seq<Job>,
      finished: set<Job>) {
    && (forall i, j :: 0 <= i < j < |queue| ==> queue[i].job != queue[j].job)
    && OneHolder(pc)
    && (forall job :: IsQueued(queue, job) ==> job in submitted && job !in begun && !IsHeld(pc, job))
    && (forall t :: t in pc && pc[t].Starting? ==> pc[t].job in submitted && pc[t].job !in begun)
    && (forall t :: t in pc && pc[t].Running? ==> pc[t].job in begun && pc[t].job !in finished)
    && (forall job :: job in submitted ==> IsQueued(queue, job) || IsHeld(pc, job) || job in finished)
    && (forall job :: job in finished ==> job in begun)
    && (forall job :: job in begun ==> job in submitted && (job in finished || IsHeld(pc, job)))
    && Distinct(begun)
  }

  /** A waiting joinAll has a reason to wait, or has been notified. */
  ghost predicate Joins(s: Pool) {
    forall k :: k in s.joiners && s.joiners[k] == Waiting(false) ==> s.HasWork()
  }

  ghost predicate Inv(s: Pool) {
    && Lists(s.allThreads, s.waiting, s.expired, s.pc)
    && Counts(s.allThreads, s.capacity, s.active, s.pc)
    && Jobs(s.queue, s.pc, s.submitted, s.begun, s.finished)
    && Joins(s)
  }

  /** A thread of the pool that is busy, or has been signalled and not woken yet, will look at the queue. */
  ghost predicate Serves(s: Pool, t: Thread) {
    t in s.allThreads && t in s.pc && (s.pc[t].Busy() || (s.pc[t].Sleeping? && t !in s.waiting))
  }

  /** A queued job will be taken. */
  ghost predicate Served(s: Pool) {
    s.queue != [] ==> exists t :: Serves(s, t)
  }

  lemma Removed<T>(ts: seq<T>, i: nat)
    requires Distinct(ts) && i < |ts|
    ensures var rest := ts[..i] + ts[i + 1..]; Distinct(rest) && forall t :: t in rest <==> t in ts && t != ts[i]
  {
    var rest := ts[..i] + ts[i + 1..];
    forall t | t in ts && t != ts[i] ensures t in rest {
      var j :| 0 <= j < |ts| && ts[j] == t;
      assert rest[if j < i then j else j - 1] == t;
    }
  }

  lemma RemovedFirst<T>(ts: seq<T>)
    requires Distinct(ts) && ts != []
    ensures Distinct(ts[1..]) && forall t :: t in ts[1..] <==> t in ts && t != ts[0]
  {
    Removed(ts, 0);
    assert ts[..0] + ts[1..] == ts[1..];
  }

  lemma ListsStarted(s: Pool, job: Job, priority: int, id: Thread)
    requires Lists(s.allThreads, s.waiting, s.expired, s.pc) && id !in s.pc
    ensures var n := Started(s, job, priority, id); Lists(n.allThreads, n.waiting, n.expired, n.pc)
  {
    assert Lists(s.allThreads + {id}, s.waiting, s.expired, s.pc[id := Starting(job)]);
    if s.waiting != [] {
      RemovedFirst(s.waiting);
      assert Lists(s.allThreads, s.waiting[1..], s.expired, s.pc);
    }
    if s.expired != [] {
      RemovedFirst(s.expired);
      assert Lists(s.allThreads, s.waiting, s.expired[1..], s.pc[s.expired[0] := Starting(job)]);
    }
    hide Lists;
  }

  lemma ListsBusy(all: set<Thread>, waiting: seq<Thread>, expired: seq<Thread>, pc: map<Thread, Pc>, t: Thread, p: Pc)
    requires Lists(all, waiting, expired, pc) && t in all && t !in waiting && pc[t] != Exited && p.Busy()
    ensures Lists(all, waiting, expired, pc[t := p])
  {
  }

  lemma ListsSleep(all: set<Thread>, waiting: seq<Thread>, expired: seq<Thread>, pc: map<Thread, Pc>, t: Thread)
    requires Lists(all, waiting, expired, pc) && t in all && t !in waiting && pc[t] != Exited
    ensures Lists(all, waiting + [t], expired, pc[t := Sleeping])
  {
  }

  lemma ListsExpire(all: set<Thread>, waiting: seq<Thread>, expired: seq<Thread>, pc: map<Thread, Pc>, i: nat)
    requires Lists(all, waiting, expired, pc) && i < |waiting|
    ensures Lists(all, waiting[..i] + waiting[i + 1..], expired + [waiting[i]], pc[waiting[i] := Exited])
  {
    Removed(waiting, i);
    var t, more := waiting[i], expired + [waiting[i]];
    assert t in waiting && more[|expired|] == t;
    assert forall u :: u in more <==> u in expired || u == t;
  }

  lemma ListsLook(s: Pool, t: Thread)
    requires Lists(s.allThreads, s.waiting, s.expired, s.pc)
    requires t in s.allThreads && t !in s.waiting && t in s.pc && s.pc[t] != Exited
    ensures var n := LookForWork(s, t); Lists(n.allThreads, n.waiting, n.expired, n.pc)
  {
    hide Lists;
    ListsSleep(s.allThreads, s.waiting, s.expired, s.pc, t);
    ListsBusy(s.allThreads, s.waiting, s.expired, s.pc, t,
        Running(if s.queue == [] then 0 else s.queue[Best(s.queue)].job));
  }

  lemma NoneBusy(s: Pool)
    requires Inv(s) && s.active == 0
    ensures forall t :: t in s.pc ==> !s.pc[t].Busy()
  {
    assert forall t :: t in s.pc && s.pc[t].Busy() ==> t in BusyThreads(s.pc);
  }

  lemma ListsStep(s: Pool, a: Action)
    requires Inv(s) && Enabled(s, a)
    ensures var n := Next(s, a); Lists(n.allThreads, n.waiting, n.expired, n.pc)
  {
    hide Counts, Jobs, Joins, Started, LookForWork;
    match a
    case Start(job, priority, id) => ListsStarted(s, job, priority, id);
    case Begin(t) => ListsBusy(s.allThreads, s.waiting, s.expired, s.pc, t, Running(s.pc[t].job));
    case Finish(t) => ListsLook(s.(finished := s.finished + {s.pc[t].job}), t);
    case Wake(t) =>
      if t in s.waiting {
        ListsExpire(s.allThreads, s.waiting, s.expired, s.pc, Index(t, s.waiting));
      } else if t in s.allThreads {
        ListsLook(s.(active := s.active + 1), t);
      }
    case _ =>
      if s.active == 0 {
        NoneBusy(s);
      }
  }

  lemma BusyAfter(pc: map<Thread, Pc>, t: Thread, p: Pc)
    ensures |BusyThreads(pc[t := p])| ==
              |BusyThreads(pc)| + (if p.Busy() then 1 else 0) - (if t in pc && pc[t].Busy() then 1 else 0)
  {
    assert BusyThreads(pc[t := p]) == if p.Busy() then BusyThreads(pc) + {t} else BusyThreads(pc) - {t};
  }

  lemma CountsStarted(s: Pool, job: Job, priority: int, id: Thread)
    requires Inv(s) && id !in s.pc
    ensures var n := Started(s, job, priority, id); Counts(n.allThreads, n.capacity, n.active, n.pc)
  {
    hide Jobs, Joins, BusyThreads;
    BusyAfter(s.pc, id, Starting(job));
    if s.expired != [] {
      assert s.expired[0] in s.expired;
      BusyAfter(s.pc, s.expired[0], Starting(job));
    }
  }

  lemma CountsStep(s: Pool, a: Action)
    requires Inv(s) && Enabled(s, a)
    ensures var n := Next(s, a); Counts(n.allThreads, n.capacity, n.active, n.pc)
  {
    hide Lists, Jobs, Joins, BusyThreads, LookForWork, Started;
    match a
    case Start(job, priority, id) =>
      CountsStarted(s, job, priority, id);
    case Begin(t) =>
      BusyAfter(s.pc, t, Running(s.pc[t].job));
    case Finish(t) =>
      CountsLook(s.(finished := s.finished + {s.pc[t].job}), t);
    case Wake(t) =>
      BusyAfter(s.pc, t, Exited);
      if t !in s.waiting && t in s.allThreads {
        CountsLook(s.(active := s.active + 1), t);
      }
    case _ =>
  }

  lemma CountsLook(s: Pool, t: Thread)
    requires t in s.pc
    ensures var n := LookForWork(s, t);
            && n.allThreads == s.allThreads && n.capacity == s.capacity
            && n.active - |BusyThreads(n.pc)| == s.active - 1 - |BusyThreads(s.pc)| + (if s.pc[t].Busy() then 1 else 0)
  {
    hide BusyThreads;
    BusyAfter(s.pc, t, Sleeping);
    BusyAfter(s.pc, t, Running(if s.queue == [] then 0 else s.queue[Best(s.queue)].job));
  }

  lemma QueuedAfter(queue: seq<Queued>, q: Queued, i: nat)
    ensures forall job :: IsQueued(queue + [q], job) <==> IsQueued(queue, job) || job == q.job
    ensures i < |queue| ==>
              forall job :: IsQueued(queue, job) <==> IsQueued(queue[..i] + queue[i + 1..], job) || job == queue[i].job
  {
    forall job | IsQueued(queue, job) || job == q.job ensures IsQueued(queue + [q], job) {
      if IsQueued(queue, job) {
        var j :| 0 <= j < |queue| && queue[j].job == job;
        assert (queue + [q])[j].job == job;
      } else {
        assert (queue + [q])[|queue|].job == job;
      }
    }
    if i < |queue| {
      var rest := queue[..i] + queue[i + 1..];
      forall job | IsQueued(queue, job) && job != queue[i].job ensures IsQueued(rest, job) {
        var j :| 0 <= j < |queue| && queue[j].job == job;
        assert rest[if j < i then j else j - 1].job == job;
      }
    }
  }

  /** A new job goes to the queue. */
  lemma JobsEnqueue(queue: seq<Queued>, pc: map<Thread, Pc>, submitted: set<Job>, begun: seq<Job>, finished: set<Job>,
      q: Queued)
    requires Jobs(queue, pc, submitted, begun, finished) && q.job !in submitted
    ensures Jobs(queue + [q], pc, submitted + {q.job}, begun, finished)
  {
    QueuedAfter(queue, q, 0);
  }

  /** A new job is assigned to a thread that holds none. */
  lemma JobsAssign(queue: seq<Queued>, pc: map<Thread, Pc>, submitted: set<Job>, begun: seq<Job>, finished: set<Job>,
      t: Thread, job: Job)
    requires Jobs(queue, pc, submitted, begun, finished) && job !in submitted && (t in pc ==> !pc[t].Busy())
    ensures Jobs(queue, pc[t := Starting(job)], submitted + {job}, begun, finished)
  {
    HeldAfter(pc, t, Starting(job));
    assert Starting(job).Busy() && !IsHeld(pc, job);
  }

  lemma HeldAfter(pc: map<Thread, Pc>, t: Thread, p: Pc)
    requires OneHolder(pc)
    ensures forall u: Thread, job: Job ::
              Holds(pc[t := p], u, job) <==> (if u == t then p.Busy() && p.job == job else Holds(pc, u, job))
    ensures forall job: Job ::
              IsHeld(pc[t := p], job) <==> (p.Busy() && p.job == job) || (IsHeld(pc, job) && !Holds(pc, t, job))
    ensures !p.Busy() || !IsHeld(pc, p.job) || Holds(pc, t, p.job) ==> OneHolder(pc[t := p])
  {
    forall u: Thread, job: Job
      ensures Holds(pc[t := p], u, job) <==> (if u == t then p.Busy() && p.job == job else Holds(pc, u, job))
    {
      if u == t {
        assert pc[t := p][u] == p;
      }
    }
    forall job: Job
      ensures IsHeld(pc[t := p], job) <==> (p.Busy() && p.job == job) || (IsHeld(pc, job) && !Holds(pc, t, job))
    {
      assert p.Busy() && p.job == job ==> Holds(pc[t := p], t, job);
      if IsHeld(pc, job) && !Holds(pc, t, job) {
        var u :| Holds(pc, u, job);
        assert Holds(pc[t := p], u, job);
      }
      if IsHeld(pc[t := p], job) {
        var u :| Holds(pc[t := p], u, job);
        assert u != t ==> Holds(pc, u, job);
      }
    }
    if !p.Busy() || !IsHeld(pc, p.job) || Holds(pc, t, p.job) {
      var after := pc[t := p];
      forall u, v, job | Holds(after, u, job) && Holds(after, v, job) ensures u == v {
        assert u != t ==> Holds(pc, u, job);
        assert v != t ==> Holds(pc, v, job);
      }
    }
  }

  lemma OthersHold(pc: map<Thread, Pc>, t: Thread, job: Job)
    requires OneHolder(pc) && (!IsHeld(pc, job) || Holds(pc, t, job))
    ensures forall u :: u in pc && u != t && pc[u].Busy() ==> pc[u].job != job
  {
    forall u | u in pc && u != t && pc[u].Busy() ensures pc[u].job != job {
      assert Holds(pc, u, pc[u].job);
    }
  }

  lemma InAppended(begun: seq<Job>, job: Job)
    ensures forall j: Job :: j in begun + [job] ==> j in begun || j == job
    ensures forall j: Job :: j in begun ==> j in begun + [job]
    ensures job in begun + [job]
    ensures Distinct(begun) && job !in begun ==> Distinct(begun + [job])
  {
  }

  /** An assigned job begins. */
  lemma JobsBegin(queue: seq<Queued>, pc: map<Thread, Pc>, submitted: set<Job>, begun: seq<Job>, finished: set<Job>,
      t: Thread)
    requires Jobs(queue, pc, submitted, begun, finished) && t in pc && pc[t].Starting?
    ensures Jobs(queue, pc[t := Running(pc[t].job)], submitted, begun + [pc[t].job], finished)
  {
    HeldAfter(pc, t, Running(pc[t].job));
    assert Running(pc[t].job).Busy() && Holds(pc, t, pc[t].job);
    OthersHold(pc, t, pc[t].job);
    InAppended(begun, pc[t].job);
  }

  /** A thread drops its job, which is finished. */
  lemma JobsFinish(queue: seq<Queued>, pc: map<Thread, Pc>, submitted: set<Job>, begun: seq<Job>, finished: set<Job>,
      t: Thread)
    requires Jobs(queue, pc, submitted, begun, finished) && t in pc && pc[t].Running?
    ensures Jobs(queue, pc[t := Sleeping], submitted, begun, finished + {pc[t].job})
  {
    HeldAfter(pc, t, Sleeping);
    assert !Sleeping.Busy() && Holds(pc, t, pc[t].job);
    OthersHold(pc, t, pc[t].job);
  }

  /** A thread without a job takes the i-th queued one. */
  lemma JobsTake(queue: seq<Queued>, pc: map<Thread, Pc>, submitted: set<Job>, begun: seq<Job>, finished: set<Job>,
      t: Thread, i: nat)
    requires Jobs(queue, pc, submitted, begun, finished) && i < |queue| && t in pc && !pc[t].Busy()
    ensures Jobs(queue[..i] + queue[i + 1..], pc[t := Running(queue[i].job)], submitted, begun + [queue[i].job],
            finished)
  {
    HeldAfter(pc, t, Running(queue[i].job));
    QueuedAfter(queue, queue[i], i);
    assert Running(queue[i].job).Busy() && IsQueued(queue, queue[i].job) && !Holds(pc, t, queue[i].job);
    OthersHold(pc, t, queue[i].job);
    InAppended(begun, queue[i].job);
  }

  /** A thread without a job goes from one rest to another. */
  lemma JobsRest(queue: seq<Queued>, pc: map<Thread, Pc>, submitted: set<Job>, begun: seq<Job>, finished: set<Job>,
      t: Thread, p: Pc)
    requires Jobs(queue, pc, submitted, begun, finished) && t in pc && !pc[t].Busy() && !p.Busy()
    ensures Jobs(queue, pc[t := p], submitted, begun, finished)
  {
    HeldAfter(pc, t, p);
  }

  lemma JobsLook(s: Pool, pc: map<Thread, Pc>, t: Thread)
    requires Jobs(s.queue, pc, s.submitted, s.begun, s.finished) && t in pc && !pc[t].Busy()
             && s.pc[t := Sleeping] == pc[t := Sleeping]
    ensures var n := LookForWork(s, t); Jobs(n.queue, n.pc, n.submitted, n.begun, n.finished)
  {
    hide Jobs;
    if s.queue == [] {
      JobsRest(s.queue, pc, s.submitted, s.begun, s.finished, t, Sleeping);
    } else {
      var i := Best(s.queue);
      JobsTake(s.queue, pc, s.submitted, s.begun, s.finished, t, i);
      assert s.pc[t := Running(s.queue[i].job)] == s.pc[t := Sleeping][t := Running(s.queue[i].job)];
      assert pc[t := Running(s.queue[i].job)] == pc[t := Sleeping][t := Running(s.queue[i].job)];
    }
  }

  lemma JobsStep(s: Pool, a: Action)
    requires Inv(s) && Enabled(s, a)
    ensures var n := Next(s, a); Jobs(n.queue, n.pc, n.submitted, n.begun, n.finished)
  {
    hide Counts, Jobs, Joins, LookForWork;
    match a
    case Start(job, priority, id) =>
      JobsEnqueue(s.queue, s.pc, s.submitted, s.begun, s.finished, Queued(job, priority));
      JobsEnqueue(s.queue, s.pc, s.submitted, s.begun, s.finished, Queued(job, 0));
      JobsAssign(s.queue, s.pc, s.submitted, s.begun, s.finished, id, job);
      if s.expired != [] {
        assert s.expired[0] in s.expired;
        JobsAssign(s.queue, s.pc, s.submitted, s.begun, s.finished, s.expired[0], job);
      }
    case Begin(t) =>
      JobsBegin(s.queue, s.pc, s.submitted, s.begun, s.finished, t);
    case Finish(t) =>
      JobsFinish(s.queue, s.pc, s.submitted, s.begun, s.finished, t);
      JobsLook(s.(finished := s.finished + {s.pc[t].job}), s.pc[t := Sleeping], t);
    case Wake(t) =>
      JobsRest(s.queue, s.pc, s.submitted, s.begun, s.finished, t, Exited);
      if t !in s.waiting && t in s.allThreads {
        JobsLook(s.(active := s.active + 1), s.pc, t);
      }
    case _ =>
  }

  lemma BusyCounts(s: Pool, t: Thread)
    requires Inv(s) && t in s.pc && s.pc[t].Busy()
    ensures s.active >= 1
  {
    assert t in BusyThreads(s.pc);
  }

  lemma JoinsStep(s: Pool, a: Action)
    requires Inv(s) && Enabled(s, a)
    ensures Joins(Next(s, a))
  {
    hide Lists, Jobs;
    match a
    case Finish(t) => BusyCounts(s, t);
    case _ =>
  }

  lemma InvStep(s: Pool, a: Action)
    requires Inv(s) && Enabled(s, a)
    ensures Inv(Next(s, a))
  {
    hide Lists, Counts, Jobs, Joins, Next;
    ListsStep(s, a);
    CountsStep(s, a);
    JobsStep(s, a);
    JoinsStep(s, a);
  }

  /** A list without repetitions that is shorter than a set misses one of its members. */
  lemma Missing(all: set<Thread>, ts: seq<Thread>) returns (t: Thread)
    requires |ts| < |all|
    ensures t in all && t !in ts
    decreases ts
  {
    if ts == [] {
      t :| t in all;
    } else {
      t := Missing(all - {ts[0]}, ts[1..]);
      assert t !in [ts[0]] + ts[1..];
      assert ts == [ts[0]] + ts[1..];
    }
  }

  lemma ServedStarted(s: Pool, job: Job, priority: int, id: Thread)
    requires Inv(s) && Served(s) && s.capacity >= 1 && id !in s.pc
    ensures Served(Started(s, job, priority, id))
  {
    hide Counts, Jobs, Joins;
    var n := Started(s, job, priority, id);
    if s.allThreads == {} {
    } else if s.ActiveThreadCount() < s.capacity && s.waiting == [] && s.expired != [] {
      assert s.expired[0] in s.expired;
      assert Serves(n, s.expired[0]);
    } else if s.ActiveThreadCount() < s.capacity && s.waiting == [] {
      assert Serves(n, id);
    } else if s.waiting != [] {
      RemovedFirst(s.waiting);
      assert s.waiting[0] in s.waiting && s.waiting[0] !in n.waiting;
      assert Serves(n, s.waiting[0]);
    } else {
      var t := Missing(s.allThreads, s.expired);
      assert Serves(n, t);
    }
  }

  lemma ServedStep(s: Pool, a: Action)
    requires Inv(s) && Served(s) && s.capacity >= 1 && Enabled(s, a)
    ensures Served(Next(s, a))
  {
    hide Counts, Jobs, Joins, Started;
    var n := Next(s, a);
    match a
    case Start(job, priority, id) =>
      ServedStarted(s, job, priority, id);
      if n.queue != [] {
        var t :| Serves(Started(s, job, priority, id), t);
        assert Serves(n, t);
      }
    case Wake(w) =>
      if s.queue != [] {
        var t :| Serves(s, t);
        assert Serves(n, t) || Serves(n, w);
      }
    case _ =>
      if s.queue != [] {
        var t :| Serves(s, t);
        assert Serves(n, t) || n.queue == [];
      }
  }

  // -------- runs

  ghost predicate Legal(s: Pool, actions: seq<Action>)
    decreases |actions|
  {
    actions == [] || (Enabled(s, actions[0]) && Legal(Next(s, actions[0]), actions[1..]))
  }

  ghost function After(s: Pool, actions: seq<Action>): Pool
    requires Legal(s, actions)
    decreases |actions|
  {
    if actions == [] then s else After(Next(s, actions[0]), actions[1..])
  }

  /** Every interleaving keeps the invariant, and with a capacity of at least 1 no queued job is forgotten. */
  lemma {:induction false} RunKeeps(s: Pool, actions: seq<Action>)
    requires Inv(s) && Legal(s, actions)
    ensures Inv(After(s, actions))
    ensures Served(s) && s.capacity >= 1 ==> Served(After(s, actions))
    decreases |actions|
  {
    hide Inv, Served, Enabled, Next;
    if actions != [] {
      InvStep(s, actions[0]);
      CapacityStays(s, actions[0]);
      if Served(s) && s.capacity >= 1 {
        ServedStep(s, actions[0]);
      }
      RunKeeps(Next(s, actions[0]), actions[1..]);
    }
  }

  lemma CapacityStays(s: Pool, a: Action)
    requires Enabled(s, a)
    ensures Next(s, a).capacity == s.capacity
  {
  }

  lemma InitialInv(capacity: int)
    ensures Inv(Initial(capacity)) && Served(Initial(capacity))
  {
  }

  /** In every reachable state: the counter counts the busy threads, the waiting and the expired threads
      are disjoint parts of the pool, the pool has at most max(1, capacity) threads, and every submitted
      job is queued, held by exactly one thread, or finished. */
  lemma PoolIsSound(capacity: int, actions: seq<Action>)
    requires Legal(Initial(capacity), actions)
    ensures Inv(After(Initial(capacity), actions))
  {
    InitialInv(capacity);
    RunKeeps(Initial(capacity), actions);
  }

  /** When joinAll returns, every job submitted so far has begun exactly once and has finished. */
  lemma JoinAllMeansFinished(capacity: int, actions: seq<Action>, k: Joiner)
    requires Legal(Initial(capacity), actions)
    requires var s := After(Initial(capacity), actions);
             Enabled(s, JoinEnd(k)) && Next(s, JoinEnd(k)).joiners[k] == Returned
    ensures var s := After(Initial(capacity), actions);
            && s.finished == s.submitted && Distinct(s.begun)
            && (forall job :: job in s.submitted <==> job in s.begun)
  {
    PoolIsSound(capacity, actions);
    var s := After(Initial(capacity), actions);
    NoneBusy(s);
    forall job | job in s.submitted ensures job in s.finished {
      assert !IsHeld(s.pc, job);
    }
  }

  /** As long as joinAll has a reason to wait, some thread of the pool can move on. */
  lemma WorkGoesOn(capacity: int, actions: seq<Action>) returns (a: Action)
    requires Legal(Initial(capacity), actions) && capacity >= 1
    requires After(Initial(capacity), actions).HasWork()
    ensures var s := After(Initial(capacity), actions);
            Enabled(s, a) && (a.Begin? || a.Finish? || (a.Wake? && a.t in s.allThreads && a.t !in s.waiting))
  {
    InitialInv(capacity);
    RunKeeps(Initial(capacity), actions);
    CapacityKept(Initial(capacity), actions);
    var s := After(Initial(capacity), actions);
    var t: Thread;
    if s.queue != [] {
      t :| Serves(s, t);
    } else {
      t :| t in BusyThreads(s.pc);
    }
    a := match s.pc[t]
      case Starting(_) => Begin(t)
      case Running(_) => Finish(t)
      case _ => Wake(t);
  }

  lemma {:induction false} CapacityKept(s: Pool, actions: seq<Action>)
    requires Legal(s, actions)
    ensures After(s, actions).capacity == s.capacity
    decreases |actions|
  {
    if actions != [] {
      CapacityStays(s, actions[0]);
      CapacityKept(Next(s, actions[0]), actions[1..]);
    }
  }

  /** A queued job always has a thread that will take it exactly when the capacity is at least 1: a pool
      without capacity forgets a job that comes after its only thread has expired. */
  lemma QueuedJobsAreServed(capacity: int)
    ensures (forall actions :: Legal(Initial(capacity), actions) ==> Served(After(Initial(capacity), actions)))
            <==> capacity >= 1
  {
    InitialInv(capacity);
    if capacity >= 1 {
      forall actions | Legal(Initial(capacity), actions) ensures Served(After(Initial(capacity), actions)) {
        RunKeeps(Initial(capacity), actions);
      }
    } else {
      ForgottenJob(capacity);
    }
  }

  lemma RunFrom(s: Pool, a: Action, rest: seq<Action>)
    requires Enabled(s, a) && Legal(Next(s, a), rest)
    ensures Legal(s, [a] + rest) && After(s, [a] + rest) == After(Next(s, a), rest)
  {
    assert ([a] + rest)[1..] == rest;
  }

  lemma ForgottenJob(capacity: int)
    requires capacity < 1
    ensures var actions := [Start(0, 0, 0)] + ([Begin(0)] + ([Finish(0)] + ([Wake(0)] + [Start(1, 0, 1)])));
            Legal(Initial(capacity), actions) && !Served(After(Initial(capacity), actions))
  {
    var s1 := Next(Initial(capacity), Start(0, 0, 0));
    var s2 := Next(s1, Begin(0));
    var s3 := Next(s2, Finish(0));
    var s4 := Next(s3, Wake(0));
    var s5 := Next(s4, Start(1, 0, 1));
    assert s4.allThreads == {0} && s4.waiting == [] && s4.expired == [0] && s4.pc[0] == Exited && s4.submitted == {0};
    assert s5.queue == [Queued(1, 0)] && s5.allThreads == {0} && s5.pc == s4.pc;
    assert !Served(s5);
    hide Next, Served;
    assert Legal(s5, []) && After(s5, []) == s5 && [Start(1, 0, 1)] + [] == [Start(1, 0, 1)];
    RunFrom(s4, Start(1, 0, 1), []);
    RunFrom(s3, Wake(0), [Start(1, 0, 1)]);
    RunFrom(s2, Finish(0), [Wake(0)] + [Start(1, 0, 1)]);
    RunFrom(s1, Begin(0), [Finish(0)] + ([Wake(0)] + [Start(1, 0, 1)]));
    RunFrom(Initial(capacity), Start(0, 0, 0), [Begin(0)] + ([Finish(0)] + ([Wake(0)] + [Start(1, 0, 1)])));
  }
}
