/** How the worker pool uses its threads: a job waits only behind a full pool or for a thread that has been signalled,
    and no thread is left behind. */
module PoolThreads {
  import opened ThreadPool

  /** Threads of the pool that were taken off the waiting list by a signal and have not woken yet. */
  ghost function Signalled(s: Pool): set<Thread> {
    set t | t in s.allThreads && t in s.pc && s.pc[t] == Sleeping && t !in s.waiting
  }

  /** A signalled thread is on its way for each queued job, or the pool is full. */
  ghost predicate Used(s: Pool) {
    && (|s.queue| <= |Signalled(s)| || s.ActiveThreadCount() >= s.capacity)
    && (s.allThreads == {} ==> s.queue == [])
  }

  /** Whether start() finds a thread for its job at once, or wakes one for the queue. */
  predicate FindsThread(s: Pool) { s.allThreads == {} || s.ActiveThreadCount() < s.capacity || s.waiting != [] }

  /** One more thread is in use behind start(), unless the pool is full and none of its threads waits; the thread that
      has waited longest goes first, and a new one is made only when none waits and none has expired. */
  lemma StartUsesThread(s: Pool, job: Job, priority: int, id: Thread)
    requires Inv(s) && Enabled(s, Start(job, priority, id))
    ensures var n := Next(s, Start(job, priority, id));
            && n.ActiveThreadCount() == s.ActiveThreadCount() + (if FindsThread(s) then 1 else 0)
            && n.waiting == (if s.waiting != [] then s.waiting[1..] else [])
            && (n.allThreads != s.allThreads <==> FindsThread(s) && s.waiting == [] && s.expired == [])
            && (FindsThread(s) && s.waiting == [] ==> n.queue == s.queue && IsHeld(n.pc, job))
            && (!FindsThread(s) || s.waiting != [] ==>
                  n.queue == s.queue + [Queued(job, if s.ActiveThreadCount() < s.capacity then 0 else priority)])
  {
    hide Inv;
    InvParts(s);
    var n := Next(s, Start(job, priority, id));
    if FindsThread(s) && s.waiting == [] {
      assert Holds(n.pc, if s.allThreads != {} && s.expired != [] then s.expired[0] else id, job);
    }
  }

  lemma InvParts(s: Pool)
    requires Inv(s)
    ensures s.allThreads == {} ==> s.waiting == [] && s.expired == []
    ensures forall t :: t in s.allThreads ==> t in s.pc
  {
    hide Counts, Jobs, Joins;
    assert s.waiting != [] ==> s.waiting[0] in s.waiting;
    assert s.expired != [] ==> s.expired[0] in s.expired;
  }

  /** The step takes a signalled thread away exactly when that thread looks at the queue. */
  lemma UsedWoken(s: Pool, t: Thread)
    requires Inv(s) && Enabled(s, Wake(t)) && Used(s)
    ensures Used(Next(s, Wake(t)))
  {
    hide Counts, Jobs, Joins, Best;
    var n := Next(s, Wake(t));
    if t in s.waiting {
      assert s.waiting[Index(t, s.waiting)] == t;
      Removed(s.waiting, Index(t, s.waiting));
      assert Signalled(n) == Signalled(s);
    } else if t !in s.allThreads {
      assert Signalled(n) == Signalled(s);
    } else if s.queue != [] {
      assert Signalled(n) == Signalled(s) - {t} && t in Signalled(s);
    }
  }

  lemma UsedStarted(s: Pool, job: Job, priority: int, id: Thread)
    requires Inv(s) && Enabled(s, Start(job, priority, id)) && Used(s)
    ensures Used(Next(s, Start(job, priority, id)))
  {
    hide Inv, Started, Signalled;
    StartUsesThread(s, job, priority, id);
    SignalledStarted(s, job, priority, id);
    InvParts(s);
  }

  lemma SignalledStarted(s: Pool, job: Job, priority: int, id: Thread)
    requires Inv(s) && Enabled(s, Start(job, priority, id))
    ensures var n := Next(s, Start(job, priority, id));
            |Signalled(n)| == |Signalled(s)| + (if s.waiting != [] then 1 else 0) && n.allThreads != {}
            && n.capacity == s.capacity
  {
    hide Inv, Signalled;
    var n := Next(s, Start(job, priority, id));
    InvParts(s);
    if s.waiting != [] {
      assert n.allThreads == s.allThreads && n.pc == s.pc && n.waiting == s.waiting[1..];
      FirstSignalled(s, n);
    } else {
      NoneSignalled(s, job, priority, id);
    }
  }

  lemma FirstSignalled(s: Pool, n: Pool)
    requires Inv(s) && s.waiting != []
    requires n.allThreads == s.allThreads && n.pc == s.pc && n.waiting == s.waiting[1..]
    ensures |Signalled(n)| == |Signalled(s)| + 1
  {
    hide Counts, Jobs, Joins;
    RemovedFirst(s.waiting);
    assert s.waiting[0] in s.waiting && s.waiting[0] !in Signalled(s);
    assert Signalled(n) == Signalled(s) + {s.waiting[0]};
  }

  lemma NoneSignalled(s: Pool, job: Job, priority: int, id: Thread)
    requires Inv(s) && Enabled(s, Start(job, priority, id)) && s.waiting == []
    ensures Signalled(Next(s, Start(job, priority, id))) == Signalled(s)
  {
    hide Counts, Jobs, Joins;
    InvParts(s);
    assert s.expired != [] ==> s.expired[0] in s.expired;
  }

  lemma UsedStep(s: Pool, a: Action)
    requires Inv(s) && Enabled(s, a) && Used(s)
    ensures Used(Next(s, a))
  {
    match a
    case Start(job, priority, id) => UsedStarted(s, job, priority, id);
    case Wake(t) => UsedWoken(s, t);
    case Begin(t) => UsedBegun(s, t);
    case Finish(t) => UsedFinished(s, t);
    case _ => UsedJoined(s, a);
  }

  lemma UsedBegun(s: Pool, t: Thread)
    requires Inv(s) && Enabled(s, Begin(t)) && Used(s)
    ensures Used(Next(s, Begin(t)))
  {
    hide Inv;
    assert Signalled(Next(s, Begin(t))) == Signalled(s);
  }

  lemma UsedFinished(s: Pool, t: Thread)
    requires Inv(s) && Enabled(s, Finish(t)) && Used(s)
    ensures Used(Next(s, Finish(t)))
  {
    hide Counts, Jobs, Joins, Best;
    if s.queue != [] {
      assert Signalled(Next(s, Finish(t))) == Signalled(s);
    }
  }

  lemma UsedJoined(s: Pool, a: Action)
    requires Inv(s) && Enabled(s, a) && Used(s) && (a.Join? || a.JoinWake? || a.JoinThread? || a.JoinEnd?)
    ensures Used(Next(s, a))
  {
    hide Inv;
    var n := Next(s, a);
    if n.allThreads == s.allThreads && n.waiting == s.waiting {
      assert Signalled(n) == Signalled(s);
    }
  }

  lemma {:induction false} UsedInRun(s: Pool, actions: seq<Action>)
    requires Inv(s) && Used(s) && Legal(s, actions)
    ensures Used(After(s, actions))
    decreases |actions|
  {
    hide Inv, Used, Enabled, Next;
    if actions != [] {
      InvStep(s, actions[0]);
      UsedStep(s, actions[0]);
      UsedInRun(Next(s, actions[0]), actions[1..]);
    }
  }

  /** In every reachable state: a job is queued only while the pool is full, or while a thread that was signalled for
      it is on its way. */
  lemma ThreadsAreUsed(capacity: int, actions: seq<Action>)
    requires Legal(Initial(capacity), actions)
    ensures var s := After(Initial(capacity), actions);
            |s.queue| <= |Signalled(s)| || s.ActiveThreadCount() >= capacity
  {
    InitialInv(capacity);
    UsedInRun(Initial(capacity), actions);
    CapacityKept(Initial(capacity), actions);
  }

  // -------- the end of threads

  ghost predicate AwaitedBy(joiners: map<Joiner, JoinPc>, k: Joiner, t: Thread) {
    k in joiners && joiners[k].Joining? && t in joiners[k].left
  }

  ghost predicate IsAwaited(joiners: map<Joiner, JoinPc>, t: Thread) { exists k :: AwaitedBy(joiners, k, t) }

  /** Each thread that was started belongs to the pool, has returned, or is awaited by a caller of joinAll. */
  ghost predicate Accounted(all: set<Thread>, pc: map<Thread, Pc>, joiners: map<Joiner, JoinPc>) {
    forall t :: t in pc ==> t in all || pc[t] == Exited || IsAwaited(joiners, t)
  }

  lemma StillAwaited(before: map<Joiner, JoinPc>, after: map<Joiner, JoinPc>, t: Thread)
    requires IsAwaited(before, t) && (forall k :: AwaitedBy(before, k, t) ==> AwaitedBy(after, k, t))
    ensures IsAwaited(after, t)
  {
    var k :| AwaitedBy(before, k, t);
    assert AwaitedBy(after, k, t);
  }

  lemma AccountedStep(s: Pool, a: Action)
    requires Inv(s) && Enabled(s, a) && Accounted(s.allThreads, s.pc, s.joiners)
    ensures var n := Next(s, a); Accounted(n.allThreads, n.pc, n.joiners)
  {
    hide Counts, Jobs, Joins, Best, IsAwaited;
    var n := Next(s, a);
    forall t | t in n.pc && t !in n.allThreads && n.pc[t] != Exited ensures IsAwaited(n.joiners, t) {
      if t in s.allThreads {
        assert AwaitedBy(n.joiners, a.k, t);
        assert IsAwaited(n.joiners, t) by { TakenOut(n.joiners, a.k, t); }
      } else {
        StillAwaited(s.joiners, n.joiners, t);
      }
    }
  }

  lemma TakenOut(joiners: map<Joiner, JoinPc>, k: Joiner, t: Thread)
    requires AwaitedBy(joiners, k, t)
    ensures IsAwaited(joiners, t)
  {
  }

  lemma {:induction false} AccountedInRun(s: Pool, actions: seq<Action>)
    requires Inv(s) && Legal(s, actions) && Accounted(s.allThreads, s.pc, s.joiners)
    ensures var e := After(s, actions); Accounted(e.allThreads, e.pc, e.joiners)
    decreases |actions|
  {
    hide Inv, Accounted, Enabled, Next;
    if actions != [] {
      InvStep(s, actions[0]);
      AccountedStep(s, actions[0]);
      AccountedInRun(Next(s, actions[0]), actions[1..]);
    }
  }

  /** When joinAll returns, every thread that was ever started and is not in the pool has returned from run(), or is
      awaited by another caller. */
  lemma JoinAllLeavesNoThread(capacity: int, actions: seq<Action>, k: Joiner)
    requires Legal(Initial(capacity), actions) && Enabled(After(Initial(capacity), actions), JoinEnd(k))
    ensures var s := After(Initial(capacity), actions);
            forall t :: t in s.pc && t !in s.allThreads && s.pc[t] != Exited ==>
              exists other :: other != k && AwaitedBy(s.joiners, other, t)
  {
    InitialInv(capacity);
    AccountedInRun(Initial(capacity), actions);
    var s := After(Initial(capacity), actions);
    forall t | t in s.pc && t !in s.allThreads && s.pc[t] != Exited
      ensures exists other :: other != k && AwaitedBy(s.joiners, other, t)
    {
      var other :| AwaitedBy(s.joiners, other, t);
      assert other != k;
    }
  }
}
