/** Execution over an array of parameter sets: SQLExecute sends the first ones, SQLMoreResults the others. */
module ParameterSets {
  import opened Text

  /** SQL_PARAM_UNUSED, SQL_PARAM_SUCCESS and SQL_PARAM_ERROR */
  datatype Status = Unused | Success | Error

  /** What comes of sending one set: a response, with or without a result set, or an exception. */
  datatype Attempt = Response(resultSet: bool) | Failure

  /** A set that was sent. */
  datatype Entry = Entry(index: nat, attempt: Attempt)

  /** `reader` is Some(hasResultSet()) of the result reader; `statuses` and `processed` are what the pointers of
      the application lead to, None for null; `log` holds the attempts of this execution, `tries` counts all. */
  datatype State = State(
    next: nat, executed: bool, forwarded: bool, reader: Option<bool>,
    statuses: Option<seq<Status>>, processed: Option<nat>, tries: nat, log: seq<Entry>
  )

  predicate HasResultSet(st: State) { st.reader == Some(true) }

  predicate LastFailed(st: State) { st.log != [] && st.log[|st.log| - 1].attempt == Failure }

  /** The application's array is long enough for every set. */
  predicate Roomy(st: State, size: nat) { st.statuses.Some? ==> size <= |st.statuses.value| }

  function Mark(statuses: Option<seq<Status>>, i: nat, status: Status): Option<seq<Status>>
    requires statuses.Some? ==> i < |statuses.value|
  {
    if statuses.Some? then Some(statuses.value[i := status]) else None
  }

  function Count(processed: Option<nat>, n: nat): Option<nat> { if processed.Some? then Some(n) else None }

  function AllUnused(statuses: Option<seq<Status>>, size: nat): (r: Option<seq<Status>>)
    requires statuses.Some? ==> size <= |statuses.value|
    ensures r.Some? == statuses.Some? && (r.Some? ==> |r.value| == |statuses.value|)
    ensures r.Some? ==> forall i :: 0 <= i < |r.value| ==> r.value[i] == if i < size then Unused else statuses.value[i]
  {
    if statuses.Some? then
      Some(seq(|statuses.value|, i requires 0 <= i < |statuses.value| => if i < size then Unused
          else statuses.value[i]))
    else None
  }

  /** requestNextPackOfResultSets; false is the exception. */
  function Request(st: State, size: nat, answers: nat -> Attempt): (r: (State, bool))
    requires Roomy(st, size)
    ensures Roomy(r.0, size) && (st.next < size && r.1 ==> r.0.next == st.next + 1)
  {
    if st.next >= size then (st.(reader := None), true)
    else
      var attempt := answers(st.tries);
      var sent := st.(processed := Count(st.processed, st.next + 1), tries := st.tries + 1,
                      log := st.log + [Entry(st.next, attempt)]);
      match attempt
      case Failure => (sent.(reader := None, statuses := Mark(st.statuses, st.next, Error)), false)
      case Response(resultSet) =>
        (sent.(reader := Some(resultSet), statuses := Mark(st.statuses, st.next, Success), next := st.next + 1), true)
  }

  /** The loop of executeQuery over the sets that return nothing. */
  function SendRest(st: State, size: nat, answers: nat -> Attempt): (r: (State, bool))
    requires Roomy(st, size)
    ensures Roomy(r.0, size)
    decreases if st.next < size then size - st.next else 0
  {
    if HasResultSet(st) || st.next >= size then (st, true)
    else
      var (next, ok) := Request(st, size, answers);
      if ok then SendRest(next, size, answers) else (next, false)
  }

  function Restarted(st: State, size: nat): State
    requires Roomy(st, size)
  {
    st.(processed := Count(st.processed, 0), next := 0, statuses := AllUnused(st.statuses, size), log := [])
  }

  /** executeQuery */
  function Execute(st: State, size: nat, answers: nat -> Attempt): (r: (State, bool))
    requires Roomy(st, size)
    ensures Roomy(r.0, size)
  {
    if st.executed && st.forwarded then (st.(forwarded := false), true)
    else
      var (first, ok) := Request(Restarted(st, size), size, answers);
      if !ok then (first, false)
      else
        var (last, done) := SendRest(first, size, answers);
        if done then (last.(executed := true), true) else (last, false)
  }

  /** forwardExecuteQuery */
  function ForwardExecute(st: State, size: nat, answers: nat -> Attempt): (r: (State, bool))
    requires Roomy(st, size)
    ensures Roomy(r.0, size)
  {
    if st.executed then (st, true)
    else
      var (next, ok) := Execute(st, size, answers);
      if ok then (next.(forwarded := true), true) else (next, false)
  }

  /** advanceToNextResultSet: whether there is another result set, or None for the exception. No format has
      more than one result set in a response. */
  function MoreResults(st: State, size: nat, answers: nat -> Attempt): (r: (State, Option<bool>))
    requires Roomy(st, size)
    ensures Roomy(r.0, size)
  {
    if !st.executed then (st, Some(false))
    else
      var (next, ok) := Request(st, size, answers);
      (next, if ok then Some(HasResultSet(next)) else None)
  }

  function Run(st: State, size: nat, answers: nat -> Attempt, calls: nat): (r: State)
    requires Roomy(st, size)
    ensures Roomy(r, size)
    decreases calls
  {
    if calls == 0 then st else Run(MoreResults(st, size, answers).0, size, answers, calls - 1)
  }

  // -------- what every run keeps

  function Successes(log: seq<Entry>): nat {
    if log == [] then 0 else Successes(log[..|log| - 1]) + (if log[|log| - 1].attempt.Response? then 1 else 0)
  }

  /** Every attempt is for the set behind the ones that were sent successfully before. */
  ghost predicate InOrder(log: seq<Entry>) { forall k :: 0 <= k < |log| ==> log[k].index == Successes(log[..k]) }

  ghost predicate StatusesMatch(st: State, size: nat) {
    st.statuses.Some? ==>
      && size <= |st.statuses.value|
      && (forall i :: 0 <= i < st.next && i < size ==> st.statuses.value[i] == Success)
      && (st.next < size ==> st.statuses.value[st.next] == if LastFailed(st) then Error else Unused)
      && (forall i :: st.next < i < size ==> st.statuses.value[i] == Unused)
  }

  ghost predicate Inv(st: State, size: nat) {
    && st.next <= size && (LastFailed(st) ==> st.next < size && st.reader == None)
    && InOrder(st.log) && Successes(st.log) == st.next
    && StatusesMatch(st, size)
    && (st.processed.Some? ==> st.processed.value == st.next + (if LastFailed(st) then 1 else 0))
  }

  lemma LogGrows(log: seq<Entry>, entry: Entry)
    requires InOrder(log) && entry.index == Successes(log)
    ensures InOrder(log + [entry]) && Successes(log + [entry])
            == Successes(log) + (if entry.attempt.Response? then 1 else 0)
  {
    var longer := log + [entry];
    assert longer[..|log|] == log;
    forall k | 0 <= k < |longer| ensures longer[k].index == Successes(longer[..k]) {
      assert k < |log| ==> longer[..k] == log[..k];
    }
  }

  lemma RequestLog(st: State, size: nat, answers: nat -> Attempt)
    requires Inv(st, size) && st.next < size
    ensures var next := Request(st, size, answers).0;
            && InOrder(next.log) && Successes(next.log) == next.next
            && (LastFailed(next) <==> answers(st.tries) == Failure)
  {
    hide InOrder, Successes, StatusesMatch;
    LogGrows(st.log, Entry(st.next, answers(st.tries)));
  }

  lemma RequestStatuses(st: State, size: nat, answers: nat -> Attempt)
    requires StatusesMatch(st, size) && st.next < size
    requires LastFailed(Request(st, size, answers).0) <==> answers(st.tries) == Failure
    ensures StatusesMatch(Request(st, size, answers).0, size)
  {
    hide LastFailed;
  }

  lemma RequestKeeps(st: State, size: nat, answers: nat -> Attempt)
    requires Inv(st, size)
    ensures Inv(Request(st, size, answers).0, size)
  {
    hide InOrder, Successes, StatusesMatch, LastFailed;
    if st.next < size {
      RequestLog(st, size, answers);
      RequestStatuses(st, size, answers);
    } else {
      SameStatuses(st, st.(reader := None), size);
    }
  }

  lemma SameStatuses(st: State, next: State, size: nat)
    requires StatusesMatch(st, size) && next == st.(reader := None)
    ensures StatusesMatch(next, size) && LastFailed(next) == LastFailed(st)
  {
  }

  lemma RestartedInv(st: State, size: nat)
    requires Roomy(st, size)
    ensures Inv(Restarted(st, size), size)
  {
  }

  lemma {:induction false} SendRestKeeps(st: State, size: nat, answers: nat -> Attempt)
    requires Inv(st, size)
    ensures var (last, ok) := SendRest(st, size, answers);
            Inv(last, size) && (ok ==> HasResultSet(last) || last.next == size) && last.executed == st.executed
            && (!ok ==> LastFailed(last))
    decreases if st.next < size then size - st.next else 0
  {
    hide Inv;
    BoundOf(st, size);
    if !HasResultSet(st) && st.next < size {
      RequestKeeps(st, size, answers);
      var (next, ok) := Request(st, size, answers);
      if ok {
        SendRestKeeps(next, size, answers);
      }
    }
  }

  lemma BoundOf(st: State, size: nat)
    requires Inv(st, size)
    ensures st.next <= size && Roomy(st, size)
  {
  }

  /** One execution that is not the second half of a forwarded one, and any number of calls of SQLMoreResults:
      the sets are attempted in order, the statuses and the count of processed sets say how far it got. */
  lemma RunKeeps(st: State, size: nat, answers: nat -> Attempt, calls: nat)
    requires Roomy(st, size) && !(st.executed && st.forwarded)
    ensures Inv(Run(Execute(st, size, answers).0, size, answers, calls), size)
  {
    hide Inv, InOrder, StatusesMatch;
    RestartedInv(st, size);
    var restarted := Restarted(st, size);
    RequestKeeps(restarted, size, answers);
    var (first, ok) := Request(restarted, size, answers);
    if ok {
      SendRestKeeps(first, size, answers);
      SameInv(SendRest(first, size, answers).0, size, true);
    }
    MoreKeeps(Execute(st, size, answers).0, size, answers, calls);
  }

  lemma SameInv(st: State, size: nat, executed: bool)
    requires Inv(st, size)
    ensures Inv(st.(executed := executed), size)
  {
  }

  lemma {:induction false} MoreKeeps(st: State, size: nat, answers: nat -> Attempt, calls: nat)
    requires Inv(st, size) && Roomy(st, size)
    ensures Inv(Run(st, size, answers, calls), size)
    decreases calls
  {
    hide Inv;
    if calls > 0 {
      if st.executed {
        RequestKeeps(st, size, answers);
      }
      MoreKeeps(MoreResults(st, size, answers).0, size, answers, calls - 1);
    }
  }

  /** An execution that returns normally leaves a result set to fetch, or has sent every set; one that throws
      leaves the set to blame marked, and the statement executed only if it was before. */
  lemma ExecutionEnds(st: State, size: nat, answers: nat -> Attempt)
    requires Roomy(st, size) && !(st.executed && st.forwarded)
    ensures var (last, ok) := Execute(st, size, answers);
            if ok then last.executed && (HasResultSet(last) || last.next == size)
            else LastFailed(last) && last.next < size && last.executed == st.executed
  {
    hide Inv;
    RestartedInv(st, size);
    var restarted := Restarted(st, size);
    RequestKeeps(restarted, size, answers);
    var (first, ok) := Request(restarted, size, answers);
    BoundOf(first, size);
    if ok {
      SendRestKeeps(first, size, answers);
      FailedBound(SendRest(first, size, answers).0, size);
    } else {
      FailedBound(first, size);
    }
  }

  lemma FailedBound(st: State, size: nat)
    requires Inv(st, size)
    ensures LastFailed(st) ==> st.next < size
  {
  }

  /** Attempts number `first` to `first + n - 1` were those for the sets 0 to n - 1, and none in front of the last one
      had a result set or failed. */
  ghost predicate Sent(log: seq<Entry>, n: nat, answers: nat -> Attempt, first: nat) {
    && |log| == n
    && (forall i :: 0 <= i < n ==> log[i] == Entry(i, answers(first + i)))
    && (forall i :: 0 <= i < n - 1 ==> log[i].attempt == Response(false))
  }

  /** The state behind `n` attempts of an execution that began with attempt number `first`. */
  ghost predicate Reached(st: State, n: nat, answers: nat -> Attempt, first: nat) {
    && Sent(st.log, n, answers, first) && st.tries == first + n
    && if n == 0 then st.next == 0
       else
         match answers(first + n - 1)
         case Failure => st.next == n - 1 && st.reader == None
         case Response(resultSet) => st.next == n && st.reader == Some(resultSet)
  }

  lemma RequestReaches(st: State, size: nat, answers: nat -> Attempt, n: nat, first: nat)
    requires Roomy(st, size) && Reached(st, n, answers, first) && st.next == n < size
    requires n > 0 ==> answers(first + n - 1) == Response(false)
    ensures Reached(Request(st, size, answers).0, n + 1, answers, first)
    ensures Request(st, size, answers).1 <==> answers(first + n).Response?
  {
  }

  lemma {:induction false} SendRestReaches(st: State, size: nat, answers: nat -> Attempt, n: nat, first: nat)
      returns (m: nat)
    requires Roomy(st, size) && Reached(st, n, answers, first) && 0 < n == st.next <= size
    requires answers(first + n - 1).Response?
    ensures 0 < m <= size && Reached(SendRest(st, size, answers).0, m, answers, first)
    ensures m == size || answers(first + m - 1) != Response(false)
    ensures SendRest(st, size, answers).1 <==> answers(first + m - 1).Response?
    decreases size - n
  {
    hide Request, Reached;
    m := n;
    ReaderReached(st, n, answers, first);
    if !HasResultSet(st) && st.next < size {
      RequestReaches(st, size, answers, n, first);
      var (next, ok) := Request(st, size, answers);
      ReaderReached(next, n + 1, answers, first);
      if ok {
        m := SendRestReaches(next, size, answers, n + 1, first);
      } else {
        m := n + 1;
      }
    }
  }

  lemma ReaderReached(st: State, n: nat, answers: nat -> Attempt, first: nat)
    requires Reached(st, n, answers, first) && n > 0
    ensures answers(first + n - 1).Response? ==>
              st.next == n && (HasResultSet(st) <==> answers(first + n - 1) == Response(true))
  {
  }

  /** An execution sends the sets from the first one on, up to one that has a result set or fails, or to the end of the
      array; it throws if and only if the last of them fails, and the reader is that of the last one. */
  lemma ExecutionExactly(st: State, size: nat, answers: nat -> Attempt) returns (n: nat)
    requires Roomy(st, size) && !(st.executed && st.forwarded)
    ensures var (last, ok) := Execute(st, size, answers);
            && n <= size && Reached(last, n, answers, st.tries)
            && (n == size || (n > 0 && answers(st.tries + n - 1) != Response(false)))
            && (ok <==> n == 0 || answers(st.tries + n - 1).Response?)
            && (n == 0 ==> last.reader == None)
  {
    hide Request, SendRest;
    var restarted := Restarted(st, size);
    assert Reached(restarted, 0, answers, st.tries);
    n := 0;
    if size > 0 {
      RequestReaches(restarted, size, answers, 0, st.tries);
      var (first, ok) := Request(restarted, size, answers);
      n := 1;
      if ok {
        n := SendRestReaches(first, size, answers, 1, st.tries);
      }
    } else {
      NothingSent(restarted, size, answers);
    }
  }

  lemma NothingSent(st: State, size: nat, answers: nat -> Attempt)
    requires Roomy(st, size) && st.next >= size
    ensures Request(st, size, answers) == (st.(reader := None), true)
    ensures SendRest(st.(reader := None), size, answers) == (st.(reader := None), true)
  {
  }

  /** SQLMoreResults sends one more set, if there is one, and says whether that has a result set, or throws when it
      fails; without one, or without an execution, there is no further result set. */
  lemma MoreResultsExactly(st: State, size: nat, answers: nat -> Attempt)
    requires Roomy(st, size)
    ensures var (last, r) := MoreResults(st, size, answers);
            if !st.executed || st.next >= size then
              r == Some(false) && last.log == st.log && last.tries == st.tries && last.next == st.next
            else
              && last.log == st.log + [Entry(st.next, answers(st.tries))] && last.tries == st.tries + 1
              && match answers(st.tries)
                 case Failure => r == None && last.next == st.next && last.reader == None
                 case Response(resultSet) =>
                   r == Some(resultSet) && last.next == st.next + 1 && last.reader == Some(resultSet)
  {
  }

  /** What the order of the attempts means: a set that was sent is never sent again, no set is skipped, and a
      set that failed is the next one to be attempted. */
  lemma OnceAndInOrder(log: seq<Entry>, j: nat, k: nat)
    requires InOrder(log) && j < k < |log|
    ensures log[j].attempt.Response? ==> log[j].index < log[k].index
    ensures log[j].index <= log[k].index
    ensures k == j + 1 ==> log[k].index == log[j].index + (if log[j].attempt.Response? then 1 else 0)
  {
    SuccessesGrow(log[..k], j + 1);
    assert log[..k][..j + 1][..j] == log[..j] && log[..k][..j + 1][j] == log[j];
    assert log[..k][..j + 1] == log[..j + 1];
  }

  lemma {:induction false} SuccessesGrow(log: seq<Entry>, n: nat)
    requires n <= |log|
    ensures Successes(log[..n]) <= Successes(log)
    decreases |log| - n
  {
    if n == |log| {
      assert log[..n] == log;
    } else {
      SuccessesGrow(log, n + 1);
      assert log[..n + 1][..n] == log[..n];
    }
  }

  /** A failed set is sent again by the next call of SQLMoreResults, but only if the statement has been
      executed: when the very first execution fails, SQLMoreResults finds no data and sends nothing. */
  lemma FailedSetIsRetried(st: State, size: nat, answers: nat -> Attempt)
    requires Inv(st, size) && LastFailed(st)
    ensures var (last, r) := MoreResults(st, size, answers);
            if st.executed then last.log == st.log + [Entry(st.next, answers(st.tries))]
                && st.log[|st.log| - 1].index == st.next
            else last == st && r == Some(false)
  {
    assert st.log[..|st.log| - 1] + [st.log[|st.log| - 1]] == st.log;
  }

  /** When every set has been sent, SQLMoreResults finds no data and sends nothing. */
  lemma NothingLeft(st: State, size: nat, answers: nat -> Attempt)
    requires Inv(st, size) && st.next == size
    ensures var (last, r) := MoreResults(st, size, answers);
            r == Some(false) && last.log == st.log && last.statuses == st.statuses && last.processed == st.processed
  {
  }

  /** SQLPrepare-time metadata runs the statement once, and the SQLExecute behind it does not run it again. */
  lemma ForwardedOnce(st: State, size: nat, answers: nat -> Attempt)
    requires Roomy(st, size) && !st.executed
    ensures var (prepared, ok) := ForwardExecute(st, size, answers);
            if ok then Execute(prepared, size, answers) == (Execute(st, size, answers).0.(forwarded := false), true)
            else (prepared, false) == Execute(st, size, answers)
  {
    hide Request, SendRest;
    ForwardFlag(st, size, answers);
  }

  lemma ForwardFlag(st: State, size: nat, answers: nat -> Attempt)
    requires Roomy(st, size) && !st.executed
    ensures Execute(st, size, answers).1 ==> Execute(st, size, answers).0.executed
  {
    hide Request, SendRest;
  }

  // -------- the statement

  /** closeCursor */
  function Closed(st: State): State { st.(reader := None, executed := false, forwarded := false) }

  lemma {:induction false} SendRestLog(st: State, size: nat, answers: nat -> Attempt)
    requires Roomy(st, size)
    ensures st.log <= SendRest(st, size, answers).0.log
    decreases if st.next < size then size - st.next else 0
  {
    if !HasResultSet(st) && st.next < size {
      var (next, ok) := Request(st, size, answers);
      if ok {
        SendRestLog(next, size, answers);
      }
    }
  }

  /** When the cursor is closed, SQLMoreResults finds no data, and the next execution sends the sets again from the
      first one on, even if an earlier execution had been forwarded. */
  lemma ClosedStartsOver(st: State, size: nat, answers: nat -> Attempt)
    requires Roomy(st, size)
    ensures MoreResults(Closed(st), size, answers) == (Closed(st), Some(false)) && Closed(st).reader == None
    ensures size > 0 ==> [Entry(0, answers(st.tries))] <= Execute(Closed(st), size, answers).0.log
  {
    var (first, ok) := Request(Restarted(Closed(st), size), size, answers);
    if size > 0 && ok {
      SendRestLog(first, size, answers);
    }
  }

  class Statement {
    var next: nat
    var executed: bool
    var forwarded: bool
    var reader: Option<bool>
    const status: array?<Status>
    var processed: Option<nat>
    var tries: nat
    ghost var log: seq<Entry>

    ghost function View(): State
      reads this, status
    {
      State(next, executed, forwarded, reader, if status == null then None else Some(status[..]), processed, tries, log)
    }

    constructor (status: array?<Status>, counts: bool)
      ensures this.status == status
      ensures View() == State(0, false, false, None, if status == null then None else Some(status[..]),
                              if counts then Some(0) else None, 0, [])
    {
      this.status := status;
      next, executed, forwarded, reader := 0, false, false, None;
      processed, tries, log := if counts then Some(0) else None, 0, [];
    }

    /** requestNextPackOfResultSets and sendParamSet; false stands for the exception. */
    method RequestNextPack(size: nat, answers: nat -> Attempt) returns (ok: bool)
      requires Roomy(View(), size)
      modifies this, status
      ensures (View(), ok) == Request(old(View()), size, answers)
    {
      reader := None;
      if next >= size {
        return true;
      }
      var index := next;
      if processed.Some? {
        processed := Some(index + 1);
      }
      var attempt := answers(tries);
      tries, log := tries + 1, log + [Entry(index, attempt)];
      if attempt.Failure? {
        if status != null {
          status[index] := Error;
        }
        return false;
      }
      reader := Some(attempt.resultSet);
      next := next + 1;
      if status != null {
        status[index] := Success;
      }
      return true;
    }

    method ExecuteQuery(size: nat, answers: nat -> Attempt) returns (ok: bool)
      requires Roomy(View(), size)
      modifies this, status
      ensures (View(), ok) == Execute(old(View()), size, answers)
    {
      hide Request, SendRest;
      if executed && forwarded {
        forwarded := false;
        return true;
      }
      Restart(size);
      ghost var restarted := View();
      ok := RequestNextPack(size, answers);
      if !ok {
        return;
      }
      ok := SendOthers(size, answers);
      if ok {
        executed := true;
      }
    }

    method Restart(size: nat)
      requires Roomy(View(), size)
      modifies this, status
      ensures Roomy(old(View()), size) && View() == Restarted(old(View()), size)
    {
      ghost var before := View().statuses;
      if processed.Some? {
        processed := Some(0);
      }
      next, log := 0, [];
      if status != null {
        for i := 0 to size
          invariant next == 0 && log == [] && processed == old(Count(processed, 0))
          invariant executed == old(executed) && forwarded == old(forwarded) && reader == old(reader)
                    && tries == old(tries)
          invariant forall k :: 0 <= k < i ==> status[k] == Unused
          invariant forall k :: i <= k < status.Length ==> status[k] == old(status[k])
          modifies status
        {
          status[i] := Unused;
        }
        assert status[..] == AllUnused(before, size).value;
      }
    }

    /** The sets behind the first one, up to one with a result set. */
    method SendOthers(size: nat, answers: nat -> Attempt) returns (ok: bool)
      requires Roomy(View(), size)
      modifies this, status
      ensures (View(), ok) == SendRest(old(View()), size, answers)
    {
      hide Request;
      ok := true;
      while reader != Some(true) && next < size
        invariant Roomy(View(), size) && SendRest(old(View()), size, answers) == SendRest(View(), size, answers)
        decreases size - next
      {
        ok := RequestNextPack(size, answers);
        if !ok {
          return;
        }
      }
    }

    method ForwardExecuteQuery(size: nat, answers: nat -> Attempt) returns (ok: bool)
      requires Roomy(View(), size)
      modifies this, status
      ensures (View(), ok) == ForwardExecute(old(View()), size, answers)
    {
      hide Execute;
      if executed {
        return true;
      }
      ok := ExecuteQuery(size, answers);
      if ok {
        forwarded := true;
      }
    }

    /** None stands for the exception. */
    method AdvanceToNextResultSet(size: nat, answers: nat -> Attempt) returns (r: Option<bool>)
      requires Roomy(View(), size)
      modifies this, status
      ensures (View(), r) == MoreResults(old(View()), size, answers)
    {
      hide Request;
      if !executed {
        return Some(false);
      }
      var ok := RequestNextPack(size, answers);
      return if ok then Some(reader == Some(true)) else None;
    }

    method CloseCursor()
      modifies this
      ensures View() == Closed(old(View()))
    {
      reader, executed, forwarded := None, false, false;
    }
  }
}
