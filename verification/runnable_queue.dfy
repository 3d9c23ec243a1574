/** The queue of the worker pool: one list of runnables for each priority, the list with the highest first. */
module RunnableQueue {
  import opened ThreadPool

  datatype RunnableList = RunnableList(priority: int, runnables: seq<Job>)

  /** The jobs of one priority, in the order in which they were queued. */
  function Of(order: seq<Queued>, priority: int): seq<Job> {
    if order == [] then []
    else
      var last := order[|order| - 1];
      Of(order[..|order| - 1], priority) + (if last.priority == priority then [last.job] else [])
  }

  ghost predicate DistinctPriorities(queues: seq<RunnableList>) {
    forall i, j :: 0 <= i < j < |queues| ==> queues[i].priority != queues[j].priority
  }

  ghost predicate FrontIsHighest(queues: seq<RunnableList>) {
    forall i :: 0 <= i < |queues| ==> queues[i].priority <= queues[0].priority
  }

  ghost predicate HasList(queues: seq<RunnableList>, priority: int) {
    exists i :: 0 <= i < |queues| && queues[i].priority == priority
  }

  /** The lists hold the jobs of the order, those of each priority in their order. */
  ghost predicate Represents(queues: seq<RunnableList>, order: seq<Queued>) {
    && DistinctPriorities(queues)
    && (forall i :: 0 <= i < |queues| ==> queues[i].runnables == Of(order, queues[i].priority) != [])
    && (forall k :: 0 <= k < |order| ==> HasList(queues, order[k].priority))
  }

  // -------- the order

  lemma OfAppend(order: seq<Queued>, q: Queued, priority: int)
    ensures Of(order + [q], priority) == if q.priority == priority then Of(order, priority) + [q.job]
            else Of(order, priority)
  {
    assert (order + [q])[..|order|] == order;
    assert Of(order, priority) + [] == Of(order, priority);
  }

  lemma {:induction false} OfNothing(order: seq<Queued>, priority: int)
    requires forall k :: 0 <= k < |order| ==> order[k].priority != priority
    ensures Of(order, priority) == []
  {
    if order != [] {
      OfNothing(order[..|order| - 1], priority);
    }
  }

  lemma OfFront(order: seq<Queued>, priority: int)
    requires order != []
    ensures var q, front := order[|order| - 1], order[..|order| - 1];
            Of(order, priority) == if q.priority == priority then Of(front, priority) + [q.job] else Of(front, priority)
  {
    assert Of(order[..|order| - 1], priority) + [] == Of(order[..|order| - 1], priority);
  }

  lemma OfWithoutLast(order: seq<Queued>, priority: int)
    requires order != [] && forall k :: 0 <= k < |order| - 1 ==> order[k].priority != order[|order| - 1].priority
    ensures var n := |order| - 1;
            var without := order[..n] + order[n + 1..];
            if priority == order[n].priority then Of(order, priority) == [order[n].job] + Of(without, priority)
            else Of(without, priority) == Of(order, priority)
  {
    hide Of;
    var n := |order| - 1;
    assert order[..n] + order[n + 1..] == order[..n];
    OfFront(order, priority);
    if priority == order[n].priority {
      OfNothing(order[..n], priority);
    }
  }

  /** The first job of its priority is taken out of the order. */
  lemma {:induction false} OfWithout(order: seq<Queued>, i: nat, priority: int)
    requires i < |order| && forall k :: 0 <= k < i ==> order[k].priority != order[i].priority
    ensures var without := order[..i] + order[i + 1..];
            if priority == order[i].priority then Of(order, priority) == [order[i].job] + Of(without, priority)
            else Of(without, priority) == Of(order, priority)
    decreases |order|
  {
    hide Of;
    var n := |order| - 1;
    var without := order[..i] + order[i + 1..];
    if i == n {
      OfWithoutLast(order, priority);
    } else {
      var front := order[..n];
      OfWithout(front, i, priority);
      var shorter := front[..i] + front[i + 1..];
      assert without == shorter + [order[n]];
      OfAppend(shorter, order[n], priority);
      OfFront(order, priority);
      if priority == order[i].priority && order[n].priority == priority {
        assert [order[i].job] + Of(shorter, priority) + [order[n].job]
               == [order[i].job] + (Of(shorter, priority) + [order[n].job]);
      }
    }
  }

  class RunnablePriorityQueue {
    var queues: seq<RunnableList>
    ghost var order: seq<Queued>

    ghost predicate Valid()
      reads this
    {
      Represents(queues, order) && FrontIsHighest(queues)
    }

    constructor ()
      ensures Valid() && order == []
    {
      queues, order := [], [];
    }

    predicate Empty()
      requires Valid()
      reads this
      ensures Empty() <==> order == []
    {
      EmptyTogether(queues, order);
      queues == []
    }

    method Push(job: Job, priority: int)
      requires Valid()
      modifies this
      ensures Valid() && order == old(order) + [Queued(job, priority)]
    {
      ghost var q := Queued(job, priority);
      var i := 0;
      while i < |queues| && queues[i].priority != priority
        invariant i <= |queues| && forall k :: 0 <= k < i ==> queues[k].priority != priority
      {
        i := i + 1;
      }
      if i < |queues| {
        PushedToList(queues, order, i, q);
        queues := queues[i := queues[i].(runnables := queues[i].runnables + [job])];
      } else {
        PushedNewList(queues, order, q);
        queues := PushHeap(queues, RunnableList(priority, [job]));
      }
      order := order + [q];
    }

    /** The oldest of the jobs with the highest priority. */
    method Pop() returns (job: Job)
      requires Valid() && order != []
      modifies this
      ensures Valid()
      ensures var i := Best(old(order)); job == old(order)[i].job && order == old(order)[..i] + old(order)[i + 1..]
    {
      hide Represents, FrontIsHighest, Best;
      EmptyTogether(queues, order);
      PopFirst(queues, order);
      ghost var i := Best(order);
      var first := queues[0];
      job := first.runnables[0];
      queues := queues[0 := first.(runnables := first.runnables[1..])];
      if first.runnables[1..] == [] {
        queues := PopHeap(queues);
      }
      order := order[..i] + order[i + 1..];
    }
  }

  lemma EmptyTogether(queues: seq<RunnableList>, order: seq<Queued>)
    requires Represents(queues, order)
    ensures queues == [] <==> order == []
    ensures queues != [] ==> queues[0].runnables != []
  {
    assert order != [] ==> HasList(queues, order[0].priority);
    assert queues != [] ==> queues[0].runnables == Of(order, queues[0].priority);
  }

  /** The front list has the priority of the best job, and that job is its first one. */
  lemma FrontIsBest(queues: seq<RunnableList>, order: seq<Queued>)
    requires Represents(queues, order) && FrontIsHighest(queues) && queues != [] && order != []
    ensures order[Best(order)].priority == queues[0].priority
  {
    var i, p := Best(order), queues[0].priority;
    var j :| 0 <= j < |queues| && queues[j].priority == order[i].priority;
    if forall k :: 0 <= k < |order| ==> order[k].priority != p {
      OfNothing(order, p);
    } else {
      var k :| 0 <= k < |order| && order[k].priority == p;
    }
  }

  lemma SameLists(queues: seq<RunnableList>, next: seq<RunnableList>, priority: int)
    requires |next| == |queues| && (forall i :: 0 <= i < |queues| ==> next[i].priority == queues[i].priority)
    ensures HasList(queues, priority) ==> HasList(next, priority)
  {
    if j :| 0 <= j < |queues| && queues[j].priority == priority {
      assert next[j].priority == priority;
    }
  }

  lemma PopFirst(queues: seq<RunnableList>, order: seq<Queued>)
    requires Represents(queues, order) && FrontIsHighest(queues) && queues != [] && order != []
    ensures var i := Best(order);
            var first := queues[0];
            var next := queues[0 := first.(runnables := first.runnables[1..])];
            var without := order[..i] + order[i + 1..];
            && first.runnables != [] && first.runnables[0] == order[i].job
            && (if first.runnables[1..] == [] then Represents(next[1..], without)
                else Represents(next, without) && FrontIsHighest(next))
  {
    hide Best, Of, HasList;
    FrontIsBest(queues, order);
    var i, first := Best(order), queues[0];
    var without := order[..i] + order[i + 1..];
    OfWithout(order, i, first.priority);
    var next := queues[0 := first.(runnables := first.runnables[1..])];
    forall k | 1 <= k < |next| ensures next[k].runnables == Of(without, next[k].priority) {
      OfWithout(order, i, next[k].priority);
    }
    forall k | 0 <= k < |without| ensures HasList(next, without[k].priority) {
      assert without[k] == order[if k < i then k else k + 1];
      SameLists(queues, next, without[k].priority);
    }
    if first.runnables[1..] == [] {
      DropList(next, without, first.priority);
    }
  }

  lemma DropList(queues: seq<RunnableList>, order: seq<Queued>, p: int)
    requires queues != [] && queues[0].priority == p && Of(order, p) == [] && DistinctPriorities(queues)
    requires forall k :: 1 <= k < |queues| ==> queues[k].runnables == Of(order, queues[k].priority) != []
    requires forall k :: 0 <= k < |order| ==> HasList(queues, order[k].priority)
    ensures Represents(queues[1..], order)
  {
    forall k | 0 <= k < |order| ensures HasList(queues[1..], order[k].priority) {
      var j :| 0 <= j < |queues| && queues[j].priority == order[k].priority;
      if j == 0 {
        OfSomething(order, k);
      } else {
        assert queues[1..][j - 1].priority == order[k].priority;
      }
    }
  }

  lemma {:induction false} OfSomething(order: seq<Queued>, k: nat)
    requires k < |order|
    ensures Of(order, order[k].priority) != []
  {
    if k < |order| - 1 {
      OfSomething(order[..|order| - 1], k);
    }
  }

  /** std::pop_heap and pop_back: the front list goes, and the highest of the others comes to the front. */
  method PopHeap(queues: seq<RunnableList>) returns (heap: seq<RunnableList>)
    requires queues != []
    ensures FrontIsHighest(heap)
    ensures forall order :: Represents(queues[1..], order) ==> Represents(heap, order)
  {
    var rest := queues[1..];
    if rest == [] {
      return rest;
    }
    var m := 0;
    for i := 1 to |rest|
      invariant m < i && forall k :: 0 <= k < i ==> rest[k].priority <= rest[m].priority
    {
      if rest[m].priority < rest[i].priority {
        m := i;
      }
    }
    heap := [rest[m]] + (rest[..m] + rest[m + 1..]);
    forall order | Represents(rest, order) ensures Represents(heap, order) {
      ToFront(rest, m, order);
    }
  }

  lemma FrontHasLists(queues: seq<RunnableList>, m: nat, priority: int)
    requires m < |queues| && HasList(queues, priority)
    ensures HasList([queues[m]] + (queues[..m] + queues[m + 1..]), priority)
  {
    var to := [queues[m]] + (queues[..m] + queues[m + 1..]);
    var j :| 0 <= j < |queues| && queues[j].priority == priority;
    assert to[if j == m then 0 else if j < m then j + 1 else j].priority == priority;
  }

  lemma ToFront(queues: seq<RunnableList>, m: nat, order: seq<Queued>)
    requires m < |queues| && Represents(queues, order)
    ensures Represents([queues[m]] + (queues[..m] + queues[m + 1..]), order)
  {
    hide Of, HasList;
    var to := [queues[m]] + (queues[..m] + queues[m + 1..]);
    assert forall i :: 1 <= i < |to| ==> to[i] == if i <= m then queues[i - 1] else queues[i];
    forall k | 0 <= k < |order| ensures HasList(to, order[k].priority) {
      FrontHasLists(queues, m, order[k].priority);
    }
  }

  lemma PushedToList(queues: seq<RunnableList>, order: seq<Queued>, i: nat, q: Queued)
    requires Represents(queues, order) && FrontIsHighest(queues) && i < |queues| && queues[i].priority == q.priority
    ensures var next := queues[i := queues[i].(runnables := queues[i].runnables + [q.job])];
            Represents(next, order + [q]) && FrontIsHighest(next)
  {
    var next := queues[i := queues[i].(runnables := queues[i].runnables + [q.job])];
    forall k | 0 <= k < |next| ensures next[k].runnables == Of(order + [q], next[k].priority) != [] {
      OfAppend(order, q, next[k].priority);
    }
    forall k | 0 <= k < |order + [q]| ensures HasList(next, (order + [q])[k].priority) {
      if k < |order| {
        var j :| 0 <= j < |queues| && queues[j].priority == order[k].priority;
        assert next[j].priority == order[k].priority;
      } else {
        assert next[i].priority == q.priority;
      }
    }
  }

  /** The lists with a new one, in any order. */
  lemma PushedNewList(queues: seq<RunnableList>, order: seq<Queued>, q: Queued)
    requires Represents(queues, order) && forall i :: 0 <= i < |queues| ==> queues[i].priority != q.priority
    ensures Represents(queues + [RunnableList(q.priority, [q.job])], order + [q])
  {
    var next := queues + [RunnableList(q.priority, [q.job])];
    forall k | 0 <= k < |order| ensures order[k].priority != q.priority && HasList(next, order[k].priority) {
      var j :| 0 <= j < |queues| && queues[j].priority == order[k].priority;
      assert next[j] == queues[j];
    }
    OfNothing(order, q.priority);
    forall k | 0 <= k < |next| ensures next[k].runnables == Of(order + [q], next[k].priority) != [] {
      OfAppend(order, q, next[k].priority);
    }
    assert next[|queues|].priority == q.priority;
  }

  /** push_back and std::push_heap: of the order in a heap only the place of its highest element matters. */
  method PushHeap(queues: seq<RunnableList>, list: RunnableList) returns (heap: seq<RunnableList>)
    requires FrontIsHighest(queues)
    ensures FrontIsHighest(heap)
    ensures forall order :: Represents(queues + [list], order) ==> Represents(heap, order)
  {
    if queues == [] || list.priority <= queues[0].priority {
      heap := queues + [list];
    } else {
      heap := [list] + queues;
      forall order | Represents(queues + [list], order) ensures Represents(heap, order) {
        Moved(queues, list, order);
      }
    }
  }

  lemma Moved(queues: seq<RunnableList>, list: RunnableList, order: seq<Queued>)
    requires Represents(queues + [list], order)
    ensures Represents([list] + queues, order)
  {
    var from, to := queues + [list], [list] + queues;
    assert to[0] == from[|queues|];
    assert forall i :: 1 <= i < |to| ==> to[i] == from[i - 1];
    forall k | 0 <= k < |order| ensures HasList(to, order[k].priority) {
      var j :| 0 <= j < |from| && from[j].priority == order[k].priority;
      assert to[if j == |queues| then 0 else j + 1].priority == order[k].priority;
    }
  }
}
