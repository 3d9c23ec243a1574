/** How much of a plain body the reader sees before a transfer fails. */
module FailingTransfer {
  import opened Text
  import opened BodyStream

  /** The part in front of the last chunk, without the 32 KiB that are held back. */
  function Shown(total: nat, last: nat): nat {
    if total - last > 32768 then total - last - 32768 else 0
  }

  /** Nothing has failed before the last chunk; with it the transfer fails, and no more can be read. */
  ghost predicate Settled(b: Body, total: nat, last: nat) {
    && last <= total == |b.Total()|
    && if b.Done() then b.error.Some? && b.window == "" && |b.delivered| == Shown(total, last)
       else b.error.None? && |b.incoming[|b.incoming| - 1]| == last
  }

  lemma LastChunk(s: Setup, b: Body, total: nat, last: nat)
    requires Ok(s, b) && s.Plain() && Settled(b, total, last)
    requires s.outcome != 0 && b.window == "" && |b.incoming| == 1 && b.Allowed() == 0
    ensures Ok(s, b.Pumped()) && Settled(Finished(s, b.Pumped()), total, last)
  {
    PumpedOk(s, b);
    assert b.Total() == b.received + (b.incoming[0] + "");
    assert |b.received| == |b.delivered| + |b.held|;
  }

  lemma {:induction false} FillSettles(s: Setup, b: Body, total: nat, last: nat)
    requires Ok(s, b) && s.Plain() && s.outcome != 0 && Settled(b, total, last) && b.window == "" && !b.Done()
    ensures Settled(FillFrom(s, b).0, total, last)
    decreases |b.incoming|
  {
    hide Ok, Exhausted, FillFrom, WaitOrFinish;
    FillFromUnrolled(s, b);
    if b.Allowed() == 0 {
      if |b.incoming| == 1 {
        LastChunk(s, b, total, last);
        FillFromUnrolled(s, b.Pumped());
      } else {
        PumpedOk(s, b);
        FillSettles(s, b.Pumped(), total, last);
      }
    }
  }

  lemma ServedSettles(s: Setup, b: Body, total: nat, last: nat)
    requires Ok(s, b) && s.Plain() && s.outcome != 0 && Settled(b, total, last)
    ensures Settled(Fill(s, b).0, total, last)
    ensures var c := Fill(s, b).0; forall n: nat :: n <= |c.window| ==> Settled(Take(c, n), total, last)
  {
    hide Exhausted, FillFrom;
    if b.window == "" && !b.Done() {
      FillSettles(s, b, total, last);
    }
  }

  lemma {:induction false} ReadSettles(s: Setup, b: Body, count: nat, total: nat, last: nat)
    requires Ok(s, b) && s.Plain() && s.outcome != 0 && Settled(b, total, last)
    ensures Settled(Read(s, b, count).0, total, last)
    decreases count
  {
    hide Ok, Fill, Take, Exhausted, Read, Settled;
    ReadStep(s, b, count);
    ServedSettles(s, b, total, last);
    var (c, filled) := Fill(s, b);
    if count > 0 && filled.More? {
      var n := Min(|c.window|, count);
      ReadSettles(s, Take(c, n), count - n, total, last);
    }
  }

  lemma {:induction false} RunSettles(s: Setup, b: Body, calls: seq<Call>, total: nat, last: nat)
    requires Ok(s, b) && s.Plain() && s.outcome != 0 && Settled(b, total, last)
    ensures Settled(Run(s, b, calls).0, total, last)
    ensures (exists i :: 0 <= i < |calls| && Run(s, b, calls).1[i].Failed?) ==> Run(s, b, calls).0.error.Some?
    decreases |calls|
  {
    hide Ok, Fill, Take, Exhausted, Read, Settled, Serve;
    if calls != [] {
      var (c, answer) := Serve(s, b, calls[0]);
      CallSettles(s, b, calls[0], total, last);
      RunSettles(s, c, calls[1..], total, last);
      if answer.Failed? {
        FailureStaysInRun(s, c, calls[1..]);
      }
      assert forall i :: 0 < i < |calls| ==> Run(s, b, calls).1[i] == Run(s, c, calls[1..]).1[i - 1];
    }
  }

  lemma CallSettles(s: Setup, b: Body, call: Call, total: nat, last: nat)
    requires Ok(s, b) && s.Plain() && s.outcome != 0 && Settled(b, total, last)
    ensures Settled(Serve(s, b, call).0, total, last)
  {
    hide Ok, Fill, Take, Exhausted, Read, Settled;
    match call
    case CallRead(count) => ReadSettles(s, b, count, total, last);
    case _ => ServedSettles(s, b, total, last);
  }

  /** In a run whose transfer fails: when a call has failed, all that was read is the part in front of the last chunk
      without its last 32 KiB, for every chunking and for all calls. */
  lemma ShownExactly(s: Setup, b: Body, calls: seq<Call>)
    requires Ok(s, b) && s.Plain() && s.outcome != 0 && !b.Done() && b.error.None?
    ensures var last := |b.incoming[|b.incoming| - 1]|; var answers := Run(s, b, calls).1;
            && last <= |b.Total()|
            && ((exists i :: 0 <= i < |calls| && answers[i].Failed?) ==>
                  |b.delivered + DataOf(answers)| == Shown(|b.Total()|, last))
  {
    hide Ok, Run, Exhausted;
    LastInside(b.incoming);
    RunSettles(s, b, calls, |b.Total()|, |b.incoming[|b.incoming| - 1]|);
  }

  lemma {:induction false} LastInside(parts: seq<string>)
    requires parts != []
    ensures |parts[|parts| - 1]| <= |Flatten(parts)|
  {
    if |parts| > 1 {
      LastInside(parts[1..]);
    }
  }
}
