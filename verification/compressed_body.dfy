/** What the reader sees of a compressed body whose transfer fails. */
module CompressedBody {
  import opened Text
  import opened ExceptionTrailer
  import opened BodyStream

  /** The decoder accepts every part of `whole` that it is offered. */
  ghost predicate Accepts(d: Decoder, whole: Bytes, room: nat) {
    forall taken, given, input :: taken + input <= whole && given <= d.Content(taken) ==>
      d.React(taken, given, input, room).Advanced?
  }

  /** How the decoder answers when it is offered all that is left of `whole`. */
  ghost predicate Finishes(d: Decoder, whole: Bytes, taken: Bytes, given: Bytes, input: Bytes, room: nat) {
    taken + input == whole && given <= d.Content(taken) ==>
      var r := d.React(taken, given, input, room);
      && r.Advanced?
      && (r.output == "" ==> r.consumed == |input|)
      && (r.consumed == |input| && |r.output| < room ==> given + r.output == d.Content(whole))
  }

  /** A decoder that is offered the rest of `whole` takes it or gives something out, and when it has taken all and
      leaves room in its output, it has given out everything. */
  ghost predicate Fluent(d: Decoder, whole: Bytes, room: nat) {
    forall taken, given, input :: Finishes(d, whole, taken, given, input, room)
  }

  /** What is decoded behind a failure is all that was not given out before. */
  lemma {:induction false} DecodeRestIsRest(d: Decoder, taken: Bytes, given: Bytes, input: Bytes, room: nat)
    requires d.Lawful() && room > 0 && given <= d.Content(taken) && Fluent(d, taken + input, room)
    ensures given + DecodeRest(d, taken, given, input, room, 0) == d.Content(taken + input)
    decreases |d.Content(taken + input)| - |given|
  {
    hide Decoder.Lawful, Decoder.React, Decoder.Content;
    DecodeRestStep(d, taken, given, input, room, 0);
    assert Finishes(d, taken + input, taken, given, input, room);
    var r := d.React(taken, given, input, room);
    var n, o := r.consumed, r.output;
    if n < |input| || |o| >= room {
      assert taken + input[..n] + input[n..] == taken + input;
      DecodeRestIsRest(d, taken + input[..n], given + o, input[n..], room);
      var rest := DecodeRest(d, taken + input[..n], given + o, input[n..], room, 0);
      assert given + o + rest == given + (o + rest);
    }
  }

  /** A failing transfer of a compressed body: data and a trailer that lies in the last 32 KiB of what was sent. */
  ghost predicate Fails(s: Setup, total: Bytes, data: Bytes, trailer: Bytes) {
    && s.Ok() && s.zstd.Some? && s.unsupported == "" && s.outcome != 0
    && Accepts(s.zstd.value, total, s.room) && Fluent(s.zstd.value, total, s.room)
    && s.zstd.value.Content(total) == data + trailer
    && s.zstd.value.Content(total[..if |total| > 32768 then |total| - 32768 else 0]) <= data
  }

  /** Only data was shown, and a failure is the one that finish() reports, with all the rest as its tail. */
  ghost predicate Told(s: Setup, b: Body, content: Bytes, data: Bytes) {
    && b.delivered + b.window <= data
    && (b.error.Some? ==>
          && b.delivered + b.failedTail == content
          && b.error.value == FailureOf(s.tag, b.failedTail, s.transportText))
  }

  lemma ShownIsData(s: Setup, b: Body, data: Bytes, trailer: Bytes)
    requires Ok(s, b) && Fails(s, b.Total(), data, trailer) && b.error.None?
    ensures b.delivered + b.window <= data
  {
    hide Accepts, Fluent, Decoder.React;
    var d, total := s.zstd.value, b.Total();
    var front := total[..if |total| > 32768 then |total| - 32768 else 0];
    assert b.Taken() == total[..|b.Taken()|];
    assert front == b.Taken() + front[|b.Taken()|..];
    assert d.Grows(b.Taken(), front[|b.Taken()|..]);
  }

  lemma FinishedTells(s: Setup, b: Body, data: Bytes, trailer: Bytes)
    requires Ok(s, b) && Fails(s, b.Total(), data, trailer) && b.Done() && b.error.None? && b.window == ""
    ensures Told(s, Finished(s, b), data + trailer, data)
  {
    hide Accepts, Fluent, Decoder.React, Decoder.Content, Decoder.Lawful, DecodeRest, HeldBack, FailureOf;
    assert b.Total() == b.received;
    ShownIsData(s, b, data, trailer);
    assert b.Given() == b.delivered;
    DecodeRestIsRest(s.zstd.value, b.Taken(), b.Given(), b.held, s.room);
  }

  lemma NotRefused(s: Setup, b: Body, data: Bytes, trailer: Bytes)
    requires Ok(s, b) && Fails(s, b.Total(), data, trailer) && b.error.None? && b.window == ""
    ensures s.zstd.value.React(b.Taken(), b.Given(), b.held[..b.Allowed()], s.room).Advanced?
  {
    hide Fluent, Decoder.React, Decoder.Content, Decoder.Lawful, HeldBack;
    var input := b.held[..b.Allowed()];
    assert b.Total() == b.Taken() + input + (b.held[b.Allowed()..] + Flatten(b.incoming));
    assert b.Taken() + input <= b.Total();
  }

  lemma {:induction false} FillTells(s: Setup, b: Body, data: Bytes, trailer: Bytes)
    requires Ok(s, b) && Fails(s, b.Total(), data, trailer) && b.window == "" && b.error.None?
    ensures Told(s, FillFrom(s, b).0, data + trailer, data)
    decreases |b.incoming|, |b.held|
  {
    hide Ok, Finished, Exhausted, Accepts, Fluent, Decoder.React, Decoder.Content, Decoder.Lawful, Body.Taken,
         Body.Given;
    FillFromUnrolled(s, b);
    if b.Done() {
      FinishedTells(s, b, data, trailer);
    } else if b.Allowed() == 0 {
      PumpedOk(s, b);
      FillTells(s, b.Pumped(), data, trailer);
    } else {
      NotRefused(s, b, data, trailer);
      var r := s.zstd.value.React(b.Taken(), b.Given(), b.held[..b.Allowed()], s.room);
      DecodedOk(s, b, r.consumed, r.output, r.frameDone);
      var d := Decoded(b, r.consumed, r.output, r.frameDone);
      if r.output != "" {
        ShownIsData(s, d, data, trailer);
      } else {
        FillTells(s, d, data, trailer);
      }
    }
  }

  lemma ServedTells(s: Setup, b: Body, data: Bytes, trailer: Bytes)
    requires Ok(s, b) && Fails(s, b.Total(), data, trailer) && Told(s, b, data + trailer, data)
    ensures var c := Fill(s, b).0;
            Told(s, c, data + trailer, data) && (c.error.None? ==>
              forall n: nat :: n <= |c.window| ==> Told(s, Take(c, n), data + trailer, data))
  {
    hide Exhausted, FillFrom, Accepts, Fluent, Decoder.React, Decoder.Content, Decoder.Lawful, Conserved, HeldBack,
         FailureOf;
    if b.window == "" && b.error.None? {
      FillTells(s, b, data, trailer);
    }
    var c := Fill(s, b).0;
    forall n: nat | n <= |c.window| && c.error.None? ensures Told(s, Take(c, n), data + trailer, data) {
      assert c.delivered + c.window[..n] + c.window[n..] == c.delivered + c.window;
    }
  }

  lemma {:induction false} ReadTells(s: Setup, b: Body, count: nat, data: Bytes, trailer: Bytes)
    requires Ok(s, b) && Fails(s, b.Total(), data, trailer) && Told(s, b, data + trailer, data)
    ensures Told(s, Read(s, b, count).0, data + trailer, data)
    decreases count
  {
    hide Ok, Fill, Take, Exhausted, Read, Told, Fails;
    ReadStep(s, b, count);
    ServedTells(s, b, data, trailer);
    var (c, filled) := Fill(s, b);
    if count > 0 && filled.More? {
      WindowMeansNoError(s, c);
      var n := Min(|c.window|, count);
      TakeOk(s, c, n);
      SameTotal(c, n);
      ReadTells(s, Take(c, n), count - n, data, trailer);
    }
  }

  lemma WindowMeansNoError(s: Setup, b: Body)
    requires Ok(s, b) && b.window != ""
    ensures b.error.None?
  {
  }

  lemma SameTotal(b: Body, n: nat)
    requires n <= |b.window|
    ensures Take(b, n).Total() == b.Total()
  {
  }

  lemma CallTells(s: Setup, b: Body, call: Call, data: Bytes, trailer: Bytes)
    requires Ok(s, b) && Fails(s, b.Total(), data, trailer) && Told(s, b, data + trailer, data)
    ensures Told(s, Serve(s, b, call).0, data + trailer, data)
  {
    hide Ok, Fill, Take, Exhausted, Read, Told, Fails;
    ServedTells(s, b, data, trailer);
    match call
    case CallRead(count) => ReadTells(s, b, count, data, trailer);
    case CallGet =>
      if Fill(s, b).1.More? {
        WindowMeansNoError(s, Fill(s, b).0);
      }
    case _ =>
  }

  lemma {:induction false} RunTells(
      s: Setup, b: Body, calls: seq<Call>, data: Bytes, trailer: Bytes, message: string, clear: bool)
    requires Ok(s, b) && Fails(s, b.Total(), data, trailer) && Told(s, b, data + trailer, data)
    requires Recoverable(s.tag, trailer, message, clear)
    ensures Recovered(b.delivered, Run(s, b, calls).1, data, message, clear)
    decreases |calls|
  {
    hide Ok, Recoverable, Serve, FailureOf, Exhausted, Fails;
    if calls == [] {
      assert b.delivered + "" == b.delivered;
    } else {
      var (c, answer) := Serve(s, b, calls[0]);
      CallTells(s, b, calls[0], data, trailer);
      RunTells(s, c, calls[1..], data, trailer, message, clear);
      assert Run(s, b, calls).1 == [answer] + Run(s, c, calls[1..]).1;
      assert b.delivered + (answer.Data() + DataOf(Run(s, c, calls[1..]).1))
             == c.delivered + DataOf(Run(s, c, calls[1..]).1);
      NoEnd(s, b.Total(), data, trailer);
      NoCleanEnd(s, c);
      if answer.Failed? {
        FailureTold(s, c, data, trailer, message, clear);
      }
    }
  }

  lemma NoEnd(s: Setup, total: Bytes, data: Bytes, trailer: Bytes)
    requires Fails(s, total, data, trailer)
    ensures s.outcome != 0
  {
  }

  lemma FailureTold(s: Setup, b: Body, data: Bytes, trailer: Bytes, message: string, clear: bool)
    requires Told(s, b, data + trailer, data) && b.error.Some? && Recoverable(s.tag, trailer, message, clear)
    ensures b.error.value == ServerFailure(message) <==> clear
  {
    hide Recoverable, FailureOf;
    assert b.delivered <= data && b.failedTail == (data + trailer)[|b.delivered|..] == data[|b.delivered|..] + trailer;
    FailureReports(s.tag, b.failedTail, s.transportText, message);
    RecoverableBehind(s.tag, data[|b.delivered|..], trailer, message, clear);
  }

  lemma {:induction false} ReadAllTells(s: Setup, b: Body, limit: nat, data: Bytes, trailer: Bytes)
    requires Ok(s, b) && Fails(s, b.Total(), data, trailer) && Told(s, b, data + trailer, data)
    ensures Told(s, ReadAll(s, b, limit).0, data + trailer, data)
    decreases limit
  {
    hide Ok, Fill, Take, Exhausted, ReadAll, Told, Fails;
    ReadAllStep(s, b, limit);
    ServedTells(s, b, data, trailer);
    var (c, filled) := Fill(s, b);
    if limit > 0 && filled.More? {
      WindowMeansNoError(s, c);
      var n := Min(|c.window|, limit);
      TakeOk(s, c, n);
      SameTotal(c, n);
      ReadAllTells(s, Take(c, n), limit - n, data, trailer);
    }
  }

  /** Recovery from a compressed body, for every chunking and every sequence of calls: the reader gets a prefix of the
      data, never a clean end, and the failure reports the server's message exactly when the message is clear. */
  lemma CompressedExceptionRecovered(s: Setup, b: Body, calls: seq<Call>, data: Bytes, message: string)
    requires Ok(s, b) && b.error.None? && Fails(s, b.Total(), data, Appended(s.tag, message)) && |message| <= U64_MAX
    ensures Recovered(b.delivered, Run(s, b, calls).1, data, message, IsClear(s.tag, message))
  {
    hide Ok, Run, Recovered, Fails, Appended, IsClear;
    ShownIsData(s, b, data, Appended(s.tag, message));
    AppendedRecoverable(s.tag, message);
    RunTells(s, b, calls, data, Appended(s.tag, message), message, IsClear(s.tag, message));
  }

  /** Behind any calls readAll gives the rest of the content, the trailer included, up to its limit. */
  lemma CompressedReadAll(s: Setup, b: Body, limit: nat, data: Bytes, trailer: Bytes)
    requires Ok(s, b) && Fails(s, b.Total(), data, trailer) && Told(s, b, data + trailer, data)
    ensures var r := ReadAll(s, b, limit).1;
            b.delivered + r <= data + trailer && (|r| < limit ==> b.delivered + r == data + trailer)
  {
    hide Ok, ReadAll, Exhausted, Fails;
    ReadAllTells(s, b, limit, data, trailer);
    ReadAllContinues(s, b, limit);
    NoEnd(s, b.Total(), data, trailer);
    var (c, r) := ReadAll(s, b, limit);
    NoCleanEnd(s, c);
    NoTail(s, c);
    assert c.error.None? ==> c.delivered + c.failedTail == c.delivered <= c.delivered + c.window;
  }

  // -------- a decoder that is fluent

  /** A decoder of stored bytes: it takes all its input, and gives out what it has taken and not given, as room allows.
      */
  ghost function StoredAnswer(taken: Bytes, given: Bytes, input: Bytes, room: nat): Reaction {
    var all := taken + input;
    if given <= all then
      var n := Min(|all| - |given|, room);
      Advanced(|input|, all[|given|..|given| + n], |given| + n == |all|)
    else Refused("")
  }

  ghost function Stored(): Decoder {
    Decoder(imap s: Bytes | |s| >= 0 :: s, iset s: Bytes | |s| >= 0,
            imap call: (Bytes, Bytes, Bytes, nat) | true :: StoredAnswer(call.0, call.1, call.2, call.3))
  }

  lemma StoredIsFluent(whole: Bytes, room: nat)
    requires room > 0
    ensures Stored().Lawful() && Accepts(Stored(), whole, room) && Fluent(Stored(), whole, room)
  {
    var d := Stored();
    forall a, b ensures d.Grows(a, b) {
    }
    forall taken, given, input, room ensures d.Honest(taken, given, input, room) {
      StoredAnswers(taken, given, input, room);
    }
    forall taken, given, input ensures Finishes(d, whole, taken, given, input, room) {
      StoredAnswers(taken, given, input, room);
    }
  }

  lemma StoredAnswers(taken: Bytes, given: Bytes, input: Bytes, room: nat)
    ensures Stored().React(taken, given, input, room) == StoredAnswer(taken, given, input, room)
    ensures Stored().Content(taken) == taken && Stored().Content(taken + input) == taken + input
            && Stored().Closed(taken)
    ensures var r := StoredAnswer(taken, given, input, room);
            given <= taken ==>
              && r.Advanced? && r.consumed == |input| && input[..r.consumed] == input && |r.output| <= room
              && given + r.output <= taken + input && (|r.output| < room ==> given + r.output == taken + input)
              && (r.frameDone ==> given + r.output == taken + input)
  {
    var all := taken + input;
    if given <= taken {
      assert all[..|given|] == taken[..|given|] == given;
      var n := Min(|all| - |given|, room);
      assert given + all[|given|..|given| + n] == all[..|given| + n];
      assert n == |all| - |given| ==> all[..|given| + n] == all;
    }
  }
}
