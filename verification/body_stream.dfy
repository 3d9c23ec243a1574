/** What the reader of an HTTP response body sees: the specification of HttpResponse and its guarantees
    over whole runs. */
module BodyStream {
  import opened Text
  import opened ExceptionTrailer

  type Bytes = string

  const HOLDBACK_SIZE: nat := 32 * 1024

  datatype Failure =
    | UnsupportedEncoding(name: string)
    | BrokenCompression(why: string)
    | TruncatedCompression
    | ServerException(text: string, code: string)
    | Transport(text: string)

  /** One answer of the streaming decoder; `frameDone` is a return code of 0. */
  datatype Reaction = Refused(why: string) | Advanced(consumed: nat, output: Bytes, frameDone: bool)

  /** An abstract streaming decoder: a table of its answers. `Content` is what a prefix of a compressed
      stream decodes to, `Closed` says that the prefix ends on a complete frame, and `React` answers one
      call from the bytes taken and given so far, the input offered and the room for output. */
  datatype Decoder = Decoder(
    contents: imap<Bytes, Bytes>, frames: iset<Bytes>, reactions: imap<(Bytes, Bytes, Bytes, nat), Reaction>)
  {
    function Content(taken: Bytes): Bytes {
      if taken in contents then contents[taken] else ""
    }

    predicate Closed(taken: Bytes) { taken in frames }

    function React(taken: Bytes, given: Bytes, input: Bytes, room: nat): Reaction {
      var call := (taken, given, input, room);
      if call in reactions then reactions[call] else Refused("")
    }

    /** The output is the content of the consumed input, in order; a finished frame has been given out
        completely; and a call with input and room makes progress. */
    ghost predicate Honest(taken: Bytes, given: Bytes, input: Bytes, room: nat) {
      var r := React(taken, given, input, room);
      given <= Content(taken) && room > 0 && r.Advanced? ==>
        && r.consumed <= |input| && |r.output| <= room
        && given + r.output <= Content(taken + input[..r.consumed])
        && (r.frameDone ==>
              && given + r.output == Content(taken + input[..r.consumed])
              && Closed(taken + input[..r.consumed]))
        && (input != "" ==> r.consumed > 0 || r.output != "")
    }

    ghost predicate Grows(a: Bytes, b: Bytes) { Content(a) <= Content(a + b) }

    ghost predicate Lawful() {
      && Content("") == ""
      && (forall a, b :: Grows(a, b))
      && (forall taken, given, input, room :: Honest(taken, given, input, room))
    }
  }

  /** What the response headers and the end of the transfer bring; `outcome` is the CURLcode. */
  datatype Setup = Setup(
    outcome: int, transportText: string, tag: string, unsupported: string, zstd: Option<Decoder>, room: nat)
  {
    ghost predicate Ok() { room > 0 && (zstd.Some? ==> zstd.value.Lawful()) }

    predicate Plain() { zstd.None? && unsupported == "" }
  }

  /** `incoming` is still on the network, one item for each pump(); `held` has been received and is not yet
      exposed; `window` is exposed and not yet read. */
  datatype Body = Body(
    incoming: seq<Bytes>, received: Bytes, held: Bytes, window: Bytes, delivered: Bytes,
    frameComplete: bool, error: Option<Failure>, failedTail: Bytes)
  {
    predicate Done() { |incoming| == 0 }

    function Total(): Bytes { received + Flatten(incoming) }

    function Allowed(): (n: nat)
      ensures n <= |held|
    {
      if Done() then |held| else if |held| > HOLDBACK_SIZE then |held| - HOLDBACK_SIZE else 0
    }

    function Taken(): Bytes {
      if |held| <= |received| then received[..|received| - |held|] else ""
    }

    function Given(): Bytes { delivered + window }

    function Pumped(): Body
      requires !Done()
    {
      this.(incoming := incoming[1..], received := received + incoming[0], held := held + incoming[0])
    }
  }

  datatype Filled = More | End | Threw(failure: Failure)

  const PREFIX: string := "ClickHouse exception: "

  ghost function MessageIn(tag: string, tail: Bytes): (r: Option<string>)
    ensures r.Some? ==> Carries(tag, tail, r.value)
    ensures r.None? ==> forall m :: !Carries(tag, tail, m)
  {
    if exists m :: Carries(tag, tail, m) then
      var m :| Carries(tag, tail, m); Some(m)
    else None
  }

  function ServerFailure(message: string): Failure {
    ServerException(PREFIX + message, ExceptionCode(message))
  }

  lemma FailureText(message: string)
    ensures ServerFailure(message).text == "ClickHouse exception: " + message
  {
  }

  lemma ServerFailureInjective(a: string, b: string)
    requires ServerFailure(a) == ServerFailure(b)
    ensures a == b
  {
    assert ServerFailure(a).text[|PREFIX|..] == a && ServerFailure(b).text[|PREFIX|..] == b;
  }

  /** The failure that finish() reports when the transfer failed with `tail` undelivered. */
  ghost function FailureOf(tag: string, tail: Bytes, transportText: string): Failure {
    match MessageIn(tag, tail)
    case Some(message) => ServerFailure(message)
    case None => Transport(transportText)
  }

  /** No byte is lost, doubled or reordered. */
  ghost predicate Conserved(s: Setup, b: Body) {
    && |b.held| <= |b.received|
    && match s.zstd
       case None => b.delivered + b.window + b.held == b.received
       case Some(decoder) =>
         && b.Taken() + b.held == b.received
         && (b.error.None? ==> b.Given() <= decoder.Content(b.Taken()))
         && b.Given() + b.failedTail <= decoder.Content(b.received)
         && (b.frameComplete && b.error.None? ==> b.Given() == decoder.Content(b.Taken()) && decoder.Closed(b.Taken()))
  }

  /** Unless the transfer has succeeded, the last 32 KiB of what arrived are still held back. */
  ghost predicate HeldBack(s: Setup, b: Body) {
    !b.Done() || s.outcome != 0 ==> Min(|b.received|, HOLDBACK_SIZE) <= |b.held|
  }

  /** Which failure is reported, and on what grounds. */
  ghost predicate Justified(s: Setup, b: Body, f: Failure) {
    if s.unsupported != "" then
      f == UnsupportedEncoding(s.unsupported)
    else if f.BrokenCompression? then
      s.zstd.Some?
    else if f.TruncatedCompression? then
      s.zstd.Some? && b.Done() && s.outcome == 0 && b.received != "" && !b.frameComplete
    else
      && b.Done() && s.outcome != 0 && f == FailureOf(s.tag, b.failedTail, s.transportText)
      && (s.zstd.None? ==> b.failedTail == b.held)
  }

  ghost predicate Ok(s: Setup, b: Body) {
    && s.Ok() && Conserved(s, b) && HeldBack(s, b)
    && (b.error.Some? ==> b.window == "" && Justified(s, b, b.error.value))
    && (b.error.None? ==> b.failedTail == "")
    && (s.unsupported != "" ==> b.delivered == "" && b.window == "")
  }

  /** There is nothing more to come, and nothing was lost. */
  ghost predicate Exhausted(s: Setup, b: Body) {
    && b.Done() && s.outcome == 0 && s.unsupported == "" && b.error.None? && b.window == "" && b.held == ""
    && match s.zstd
       case None => b.delivered == b.received
       case Some(decoder) =>
         && b.delivered == decoder.Content(b.received) && (b.received == "" || decoder.Closed(b.received))
         && Idle(decoder.React(b.received, b.delivered, "", s.room)) && (b.received != "" ==> b.frameComplete)
  }

  predicate Idle(r: Reaction) { r.Advanced? && r.consumed == 0 && r.output == "" }

  // -------- one fill()

  /** What an answer to a call behind a failure comes to. */
  lemma AnswerFits(d: Decoder, taken: Bytes, given: Bytes, input: Bytes, room: nat)
    requires d.Lawful() && room > 0 && given <= d.Content(taken)
    ensures given <= d.Content(taken + input)
    ensures match d.React(taken, given, input, room)
            case Refused(_) => true
            case Advanced(n, o, _) =>
              && n <= |input| && given + o <= d.Content(taken + input[..n])
              && taken + input[..n] + input[n..] == taken + input && given + o <= d.Content(taken + input)
  {
    hide Decoder.Content, Decoder.React;
    assert d.Grows(taken, input) && d.Honest(taken, given, input, room);
    match d.React(taken, given, input, room)
    case Refused(_) =>
    case Advanced(n, o, _) =>
      assert d.Grows(taken + input[..n], input[n..]);
      assert taken + input[..n] + input[n..] == taken + input;
  }

  /** decodeRemaining: decode as much as possible, giving up after 100 calls in a row without output. */
  ghost function DecodeRest(d: Decoder, taken: Bytes, given: Bytes, input: Bytes, room: nat, stalled: nat): (out: Bytes)
    requires d.Lawful() && room > 0 && given <= d.Content(taken) && stalled <= 100
    ensures given + out <= d.Content(taken + input)
    decreases |d.Content(taken + input)| - |given|, 100 - stalled
  {
    hide Decoder.Content, Decoder.React, Decoder.Lawful;
    AnswerFits(d, taken, given, input, room);
    assert given + "" == given;
    if stalled == 100 then "" else
    match d.React(taken, given, input, room)
    case Refused(_) => ""
    case Advanced(n, o, _) =>
      if n == |input| && |o| < room then o
      else
        var rest := DecodeRest(d, taken + input[..n], given + o, input[n..], room, if o == "" then stalled + 1 else 0);
        assert given + (o + rest) == given + o + rest;
        o + rest
  }

  lemma DecodeRestStep(d: Decoder, taken: Bytes, given: Bytes, input: Bytes, room: nat, stalled: nat)
    requires d.Lawful() && room > 0 && given <= d.Content(taken) && stalled < 100
    ensures match d.React(taken, given, input, room)
            case Refused(_) => DecodeRest(d, taken, given, input, room, stalled) == ""
            case Advanced(n, o, _) =>
              && n <= |input| && given + o <= d.Content(taken + input[..n])
              && d.Content(taken + input[..n] + input[n..]) == d.Content(taken + input)
              && |given + o| <= |d.Content(taken + input)|
              && DecodeRest(d, taken, given, input, room, stalled) ==
                   if n == |input| && |o| < room then o
                   else o + DecodeRest(d, taken + input[..n], given + o, input[n..], room, if o == "" then stalled + 1
                       else 0)
  {
    hide Decoder.Content, Decoder.React, Decoder.Lawful;
    AnswerFits(d, taken, given, input, room);
  }

  lemma DecodeRestStalled(d: Decoder, taken: Bytes, given: Bytes, input: Bytes, room: nat)
    requires d.Lawful() && room > 0 && given <= d.Content(taken)
    ensures DecodeRest(d, taken, given, input, room, 100) == ""
  {
  }

  function Exposed(b: Body): Body {
    b.(window := b.held[..b.Allowed()], held := b.held[b.Allowed()..])
  }

  function Decoded(b: Body, n: nat, output: Bytes, frameDone: bool): Body
    requires n <= |b.held|
  {
    b.(held := b.held[n..], window := output,
       frameComplete := if n > 0 || |output| > 0 then frameDone else b.frameComplete)
  }

  ghost function Finished(s: Setup, b: Body): Body
    requires Ok(s, b) && b.Done() && b.error.None?
  {
    if s.outcome != 0 then
      var tail := match s.zstd
                  case None => b.held
                  case Some(decoder) => DecodeRest(decoder, b.Taken(), b.Given(), b.held, s.room, 0);
      b.(failedTail := tail, error := Some(FailureOf(s.tag, tail, s.transportText)))
    else if s.zstd.Some? && b.received != "" && !b.frameComplete then
      b.(error := Some(TruncatedCompression))
    else b
  }

  lemma PumpedParts(b: Body)
    requires !b.Done() && |b.held| <= |b.received|
    ensures b.Pumped().Taken() == b.Taken() && b.Pumped().Given() == b.Given() && b.Pumped().Total() == b.Total()
  {
    assert b.received + b.incoming[0] + Flatten(b.incoming[1..])
           == b.received + (b.incoming[0] + Flatten(b.incoming[1..]));
  }

  lemma PumpedOk(s: Setup, b: Body)
    requires Ok(s, b) && !b.Done() && b.window == "" && b.error.None?
    ensures Ok(s, b.Pumped()) && b.Pumped().Total() == b.Total()
    ensures b.Pumped().Taken() == b.Taken() && b.Pumped().Given() == b.Given()
  {
    PumpedParts(b);
    PumpedConserved(s, b);
    PumpedHeldBack(s, b);
    hide Body.Taken, Body.Given, Body.Total, Conserved, HeldBack, Justified;
  }

  lemma PumpedConserved(s: Setup, b: Body)
    requires s.Ok() && Conserved(s, b) && !b.Done() && b.window == "" && b.error.None?
    ensures Conserved(s, b.Pumped())
  {
    PumpedParts(b);
    hide Body.Taken, Body.Given, Body.Total, Flatten;
    var data := b.incoming[0];
    match s.zstd
    case None =>
      assert b.delivered + b.window + (b.held + data) == b.delivered + b.window + b.held + data;
    case Some(decoder) =>
      assert b.Taken() + (b.held + data) == b.Taken() + b.held + data;
      assert decoder.Grows(b.received, data);
  }

  lemma PumpedHeldBack(s: Setup, b: Body)
    requires HeldBack(s, b) && !b.Done()
    ensures HeldBack(s, b.Pumped())
  {
  }

  lemma ExposedOk(s: Setup, b: Body)
    requires Ok(s, b) && b.window == "" && b.error.None? && s.Plain()
    requires !b.Done() || s.outcome == 0
    ensures Ok(s, Exposed(b))
  {
    assert b.held == b.held[..b.Allowed()] + b.held[b.Allowed()..];
  }

  lemma DecodedParts(s: Setup, b: Body, n: nat, output: Bytes, frameDone: bool)
    requires b.window == "" && n <= |b.held| <= |b.received| && b.Taken() + b.held == b.received
    ensures Decoded(b, n, output, frameDone).Taken() == b.Taken() + b.held[..n]
    ensures Decoded(b, n, output, frameDone).Given() == b.Given() + output
  {
  }

  lemma DecodedOk(s: Setup, b: Body, n: nat, output: Bytes, frameDone: bool)
    requires Ok(s, b) && b.window == "" && b.error.None? && s.unsupported == ""
    requires s.zstd.Some? && (!b.Done() || s.outcome == 0)
    requires s.zstd.value.React(b.Taken(), b.Given(), b.held[..b.Allowed()], s.room) == Advanced(n, output, frameDone)
    ensures n <= b.Allowed() && Ok(s, Decoded(b, n, output, frameDone))
    ensures n == 0 && output == "" ==> b.Allowed() == 0 && Decoded(b, n, output, frameDone) == b
    ensures var d := Decoded(b, n, output, frameDone);
            d.Taken() == b.Taken() + b.held[..n] && d.Given() == b.Given() + output
  {
    var decoder := s.zstd.value;
    var input := b.held[..b.Allowed()];
    assert decoder.Honest(b.Taken(), b.Given(), input, s.room);
    var d := Decoded(b, n, output, frameDone);
    assert input[..n] == b.held[..n];
    DecodedParts(s, b, n, output, frameDone);
    assert d.Taken() + d.held == b.received;
    assert decoder.Grows(d.Taken(), d.held);
    assert d.Given() + "" == d.Given();
    if n == 0 {
      assert d.Taken() == b.Taken();
    }
  }

  lemma DecodedFields(b: Body, n: nat, output: Bytes, frameDone: bool)
    requires n <= |b.held|
    ensures var d := Decoded(b, n, output, frameDone);
            && d.incoming == b.incoming && d.received == b.received && d.error == b.error
                && d.failedTail == b.failedTail
            && d.held == b.held[n..] && d.window == output
            && d.frameComplete == if n > 0 || |output| > 0 then frameDone else b.frameComplete
  {
  }

  lemma BrokenOk(s: Setup, b: Body, why: string)
    requires Ok(s, b) && b.window == "" && b.error.None? && s.unsupported == "" && s.zstd.Some?
    ensures Ok(s, b.(error := Some(BrokenCompression(why))))
  {
    assert b.(error := Some(BrokenCompression(why))).Taken() == b.Taken();
  }

  lemma FinishedOk(s: Setup, b: Body)
    requires Ok(s, b) && b.Done() && b.error.None? && b.window == "" && s.unsupported == ""
    requires s.outcome == 0 ==>
               b.held == "" && (s.zstd.Some? ==> Idle(s.zstd.value.React(b.Taken(), b.Given(), "", s.room)))
    ensures var f := Finished(s, b);
            && Ok(s, f) && (f.error.None? ==> f == b && Exhausted(s, b))
            && (s.zstd.None? && s.outcome == 0 ==> f.error.None?)
  {
    if s.outcome == 0 {
      assert b.delivered + "" + "" == b.delivered;
      assert s.zstd.Some? ==> b.Taken() == b.received && b.Given() == b.delivered;
      assert b.received == "" && s.zstd.Some? ==> b.delivered == "";
    }
  }

  /** The loop of fill(). */
  ghost function FillFrom(s: Setup, b: Body): (r: (Body, Filled))
    requires Ok(s, b) && b.window == "" && b.error.None? && s.unsupported == ""
    ensures Ok(s, r.0) && r.0.Total() == b.Total() && r.0.delivered == b.delivered
    ensures r.1.More? ==> r.0.window != ""
    ensures r.1.End? ==> Exhausted(s, r.0)
    ensures r.1.Threw? ==> r.0.error == Some(r.1.failure)
    decreases |b.incoming|, |b.held|
  {
    hide Ok, Exhausted;
    if (!b.Done() || s.outcome == 0) && s.zstd.None? && b.Allowed() > 0 then
      ExposedOk(s, b);
      (Exposed(b), More)
    else if (!b.Done() || s.outcome == 0) && s.zstd.Some? && (b.Allowed() > 0 || b.Done()) then
      match s.zstd.value.React(b.Taken(), b.Given(), b.held[..b.Allowed()], s.room)
      case Refused(why) =>
        BrokenOk(s, b, why);
        (b.(error := Some(BrokenCompression(why))), Threw(BrokenCompression(why)))
      case Advanced(n, output, frameDone) =>
        DecodedOk(s, b, n, output, frameDone);
        var d := Decoded(b, n, output, frameDone);
        if output != "" then (d, More)
        else if n > 0 then FillFrom(s, d)
        else
          assert b.held[..0] == "";
          WaitOrFinish(s, b)
    else WaitOrFinish(s, b)
  }

  ghost function WaitOrFinish(s: Setup, b: Body): (r: (Body, Filled))
    requires Ok(s, b) && b.window == "" && b.error.None? && s.unsupported == ""
    requires b.Done() && s.outcome == 0 ==>
               b.held == "" && (s.zstd.Some? ==> Idle(s.zstd.value.React(b.Taken(), b.Given(), "", s.room)))
    ensures Ok(s, r.0) && r.0.Total() == b.Total() && r.0.delivered == b.delivered
    ensures r.1.More? ==> r.0.window != ""
    ensures r.1.End? ==> Exhausted(s, r.0)
    ensures r.1.Threw? ==> r.0.error == Some(r.1.failure)
    decreases |b.incoming|, |b.held|, 0
  {
    hide Ok, Exhausted;
    if b.Done() then
      FinishedOk(s, b);
      var f := Finished(s, b);
      (f, if f.error.Some? then Threw(f.error.value) else End)
    else
      PumpedOk(s, b);
      FillFrom(s, b.Pumped())
  }

  lemma FillFromUnrolled(s: Setup, b: Body)
    requires Ok(s, b) && b.window == "" && b.error.None? && s.unsupported == ""
    ensures s.zstd.None? && (!b.Done() || s.outcome == 0) && b.Allowed() > 0 ==> FillFrom(s, b) == (Exposed(b), More)
    ensures (b.Done() && s.outcome != 0) || (b.Allowed() == 0 && (s.zstd.None? || !b.Done())) ==>
              && (b.Done() && s.outcome == 0 ==> b.held == "")
              && FillFrom(s, b) == WaitOrFinish(s, b)
    ensures b.Done() && (s.outcome == 0 ==> b.held == "")
            && (s.outcome == 0 && s.zstd.Some? ==> Idle(s.zstd.value.React(b.Taken(), b.Given(), "", s.room))) ==>
              var f := Finished(s, b);
              WaitOrFinish(s, b) == (f, if f.error.Some? then Threw(f.error.value) else End)
    ensures !b.Done() ==> Ok(s, b.Pumped()) && WaitOrFinish(s, b) == FillFrom(s, b.Pumped())
  {
    hide Ok;
    if !b.Done() {
      PumpedOk(s, b);
    }
  }

  ghost function Fill(s: Setup, b: Body): (r: (Body, Filled))
    requires Ok(s, b)
    ensures Ok(s, r.0) && r.0.Total() == b.Total() && r.0.delivered == b.delivered
    ensures r.1.More? ==> r.0.window != "" 
    ensures r.1.End? ==> Exhausted(s, r.0)
    ensures r.1.Threw? ==> r.0.error == Some(r.1.failure)
  {
    if b.window != "" then (b, More)
    else if b.error.Some? then (b, Threw(b.error.value))
    else if s.unsupported != "" then
      var f := UnsupportedEncoding(s.unsupported);
      (b.(error := Some(f)), Threw(f))
    else FillFrom(s, b)
  }

  // -------- the reader's calls

  datatype Call = CallEof | CallGet | CallRead(count: nat)

  /** `data` is what the call handed over, also when it then failed. */
  datatype Answer =
    | AtEnd(yes: bool)
    | Got(data: Bytes)
    | Incomplete(data: Bytes)
    | Failed(data: Bytes, failure: Failure)
  {
    function Data(): Bytes { if AtEnd? then "" else data }

    function After(front: Bytes): Answer
      requires !AtEnd?
    {
      this.(data := front + data)
    }

    predicate SaysEnd() { this == AtEnd(true) || Incomplete? }
  }

  function DataOf(answers: seq<Answer>): Bytes {
    if answers == [] then "" else answers[0].Data() + DataOf(answers[1..])
  }

  predicate NeedsData(c: Call) { c.CallRead? ==> c.count > 0 }

  function Take(b: Body, n: nat): Body
    requires n <= |b.window|
  {
    b.(delivered := b.delivered + b.window[..n], window := b.window[n..])
  }

  lemma TakeOk(s: Setup, b: Body, n: nat)
    requires Ok(s, b) && n <= |b.window|
    ensures Ok(s, Take(b, n))
    ensures Take(b, n).Taken() == b.Taken() && Take(b, n).Given() == b.Given()
  {
    assert Take(b, n).Given() == b.Given();
  }

  ghost predicate Served(s: Setup, b: Body, r: (Body, Answer)) {
    && Ok(s, r.0) && r.0.Total() == b.Total() && r.0.delivered == b.delivered + r.1.Data()
    && (r.1.SaysEnd() ==> Exhausted(s, r.0))
    && (r.1.Failed? ==> r.0.error == Some(r.1.failure))
  }

  ghost function Eof(s: Setup, b: Body): (r: (Body, Answer))
    requires Ok(s, b)
    ensures Served(s, b, r)
    ensures r.1 == AtEnd(false) ==> r.0.window != ""
  {
    var (c, filled) := Fill(s, b);
    (c, match filled
        case More => AtEnd(false)
        case End => AtEnd(true)
        case Threw(f) => Failed("", f))
  }

  /** What a read answers when fill() has no data for it. */
  ghost function Stopped(s: Setup, b: Body): (r: (Body, Answer))
    requires Ok(s, b) && !Fill(s, b).1.More?
    ensures Served(s, b, r) && !r.1.Got? && !r.1.AtEnd? && r.1.data == ""
  {
    hide Ok, Exhausted, Fill;
    var (c, filled) := Fill(s, b);
    (c, if filled.End? then Incomplete("") else Failed("", filled.failure))
  }

  ghost function Get(s: Setup, b: Body): (r: (Body, Answer))
    requires Ok(s, b)
    ensures Served(s, b, r) && !r.1.AtEnd? && (r.1.Got? ==> |r.1.data| == 1)
  {
    hide Ok, Exhausted;
    var (c, filled) := Fill(s, b);
    if filled.More? then
      TakeOk(s, c, 1);
      (Take(c, 1), Got(c.window[..1]))
    else Stopped(s, b)
  }

  lemma ReadJoins(s: Setup, b: Body, c: Body, n: nat, d: Body, rest: Answer)
    requires n <= |c.window| && c.delivered == b.delivered && c.Total() == b.Total() && !rest.AtEnd?
    requires Served(s, Take(c, n), (d, rest))
    ensures Served(s, b, (d, rest.After(c.window[..n])))
  {
    hide Ok, Exhausted;
    assert c.delivered + c.window[..n] + rest.data == c.delivered + (c.window[..n] + rest.data);
  }

  /** read and readSlow: all `count` bytes, or what there is of them and then the end or the failure. */
  ghost function Read(s: Setup, b: Body, count: nat): (r: (Body, Answer))
    requires Ok(s, b)
    ensures Served(s, b, r) && !r.1.AtEnd?
    ensures if r.1.Got? then |r.1.data| == count else |r.1.data| < count
    decreases count
  {
    hide Ok, Fill, Exhausted, Take;
    if count == 0 then
      NothingServed(s, b);
      (b, Got(""))
    else
      var (c, filled) := Fill(s, b);
      if filled.More? then ReadWindow(s, b, c, count) else Stopped(s, b)
  }

  lemma NothingServed(s: Setup, b: Body)
    requires Ok(s, b)
    ensures Served(s, b, (b, Got("")))
  {
  }

  ghost function ReadWindow(s: Setup, b: Body, c: Body, count: nat): (r: (Body, Answer))
    requires Ok(s, c) && c.delivered == b.delivered && c.Total() == b.Total() && c.window != "" && count > 0
    ensures Served(s, b, r) && !r.1.AtEnd?
    ensures if r.1.Got? then |r.1.data| == count else |r.1.data| < count
    decreases count, 0
  {
    hide Ok, Take, Served;
    var n := Min(|c.window|, count);
    TakeOk(s, c, n);
    var (d, rest) := Read(s, Take(c, n), count - n);
    ReadJoins(s, b, c, n, d, rest);
    (d, rest.After(c.window[..n]))
  }

  /** `whole` is what `rest` becomes when `front` has been read before it. */
  ghost predicate ReadsOn(whole: (Body, Answer), front: Bytes, rest: (Body, Answer)) {
    !rest.1.AtEnd? && whole == (rest.0, rest.1.After(front))
  }

  lemma ReadsOnFurther(whole: (Body, Answer), front: Bytes, middle: (Body, Answer), part: Bytes, rest: (Body, Answer))
    requires ReadsOn(whole, front, middle) && ReadsOn(middle, part, rest)
    ensures ReadsOn(whole, front + part, rest)
  {
    assert front + (part + rest.1.data) == front + part + rest.1.data;
  }

  lemma ReadsOnNothing(whole: (Body, Answer))
    requires !whole.1.AtEnd?
    ensures ReadsOn(whole, "", whole)
  {
    assert "" + whole.1.data == whole.1.data;
  }

  /** One round of readSlow. */
  lemma ReadStep(s: Setup, b: Body, count: nat)
    requires Ok(s, b)
    ensures var (c, filled) := Fill(s, b);
            if count == 0 then Read(s, b, count) == (b, Got(""))
            else if filled.More? then
              var n := Min(|c.window|, count);
              0 < n && Ok(s, Take(c, n)) && ReadsOn(Read(s, b, count), c.window[..n], Read(s, Take(c, n), count - n))
            else Read(s, b, count) == (c, if filled.End? then Incomplete("") else Failed("", filled.failure))
  {
    hide Ok, Fill, Take;
    var (c, filled) := Fill(s, b);
    if count > 0 && filled.More? {
      TakeOk(s, c, Min(|c.window|, count));
    }
  }

  lemma ReadAtHand(s: Setup, b: Body, count: nat)
    requires Ok(s, b) && 0 < count <= |b.window|
    ensures Read(s, b, count) == (Take(b, count), Got(b.window[..count]))
  {
    ReadStep(s, b, count);
    ReadStep(s, Take(b, count), 0);
    assert b.window[..count] + "" == b.window[..count];
  }

  ghost function Serve(s: Setup, b: Body, call: Call): (r: (Body, Answer))
    requires Ok(s, b)
    ensures Served(s, b, r)
  {
    match call
    case CallEof => Eof(s, b)
    case CallGet => Get(s, b)
    case CallRead(count) => Read(s, b, count)
  }

  /** A run: the reader makes `calls` one after the other. */
  ghost function Run(s: Setup, b: Body, calls: seq<Call>): (r: (Body, seq<Answer>))
    requires Ok(s, b)
    ensures |r.1| == |calls|
    ensures Ok(s, r.0) && r.0.Total() == b.Total() && r.0.delivered == b.delivered + DataOf(r.1)
    decreases |calls|
  {
    hide Ok, Serve, Exhausted;
    if calls == [] then (b, []) else
    var (c, answer) := Serve(s, b, calls[0]);
    var (d, answers) := Run(s, c, calls[1..]);
    assert b.delivered + answer.Data() + DataOf(answers) == b.delivered + (answer.Data() + DataOf(answers));
    (d, [answer] + answers)
  }

  /** readAll: the rest of the body, at most `limit` bytes; a failure ends it with the undelivered tail. */
  ghost function ReadAll(s: Setup, b: Body, limit: nat): (r: (Body, Bytes))
    requires Ok(s, b)
    ensures Ok(s, r.0) && r.0.Total() == b.Total() && |r.1| <= limit
    decreases limit
  {
    hide Ok, Fill, Exhausted;
    if limit == 0 then (b, "") else
    var (c, filled) := Fill(s, b);
    match filled
    case More =>
      var n := Min(|c.window|, limit);
      TakeOk(s, c, n);
      var (d, rest) := ReadAll(s, Take(c, n), limit - n);
      (d, c.window[..n] + rest)
    case End => (c, "")
    case Threw(_) => (c, c.failedTail[..Min(|c.failedTail|, limit)])
  }

  /** One round of readAll. */
  lemma ReadAllStep(s: Setup, b: Body, limit: nat)
    requires Ok(s, b)
    ensures var (c, filled) := Fill(s, b);
            if limit == 0 then ReadAll(s, b, limit) == (b, "")
            else if filled.More? then
              var n := Min(|c.window|, limit);
              && 0 < n && Ok(s, Take(c, n))
              && ReadAll(s, b, limit).0 == ReadAll(s, Take(c, n), limit - n).0
              && ReadAll(s, b, limit).1 == c.window[..n] + ReadAll(s, Take(c, n), limit - n).1
            else ReadAll(s, b, limit) == (c, if filled.End? then "" else c.failedTail[..Min(|c.failedTail|, limit)])
  {
    hide Ok, Fill, Take;
    var (c, filled) := Fill(s, b);
    if limit > 0 && filled.More? {
      TakeOk(s, c, Min(|c.window|, limit));
    }
  }

  // -------- guarantees over whole runs

  /** Once a read has failed, every read that needs data fails in the same way and yields nothing. */
  lemma FailureStays(s: Setup, b: Body, call: Call)
    requires Ok(s, b) && b.error.Some?
    ensures Serve(s, b, call) == (b, if NeedsData(call) then Failed("", b.error.value) else Got(""))
  {
  }

  lemma FinishAtEnd(s: Setup, b: Body)
    requires Ok(s, b) && Exhausted(s, b)
    ensures b.Taken() == b.received && b.Given() == b.delivered && b.Allowed() == 0 && b.held[..0] == ""
    ensures WaitOrFinish(s, b) == (b, End)
  {
    hide Ok;
    assert s.zstd.Some? ==> b.Taken() == b.received && b.Given() == b.delivered;
    assert Finished(s, b) == b;
  }

  lemma FillAtEnd(s: Setup, b: Body)
    requires Ok(s, b) && Exhausted(s, b)
    ensures Fill(s, b) == (b, End)
  {
    hide Ok, WaitOrFinish;
    FinishAtEnd(s, b);
    assert FillFrom(s, b) == WaitOrFinish(s, b);
  }

  /** Once a clean end has been reported, it stays a clean end. */
  lemma EndStays(s: Setup, b: Body, call: Call)
    requires Ok(s, b) && Exhausted(s, b)
    ensures Serve(s, b, call) == (b, if !NeedsData(call) then Got("") else if call.CallEof? then AtEnd(true)
            else Incomplete(""))
  {
    FillAtEnd(s, b);
  }

  lemma {:induction false} FailureStaysInRun(s: Setup, b: Body, calls: seq<Call>)
    requires Ok(s, b) && b.error.Some?
    ensures Run(s, b, calls).0 == b
    ensures forall j :: 0 <= j < |calls| && NeedsData(calls[j]) ==> Run(s, b, calls).1[j] == Failed("", b.error.value)
  {
    if calls != [] {
      FailureStays(s, b, calls[0]);
      FailureStaysInRun(s, b, calls[1..]);
    }
  }

  lemma {:induction false} EndStaysInRun(s: Setup, b: Body, calls: seq<Call>)
    requires Ok(s, b) && Exhausted(s, b)
    ensures Run(s, b, calls).0 == b
    ensures forall j :: 0 <= j < |calls| && NeedsData(calls[j]) ==> Run(s, b, calls).1[j].SaysEnd()
  {
    if calls != [] {
      EndStays(s, b, calls[0]);
      EndStaysInRun(s, b, calls[1..]);
    }
  }

  lemma RunStep(s: Setup, b: Body, calls: seq<Call>, i: nat)
    requires Ok(s, b) && i < |calls|
    ensures var (c, answer) := Serve(s, b, calls[0]);
            && Run(s, b, calls).0 == Run(s, c, calls[1..]).0
            && Run(s, b, calls).1[i] == if i == 0 then answer else Run(s, c, calls[1..]).1[i - 1]
  {
    hide Ok, Serve;
  }

  /** Safety of every run: a failure and a clean end are final, and a clean end means that everything
      was received, consumed and delivered. */
  lemma {:induction false} RunIsSafe(s: Setup, b: Body, calls: seq<Call>, i: nat, j: nat)
    requires Ok(s, b) && i < j < |calls| && NeedsData(calls[j])
    ensures var (c, answers) := Run(s, b, calls);
            && (answers[i].Failed? ==> answers[j] == Failed("", answers[i].failure))
            && (answers[i].SaysEnd() ==> answers[j].SaysEnd() && answers[j].Data() == "" && Exhausted(s, c))
    decreases i
  {
    hide Ok, Serve, Exhausted, Run;
    var (c, answer) := Serve(s, b, calls[0]);
    RunStep(s, b, calls, i);
    RunStep(s, b, calls, j);
    if i > 0 {
      RunIsSafe(s, c, calls[1..], i - 1, j - 1);
    } else if answer.Failed? {
      FailureStaysInRun(s, c, calls[1..]);
    } else if answer.SaysEnd() {
      EndStaysInRun(s, c, calls[1..]);
      SilentEnd(s, c, calls[1..], j - 1);
    }
  }

  lemma {:induction false} SilentEnd(s: Setup, b: Body, calls: seq<Call>, j: nat)
    requires Ok(s, b) && Exhausted(s, b) && j < |calls|
    ensures Run(s, b, calls).1[j].Data() == ""
    decreases j
  {
    EndStays(s, b, calls[0]);
    if j > 0 {
      SilentEnd(s, b, calls[1..], j - 1);
    }
  }

  /** Nothing reached the reader but the data in front of the last 32 KiB, when the transfer fails. */
  lemma PrefixOnly(s: Setup, b: Body, data: Bytes, trailer: Bytes)
    requires Ok(s, b) && s.Plain() && s.outcome != 0
    requires b.Total() == data + trailer && |trailer| <= 32768
    ensures b.delivered + b.window <= data
    ensures b.error.Some? ==> b.failedTail == data[|b.delivered|..] + trailer
  {
    var shown := b.delivered + b.window;
    assert b.Total() == shown + (b.held + Flatten(b.incoming));
    assert |shown| <= |data|;
    assert shown == b.Total()[..|shown|] == data[..|shown|];
    if b.error.Some? {
      assert b.held == b.Total()[|b.delivered|..] == data[|b.delivered|..] + trailer;
    }
  }

  lemma FailureReports(tag: string, tail: Bytes, transportText: string, message: string)
    ensures FailureOf(tag, tail, transportText) == ServerFailure(message) <==> Carries(tag, tail, message)
  {
    var found := MessageIn(tag, tail);
    if found.Some? {
      if Carries(tag, tail, message) {
        CarriesOne(tag, tail, found.value, message);
      }
      if ServerFailure(found.value) == ServerFailure(message) {
        ServerFailureInjective(found.value, message);
      }
    }
  }

  /** `clear` says whether `message` can be recovered from behind `trailer`, whatever stands in front of it. */
  ghost predicate Recoverable(tag: string, trailer: Bytes, message: string, clear: bool) {
    forall front: Bytes :: Carries(tag, front + trailer, message) <==> clear
  }

  /** What a run shows of a failing transfer: a prefix of the data, never a clean end, and the server's message exactly
      when it can be recovered. */
  ghost predicate Recovered(delivered: Bytes, answers: seq<Answer>, data: Bytes, message: string, clear: bool) {
    && delivered + DataOf(answers) <= data
    && forall i :: 0 <= i < |answers| ==>
         && !answers[i].SaysEnd()
         && (answers[i].Failed? ==> (answers[i].failure == ServerFailure(message) <==> clear))
  }

  lemma {:induction false} TrailerRecovered(
      s: Setup, b: Body, calls: seq<Call>, data: Bytes, trailer: Bytes, message: string, clear: bool)
    requires Ok(s, b) && s.Plain() && s.outcome != 0 && Recoverable(s.tag, trailer, message, clear)
    requires b.Total() == data + trailer && |trailer| <= 32768
    ensures Recovered(b.delivered, Run(s, b, calls).1, data, message, clear)
    decreases |calls|
  {
    hide Ok, Recoverable, Serve, FailureOf, Exhausted;
    PrefixOnly(s, Run(s, b, calls).0, data, trailer);
    if calls != [] {
      var (c, answer) := Serve(s, b, calls[0]);
      TrailerRecovered(s, c, calls[1..], data, trailer, message, clear);
      assert Run(s, b, calls).1 == [answer] + Run(s, c, calls[1..]).1;
      NoCleanEnd(s, c);
      if answer.Failed? {
        FailureRecovered(s, c, data, trailer, message, clear);
      }
    }
  }

  lemma NoCleanEnd(s: Setup, b: Body)
    requires s.outcome != 0
    ensures !Exhausted(s, b)
  {
  }

  lemma FailureRecovered(s: Setup, b: Body, data: Bytes, trailer: Bytes, message: string, clear: bool)
    requires Ok(s, b) && s.Plain() && s.outcome != 0 && Recoverable(s.tag, trailer, message, clear) && b.error.Some?
    requires b.Total() == data + trailer && |trailer| <= 32768
    ensures b.error.value == ServerFailure(message) <==> clear
  {
    hide Recoverable, HeldBack, FailureOf;
    PrefixOnly(s, b, data, trailer);
    FailureReports(s.tag, b.failedTail, s.transportText, message);
    RecoverableBehind(s.tag, data[|b.delivered|..], trailer, message, clear);
  }

  lemma RecoverableBehind(tag: string, front: Bytes, trailer: Bytes, message: string, clear: bool)
    requires Recoverable(tag, trailer, message, clear)
    ensures Carries(tag, front + trailer, message) <==> clear
  {
  }

  lemma AppendedRecoverable(tag: string, message: string)
    requires |message| <= U64_MAX
    ensures Recoverable(tag, Appended(tag, message), message, IsClear(tag, message))
  {
    hide Carries, Appended, IsClear;
    forall front: Bytes ensures Carries(tag, front + Appended(tag, message), message) <==> IsClear(tag, message) {
      AppendedGivesMessage(tag, front, message);
    }
  }

  /** End-to-end recovery, for every chunking and every sequence of calls: when the body is data and a tagged trailer of
      at most 32 KiB and the transfer fails, the reader gets a prefix of the data, never a clean end, and the failure
      reports the server's message exactly when the message does not end in a digit. */
  lemma ExceptionRecovered(s: Setup, b: Body, calls: seq<Call>, data: Bytes, message: string)
    requires Ok(s, b) && s.Plain() && s.outcome != 0 && s.tag != ""
    requires b.Total() == data + Trailer(s.tag, message) && |Trailer(s.tag, message)| <= 32768
    ensures Recovered(b.delivered, Run(s, b, calls).1, data, message, !EndsInDigit(message))
  {
    hide Ok, Run, Recovered, Recoverable;
    assert |message| <= |Trailer(s.tag, message)|;
    AppendedRecoverable(s.tag, message);
    TrailerRecovered(s, b, calls, data, Trailer(s.tag, message), message, !EndsInDigit(message));
  }

  /** The same without a tag, for every chunking and every sequence of calls: the message comes through exactly when it
      does not contain the marker. */
  lemma MarkedExceptionRecovered(s: Setup, b: Body, calls: seq<Call>, data: Bytes, message: string)
    requires Ok(s, b) && s.Plain() && s.outcome != 0 && s.tag == ""
    requires b.Total() == data + (MARKER + message) && |MARKER + message| <= 32768
    ensures Recovered(b.delivered, Run(s, b, calls).1, data, message, !Occurs(MARKER, message))
  {
    hide Ok, Run, Recovered, Recoverable, Occurs;
    AppendedRecoverable(s.tag, message);
    TrailerRecovered(s, b, calls, data, MARKER + message, message, !Occurs(MARKER, message));
  }

  lemma GetStep(s: Setup, b: Body)
    requires Ok(s, b) && s.outcome != 0
    ensures var answer := Get(s, b).1; answer.Failed? || (answer.Got? && |answer.data| == 1)
  {
    hide Ok, Get;
  }

  lemma DeliveredPart(s: Setup, b: Body, data: Bytes, trailer: Bytes)
    requires Ok(s, b) && s.Plain() && s.outcome != 0
    requires b.Total() == data + trailer && |trailer| <= 32768
    ensures |b.delivered| <= |data|
  {
    PrefixOnly(s, b, data, trailer);
  }

  /** Draining such a body byte by byte ends in the failure. */
  lemma {:induction false} DrainEndsInFailure(s: Setup, b: Body, calls: seq<Call>, data: Bytes, trailer: Bytes)
    requires Ok(s, b) && s.Plain() && s.outcome != 0 && (forall i :: 0 <= i < |calls| ==> calls[i] == CallGet)
    requires b.Total() == data + trailer && |trailer| <= 32768 && |b.delivered| + |calls| > |data|
    ensures calls != [] && Run(s, b, calls).1[|calls| - 1].Failed?
    decreases |calls|
  {
    hide Ok, Get, Run, Conserved, HeldBack;
    DeliveredPart(s, b, data, trailer);
    GetStep(s, b);
    var (c, answer) := Serve(s, b, calls[0]);
    RunStep(s, b, calls, |calls| - 1);
    if !answer.Failed? {
      DrainEndsInFailure(s, c, calls[1..], data, trailer);
    } else if |calls| > 1 {
      FailureStaysInRun(s, c, calls[1..]);
    }
  }

  /** What the reader of a plain body has still ahead. */
  function Rest(b: Body): Bytes { b.window + (b.held + Flatten(b.incoming)) }

  lemma RestOf(s: Setup, b: Body)
    requires Ok(s, b) && s.Plain()
    ensures b.Total() == b.delivered + Rest(b)
  {
    assert b.received + Flatten(b.incoming) == b.delivered + (b.window + (b.held + Flatten(b.incoming)));
  }

  lemma FillRest(s: Setup, b: Body)
    requires Ok(s, b) && s.Plain()
    ensures var (c, filled) := Fill(s, b);
            && Rest(c) == Rest(b)
            && (filled.End? ==> Rest(b) == "")
            && (filled.Threw? ==> c.failedTail == Rest(b))
  {
    hide Fill;
    var (c, filled) := Fill(s, b);
    RestOf(s, b);
    RestOf(s, c);
    SplitEqual(c.delivered, Rest(c), b.delivered, Rest(b));
    assert c.held + Flatten([]) == c.held && "" + c.held == c.held;
  }

  lemma TakeRest(b: Body, n: nat, m: nat)
    requires n <= |b.window|
    ensures var rest := Rest(Take(b, n));
            b.window[..n] + rest[..Min(|rest|, m)] == Rest(b)[..Min(|Rest(b)|, n + m)]
  {
    assert Rest(b) == b.window[..n] + Rest(Take(b, n));
  }

  /** readAll gives the rest of the body up to the limit, however the transfer ends. */
  lemma {:induction false} ReadAllGivesRest(s: Setup, b: Body, limit: nat)
    requires Ok(s, b) && s.Plain()
    ensures b.Total() == b.delivered + Rest(b)
    ensures ReadAll(s, b, limit).1 == Rest(b)[..Min(|Rest(b)|, limit)]
    decreases limit
  {
    hide Ok, Fill, Take, Rest, ReadAll;
    RestOf(s, b);
    FillRest(s, b);
    var (c, filled) := Fill(s, b);
    ReadAllStep(s, b, limit);
    if limit > 0 && filled.More? {
      var n := if |c.window| < limit then |c.window| else limit;
      TakeOk(s, c, n);
      ReadAllGivesRest(s, Take(c, n), limit - n);
      TakeRest(c, n, limit - n);
    }
  }

  /** For a compressed body as for a plain one, readAll goes on behind what was delivered, in order; below its limit it
      ends at a clean end with nothing left out, or at the failure with the whole tail that was not delivered. */
  lemma {:induction false} ReadAllContinues(s: Setup, b: Body, limit: nat)
    requires Ok(s, b)
    ensures var (c, r) := ReadAll(s, b, limit);
            && b.delivered + r <= c.delivered + c.failedTail
            && (|r| < limit ==> b.delivered + r == c.delivered + c.failedTail && (c.error.Some? || Exhausted(s, c)))
    decreases limit
  {
    hide Ok, Fill, Take, Exhausted, ReadAll, Body.Total;
    var (c, filled) := Fill(s, b);
    ReadAllStep(s, b, limit);
    NoTail(s, c);
    CleanEnd(s, c);
    assert c.failedTail[..|c.failedTail|] == c.failedTail;
    if limit > 0 && filled.More? {
      var n := Min(|c.window|, limit);
      TakeOk(s, c, n);
      TakenOut(c, n);
      ReadAllContinues(s, Take(c, n), limit - n);
      var r := ReadAll(s, Take(c, n), limit - n).1;
      assert b.delivered + (c.window[..n] + r) == b.delivered + c.window[..n] + r;
    }
  }

  lemma CleanEnd(s: Setup, b: Body)
    ensures Exhausted(s, b) ==> b.error.None?
  {
  }

  lemma TakenOut(b: Body, n: nat)
    requires n <= |b.window|
    ensures Take(b, n).delivered == b.delivered + b.window[..n]
  {
  }

  lemma NoTail(s: Setup, b: Body)
    requires Ok(s, b)
    ensures b.error.None? ==> b.failedTail == ""
    ensures b.error.Some? ==> b.window == ""
  {
  }

  /** What readAll returns of a compressed body is part of what the body decodes to, and all of it at a clean end. */
  lemma ReadAllDecodes(s: Setup, b: Body, limit: nat)
    requires Ok(s, b) && s.zstd.Some?
    ensures var (c, r) := ReadAll(s, b, limit);
            && b.delivered + r <= s.zstd.value.Content(b.Total())
            && (|r| < limit && c.error.None? ==> b.delivered + r == s.zstd.value.Content(b.Total()))
  {
    hide Ok, ReadAll, Exhausted, Body.Total;
    var (c, r) := ReadAll(s, b, limit);
    ReadAllContinues(s, b, limit);
    DeliveredInContent(s, c);
  }

  lemma DeliveredInContent(s: Setup, b: Body)
    requires Ok(s, b) && s.zstd.Some?
    ensures b.delivered + b.failedTail <= s.zstd.value.Content(b.Total())
    ensures Exhausted(s, b) ==> b.delivered + b.failedTail == s.zstd.value.Content(b.Total())
  {
    hide HeldBack, Justified;
    NoTail(s, b);
    assert s.zstd.value.Grows(b.received, Flatten(b.incoming));
    assert b.error.Some? ==> b.Given() == b.delivered;
    assert b.error.None? ==> b.delivered + b.failedTail == b.delivered && b.Given() + b.failedTail == b.Given();
    assert b.received + "" == b.received;
  }
}
