/** HttpResponse: the buffers behind the body stream, with their positions. */
module HttpClient {
  import opened Text
  import opened ExceptionTrailer
  import opened BodyStream

  /** The streaming decoder's own state. */
  datatype Codec = Codec(taken: Bytes, given: Bytes)

  /** The memory of a response. The window [pos, end) lies in `decoded` when there is a decoder, and in
      `raw` otherwise. `moves` counts how often that memory was moved or overwritten; `windowMoves` is
      what it was when the window was made. */
  datatype Buffers = Buffers(
    raw: Bytes, rawPos: nat, decoded: Bytes, pos: nat, end: nat, moves: nat, windowMoves: nat)
  {
    /** What has not been shown is `held`, and what is shown is `window`; the memory has not moved
        under a non-empty window. */
    ghost predicate Shows(decoding: bool, held: Bytes, window: Bytes) {
      && rawPos <= |raw| && raw[rawPos..] == held
      && (pos < end ==>
            end <= |Memory(decoding)| && Memory(decoding)[pos..end] == window && windowMoves == moves)
      && (pos >= end ==> pos == end && window == "")
    }

    function NoWindow(): Buffers { this.(pos := 0, end := 0) }

    function Appended(data: Bytes): Buffers { this.(raw := raw + data, moves := moves + 1) }

    function Compacted(): Buffers
      requires rawPos <= |raw|
    {
      if rawPos > 0 then this.(raw := raw[rawPos..], rawPos := 0, moves := moves + 1) else this
    }

    function ShowRaw(n: nat): Buffers {
      this.(pos := rawPos, end := rawPos + n, rawPos := rawPos + n, windowMoves := moves)
    }

    function ShowDecoded(n: nat, output: Bytes): Buffers {
      this.(rawPos := rawPos + n, decoded := output, pos := 0, end := |output|, moves := moves + 1,
          windowMoves := moves + 1)
    }

    lemma ShowsAfter(decoding: bool, held: Bytes, data: Bytes)
      requires Shows(decoding, held, "")
      ensures NoWindow().Shows(decoding, held, "") && NoWindow().Compacted().Shows(decoding, held, "")
      ensures NoWindow().Appended(data).Shows(decoding, held + data, "")
      ensures forall n :: 0 < n <= |held| && !decoding ==> ShowRaw(n).Shows(decoding, held[n..], held[..n])
    {
      forall n | 0 < n <= |held| && !decoding ensures ShowRaw(n).Shows(decoding, held[n..], held[..n]) {
        assert raw[rawPos + n..] == held[n..] && raw[rawPos..rawPos + n] == held[..n];
      }
    }

    function Memory(decoding: bool): Bytes { if decoding then decoded else raw }

    /** Reading `n` bytes of the window moves its start. */
    lemma ShowsTaken(decoding: bool, held: Bytes, window: Bytes, n: nat)
      requires Shows(decoding, held, window) && (n == 0 || pos + n <= end)
      ensures pos <= end && |window| == end - pos && this.(pos := pos + n).Shows(decoding, held, window[n..])
      ensures n > 0 ==> end <= |Memory(decoding)| && Memory(decoding)[pos..pos + n] == window[..n]
    {
      if n > 0 {
        assert Memory(decoding)[pos + n..end] == window[n..];
      }
    }

    lemma ShowsDecoded(held: Bytes, n: nat, output: Bytes)
      requires Shows(true, held, "") && n <= |held|
      ensures ShowDecoded(n, output).Shows(true, held[n..], output)
      ensures raw[rawPos..rawPos + n] == held[..n]
    {
      assert raw[rawPos + n..] == held[n..] && output[0..|output|] == output;
    }
  }

  class HttpResponse {
    const setup: Setup
    var incoming: seq<Bytes>  // what each pump() will receive; the transfer is done with the last item
    var done: bool
    var result: int
    var error: Option<Failure>
    var failedTail: Bytes
    var buf: Buffers
    var rawTotal: nat
    var codec: Codec
    var frameComplete: bool
    ghost var view: Body      // the body stream that these fields stand for

    ghost predicate Valid()
      reads this
    {
      && Ok(setup, view)
      && buf.Shows(setup.zstd.Some?, view.held, view.window)
      && incoming == view.incoming && (done <==> |incoming| == 0) && (done ==> result == setup.outcome)
      && rawTotal == |view.received|
      && error == view.error && failedTail == view.failedTail && frameComplete == view.frameComplete
      && (setup.zstd.Some? && error.None? ==> codec == Codec(view.Taken(), view.Given()))
    }

    /** The state after the constructor: some of the body may have arrived with the headers. */
    constructor (setup: Setup, incoming: seq<Bytes>, headerPumps: nat)
      requires setup.Ok() && incoming != [] && headerPumps <= |incoming|
      ensures Valid() && this.setup == setup
      ensures view.Total() == Flatten(incoming) && view.delivered == "" && view.error.None?
    {
      this.setup, this.incoming := setup, incoming;
      done, result, error, failedTail := false, 0, None, "";
      buf, rawTotal, codec, frameComplete := Buffers("", 0, "", 0, 0, 0, 0), 0, Codec("", ""), false;
      view := Body(incoming, "", "", "", "", false, None, "");
      new;
      assert view.Total() == Flatten(incoming);
      for i := 0 to headerPumps
        invariant |this.incoming| == |incoming| - i
        invariant Valid() && view.window == "" && error.None? && view.delivered == ""
        invariant view.Total() == Flatten(incoming)
      {
        PumpedOk(setup, view);
        Pump();
      }
    }

    /** onBody appends to raw; the transfer is done with the last bytes. */
    method Pump()
      requires Valid() && !done && view.window == "" && error.None?
      modifies `incoming, `buf, `rawTotal, `done, `result, `view
      ensures Valid() && view == old(view).Pumped()
    {
      hide Ok, Body.Taken, Body.Given, Body.Total, Flatten, Buffers.Shows;
      PumpedOk(setup, view);
      var data := incoming[0];
      buf.ShowsAfter(setup.zstd.Some?, view.held, data);
      buf := buf.NoWindow().Appended(data);
      rawTotal := rawTotal + |data|;
      incoming := incoming[1..];
      if |incoming| == 0 {
        done, result := true, setup.outcome;
      }
      view := view.Pumped();
    }

    /** Everything handed out has been consumed: the buffer is compacted. */
    method Compact()
      requires Valid() && view.window == ""
      modifies `buf
      ensures Valid()
    {
      buf.ShowsAfter(setup.zstd.Some?, view.held, "");
      buf := buf.NoWindow().Compacted();
    }

    /** Without a decoder, the window is the part of raw that may be shown. */
    method Expose(allowed: nat)
      requires Valid() && view.window == "" && setup.Plain() && error.None? && (!done || setup.outcome == 0)
      requires allowed == view.Allowed() > 0
      modifies `buf, `view
      ensures Valid() && view == Exposed(old(view))
    {
      hide Ok, Body.Taken, Body.Given, Buffers.Shows;
      ExposedOk(setup, view);
      buf.ShowsAfter(false, view.held, "");
      buf := buf.ShowRaw(allowed);
      view := Exposed(view);
    }

    /** One call of the decoder on the part of raw that may be shown. */
    method Decode(allowed: nat) returns (r: Reaction)
      requires Valid() && view.window == "" && setup.zstd.Some? && setup.unsupported == "" && error.None?
      requires allowed == view.Allowed() && (!done || setup.outcome == 0)
      modifies `buf, `codec, `frameComplete, `view
      ensures Valid()
      ensures r == setup.zstd.value.React(old(view).Taken(), old(view).Given(), old(view).held[..allowed], setup.room)
      ensures match r
              case Refused(_) => view == old(view)
              case Advanced(n, output, frameDone) =>
                && n <= allowed && view == Decoded(old(view), n, output, frameDone)
                && (n == 0 && output == "" ==> allowed == 0 && view == old(view))
    {
      hide Ok, Body.Taken, Body.Given, Decoded, Buffers.Shows;
      buf.ShowsDecoded(view.held, allowed, "");
      var input := buf.raw[buf.rawPos..buf.rawPos + allowed];
      r := setup.zstd.value.React(codec.taken, codec.given, input, setup.room);
      if r.Advanced? {
        DecodedOk(setup, view, r.consumed, r.output, r.frameDone);
        DecodedFields(view, r.consumed, r.output, r.frameDone);
        buf.ShowsDecoded(view.held, r.consumed, r.output);
        assert input[..r.consumed] == view.held[..r.consumed];
        codec := Codec(codec.taken + input[..r.consumed], codec.given + r.output);
        buf := buf.ShowDecoded(r.consumed, r.output);
        if r.consumed > 0 || |r.output| > 0 {
          frameComplete := r.frameDone;
        }
        view := Decoded(view, r.consumed, r.output, r.frameDone);
      }
    }

    /** The decoder's turn in fill(): a result, or None when there is none yet. */
    method FillDecoded(allowed: nat) returns (r: Option<Filled>, consumed: nat)
      requires Valid() && view.window == "" && setup.zstd.Some? && setup.unsupported == "" && error.None?
      requires allowed == view.Allowed() && (!done || setup.outcome == 0) && (allowed > 0 || done)
      modifies `buf, `codec, `frameComplete, `error, `view
      ensures Valid()
      ensures r.Some? ==> (view, r.value) == FillFrom(setup, old(view))
      ensures r.None? ==> view.window == "" && error.None?
      ensures r.None? && consumed > 0 ==>
                FillFrom(setup, view) == FillFrom(setup, old(view)) && |view.held| < |old(view).held|
      ensures r.None? && consumed == 0 ==>
                && view == old(view) && allowed == 0
                && Idle(setup.zstd.value.React(view.Taken(), view.Given(), "", setup.room))
                && FillFrom(setup, view) == WaitOrFinish(setup, view)
    {
      hide Ok, Body.Taken, Body.Given, WaitOrFinish, Buffers.Shows;
      ghost var b := view;
      assert allowed == 0 ==> b.held[..allowed] == "";
      var reaction := Decode(allowed);
      if reaction.Refused? {
        BrokenOk(setup, b, reaction.why);
        error := Some(BrokenCompression(reaction.why));
        view := view.(error := error);
        return Some(Threw(error.value)), 0;
      }
      return if |reaction.output| > 0 then Some(More) else None, reaction.consumed;
    }

    /** decodeRemaining */
    method DecodeRemaining() returns (res: Bytes)
      requires Valid() && done && view.window == "" && error.None?
      ensures res == match setup.zstd
                     case None => view.held
                     case Some(decoder) => DecodeRest(decoder, view.Taken(), view.Given(), view.held, setup.room, 0)
    {
      hide DecodeRest;
      if setup.zstd.None? {
        return buf.raw[buf.rawPos..];
      }
      var decoder := setup.zstd.value;
      ghost var whole := DecodeRest(decoder, codec.taken, codec.given, view.held, setup.room, 0);
      res := "";
      var taken, given := codec.taken, codec.given;
      var input := buf.raw[buf.rawPos..];
      var stalled := 0;
      ghost var bound := |decoder.Content(taken + input)|;
      while stalled < 100
        invariant stalled <= 100 && given <= decoder.Content(taken) && bound == |decoder.Content(taken + input)|
        invariant whole == res + DecodeRest(decoder, taken, given, input, setup.room, stalled)
        decreases bound - |given|, 100 - stalled
      {
        DecodeRestStep(decoder, taken, given, input, setup.room, stalled);
        var r := decoder.React(taken, given, input, setup.room);
        if r.Refused? {
          return;
        }
        taken, given := taken + input[..r.consumed], given + r.output;
        res := res + r.output;
        input := input[r.consumed..];
        if |input| == 0 && |r.output| < setup.room {
          return;
        }
        stalled := if r.output == "" then stalled + 1 else 0;
      }
      DecodeRestStalled(decoder, taken, given, input, setup.room);
    }

    /** What is thrown when the transfer failed with `tail` undelivered. */
    method FailureIn(tail: Bytes) returns (f: Failure)
      ensures f == FailureOf(setup.tag, tail, setup.transportText)
    {
      var message := FindMessage(setup.tag, tail);
      if message.None? {
        return Transport(setup.transportText);
      }
      if MessageIn(setup.tag, tail).Some? {
        CarriesOne(setup.tag, tail, message.value, MessageIn(setup.tag, tail).value);
      }
      var code := ParseExceptionCode(message.value);
      return ServerException(PREFIX + message.value, code);
    }

    /** finish: the transfer is over, and nothing more can be shown. */
    method Finish()
      requires Valid() && done && view.window == "" && error.None? && setup.unsupported == ""
      requires setup.outcome == 0 ==>
                 view.held == "" && (setup.zstd.Some?
                     ==> Idle(setup.zstd.value.React(view.Taken(), view.Given(), "", setup.room)))
      modifies `error, `failedTail, `view
      ensures Valid() && view == Finished(setup, old(view))
    {
      hide Ok, Body.Taken, Body.Given, DecodeRest;
      FinishedOk(setup, view);
      if result != 0 {
        failedTail := DecodeRemaining();
        var failure := FailureIn(failedTail);
        error := Some(failure);
      } else if setup.zstd.Some? && rawTotal > 0 && !frameComplete {
        error := Some(TruncatedCompression);
      }
      view := Finished(setup, view);
    }

    /** The loop of fill(): show something, or learn that there is nothing, or wait for more. */
    method FillLoop() returns (r: Filled)
      requires Valid() && view.window == "" && error.None? && setup.unsupported == ""
      modifies this
      ensures Valid() && (view, r) == FillFrom(setup, old(view))
    {
      hide Ok, FillFrom, WaitOrFinish, Finished, Body.Taken, Body.Given;
      while true
        invariant Valid() && view.window == "" && error.None?
        invariant FillFrom(setup, view) == FillFrom(setup, old(view))
        decreases |incoming|, |view.held|
      {
        FillFromUnrolled(setup, view);
        var available := |buf.raw| - buf.rawPos;
        var allowed := if done then available else if available > HOLDBACK_SIZE then available - HOLDBACK_SIZE else 0;
        if !done || result == 0 {
          if setup.zstd.None? {
            if allowed > 0 {
              Expose(allowed);
              return More;
            }
          } else if allowed > 0 || done {
            var filled, consumed := FillDecoded(allowed);
            if filled.Some? {
              return filled.value;
            }
            if consumed > 0 {
              continue;
            }
          }
        }
        if done {
          Finish();
          return if error.Some? then Threw(error.value) else End;
        }
        Pump();
      }
    }

    /** fill */
    method Fill() returns (r: Filled)
      requires Valid()
      modifies this
      ensures Valid() && (view, r) == BodyStream.Fill(setup, old(view))
    {
      hide Ok, FillFrom, Body.Taken, Body.Given;
      if buf.pos < buf.end {
        return More;
      }
      if error.None? && setup.unsupported != "" {
        error := Some(UnsupportedEncoding(setup.unsupported));
        view := BodyStream.Fill(setup, view).0;
      }
      if error.Some? {
        return Threw(error.value);
      }
      Compact();
      r := FillLoop();
    }

    /** Hands over the next `n` bytes of the window. */
    method Copy(n: nat) returns (data: Bytes)
      requires Valid() && 0 < n <= buf.end - buf.pos
      modifies `buf, `view
      ensures n <= |old(view).window| && data == old(view).window[..n]
      ensures Valid() && view == Take(old(view), n)
    {
      hide Ok, Body.Taken, Body.Given, Buffers.Shows;
      buf.ShowsTaken(setup.zstd.Some?, view.held, view.window, n);
      TakeOk(setup, view, n);
      data := buf.Memory(setup.zstd.Some?)[buf.pos..buf.pos + n];
      buf := buf.(pos := buf.pos + n);
      view := Take(view, n);
    }

    /** eof */
    method Eof() returns (a: Answer)
      requires Valid()
      modifies this
      ensures Valid() && (view, a) == BodyStream.Eof(setup, old(view))
    {
      var filled := Fill();
      return match filled
        case More => AtEnd(false)
        case End => AtEnd(true)
        case Threw(f) => Failed("", f);
    }

    /** get */
    method Get() returns (a: Answer)
      requires Valid()
      modifies this
      ensures Valid() && (view, a) == BodyStream.Get(setup, old(view))
    {
      hide Ok, Body.Taken, Body.Given, BodyStream.Fill;
      var filled := Fill();
      match filled
      case More =>
        var data := Copy(1);
        return Got(data);
      case End =>
        return Incomplete("");
      case Threw(f) =>
        return Failed("", f);
    }

    /** read: the bytes at hand when there are enough of them, and the slow way otherwise. */
    method Read(count: nat) returns (a: Answer)
      requires Valid()
      modifies this
      ensures Valid() && (view, a) == BodyStream.Read(setup, old(view), count)
    {
      if count == 0 {
        return Got("");
      }
      if buf.end - buf.pos >= count {
        ReadAtHand(setup, view, count);
        var data := Copy(count);
        return Got(data);
      }
      a := ReadSlow(count);
    }

    /** readSlow */
    method ReadSlow(requested: nat) returns (a: Answer)
      requires Valid()
      modifies this
      ensures Valid() && (view, a) == BodyStream.Read(setup, old(view), requested)
    {
      hide Ok, Body.Taken, Body.Given, BodyStream.Read, BodyStream.Fill, Take, Buffers.Shows;
      var dest: Bytes, count := "", requested;
      ReadsOnNothing(BodyStream.Read(setup, view, requested));
      while count > 0
        invariant Valid()
        invariant ReadsOn(BodyStream.Read(setup, old(view), requested), dest, BodyStream.Read(setup, view, count))
      {
        ReadStep(setup, view, count);
        ghost var middle := BodyStream.Read(setup, view, count);
        var filled := Fill();
        if !filled.More? {
          assert dest + "" == dest;
          return if filled.End? then Incomplete(dest) else Failed(dest, filled.failure);
        }
        buf.ShowsTaken(setup.zstd.Some?, view.held, view.window, 0);
        var n := Min(buf.end - buf.pos, count);
        var data := Copy(n);
        ReadsOnFurther(BodyStream.Read(setup, old(view), requested), dest, middle, data,
            BodyStream.Read(setup, view, count - n));
        dest, count := dest + data, count - n;
      }
      ReadStep(setup, view, 0);
      assert dest + "" == dest;
      return Got(dest);
    }

    /** readAll */
    method ReadAll(limit: nat) returns (res: Bytes)
      requires Valid()
      modifies this
      ensures Valid() && (view, res) == BodyStream.ReadAll(setup, old(view), limit)
    {
      hide Ok, Body.Taken, Body.Given, BodyStream.ReadAll, BodyStream.Fill, Take, Buffers.Shows;
      res := "";
      while |res| < limit
        invariant Valid() && |res| <= limit
        invariant var whole, rest := BodyStream.ReadAll(setup, old(view), limit),
                  BodyStream.ReadAll(setup, view, limit - |res|);
                  whole.0 == rest.0 && whole.1 == res + rest.1
        decreases limit - |res|
      {
        ReadAllStep(setup, view, limit - |res|);
        var filled := Fill();
        if filled.Threw? {
          return res + failedTail[..Min(|failedTail|, limit - |res|)];
        }
        if filled.End? {
          assert res + "" == res;
          return res;
        }
        buf.ShowsTaken(setup.zstd.Some?, view.held, view.window, 0);
        var data := Copy(Min(buf.end - buf.pos, limit - |res|));
        res := res + data;
      }
      ReadAllStep(setup, view, 0);
      assert res + "" == res;
    }
  }
}
