/** Strings that SQLGetData hands out in parts, into buffers that are too small for them. */
module PartialReads {
  import opened Text

  /** A symbol of the application's encoding, `width` bytes each; zero terminates a string. */
  type Symbol = nat

  datatype Outcome = Success | Truncated | NoData | InvalidLength

  /** A conversion to std::size_t. */
  function SizeT(n: int): nat { n % (U64_MAX + 1) }

  /** The buffer's size in symbols, and what an offset in bytes leaves of a string. */
  function Capacity(maxLength: int, inBytes: bool, width: nat): nat
    requires width > 0
  {
    if inBytes then SizeT(maxLength) / width else SizeT(maxLength)
  }

  /** The buffer holds as many whole symbols as fit its size. */
  lemma CapacityFits(maxLength: nat, width: nat)
    requires width > 0 && maxLength <= U64_MAX
    ensures Capacity(maxLength, false, width) == maxLength
    ensures var n := Capacity(maxLength, true, width); n * width <= maxLength < n * width + width
  {
  }

  function Start(converted: seq<Symbol>, width: nat, offset: nat): (s: nat)
    requires width > 0
    ensures s <= |converted|
  {
    if offset > |converted| * width then |converted| else Floor(offset, width, |converted|)
  }

  function Floor(offset: nat, width: nat, n: nat): (s: nat)
    requires width > 0 && offset <= n * width
    ensures s == offset / width && s <= n
  {
    DivBound(offset, width, n);
    offset / width
  }

  lemma DivBound(a: nat, w: nat, n: nat)
    requires w > 0 && a <= n * w
    ensures a / w <= n
  {
    if a / w > n {
      MulMono(n + 1, a / w, w);
    }
  }

  /** How many symbols of data a call delivers in front of the terminator. */
  function Delivered(remaining: nat, capacity: nat): nat {
    if remaining < capacity then remaining else if capacity > 0 then capacity - 1 else 0
  }

  function Result(length: nat, start: nat, capacity: nat, offset: nat): Outcome
    requires start <= length
  {
    if offset > 0 && start == length then NoData
    else if length - start >= capacity then Truncated
    else Success
  }

  /** fillOutputBufferInternal, at the granularity of symbols. */
  method FillBuffer(source: seq<Symbol>, out: array<Symbol>, capacity: nat)
    requires capacity <= out.Length
    modifies out
    ensures var n := if |source| < capacity then |source| else capacity;
            out[..n] == source[..n] && out[n..] == old(out[..])[n..]
  {
    var n := if |source| < capacity then |source| else capacity;
    for i := 0 to n
      invariant out[..i] == source[..i] && out[i..] == old(out[..])[i..]
    {
      ghost var before := out[..];
      out[i] := source[i];
      assert out[..i + 1] == out[..i] + [source[i]] && out[..i] == before[..i];
      assert source[..i + 1] == source[..i] + [source[i]];
      assert out[i + 1..] == before[i + 1..];
      assert before[i..][1..] == before[i + 1..];
    }
  }

  /** fillOutputString: the string is converted already, and `offset` bytes of it have been read. The data is
      what follows the offset, as much as there is room for; a terminator is behind it, and nothing is written
      behind the buffer's size. */
  method FillOutputString(
    converted: seq<Symbol>, width: nat, out: array?<Symbol>, maxLength: int, inBytes: bool, offset: nat
  ) returns (r: Outcome, length: nat)
    requires width > 0 && offset % width == 0
    requires out != null && maxLength >= 0 ==> Capacity(maxLength, inBytes, width) <= out.Length
    modifies out
    ensures r == InvalidLength <==> out != null && (maxLength < 0 || (inBytes && maxLength % width != 0))
    ensures r == InvalidLength && out != null ==> out[..] == old(out[..])
    ensures r != InvalidLength ==>
              var start, capacity := Start(converted, width, offset), Capacity(maxLength, inBytes, width);
              && r == Result(|converted|, start, capacity, offset)
              && length == (|converted| - start) * (if inBytes then width else 1)
              && (out != null && capacity > 0 ==>
                    var n := Delivered(|converted| - start, capacity);
                    out[..n] == converted[start..start + n] && out[n] == 0)
    ensures r != InvalidLength && out != null ==>
              var capacity := Capacity(maxLength, inBytes, width);
              out[capacity..] == old(out[..])[capacity..]
  {
    if out != null && (maxLength < 0 || (inBytes && maxLength % width != 0)) {
      return InvalidLength, 0;
    }
    var capacity := Capacity(maxLength, inBytes, width);
    var start := Start(converted, width, offset);
    var rest := converted[start..];
    length := |rest| * (if inBytes then width else 1);
    if out != null {
      FillTerminated(rest, out, capacity);
      DropTake(converted, start, Delivered(|rest|, capacity));
    }
    r := Result(|converted|, start, capacity, offset);
  }

  lemma DropTake(s: seq<Symbol>, i: nat, n: nat)
    requires i + n <= |s|
    ensures s[i..][..n] == s[i..i + n]
  {
  }

  method FillTerminated(source: seq<Symbol>, out: array<Symbol>, capacity: nat)
    requires capacity <= out.Length
    modifies out
    ensures capacity > 0 ==> var n := Delivered(|source|, capacity); out[..n] == source[..n] && out[n] == 0
    ensures out[capacity..] == old(out[..])[capacity..]
  {
    ghost var before := out[..];
    FillBuffer(source, out, capacity);
    ghost var m := if |source| < capacity then |source| else capacity;
    assert out[capacity..] == out[m..][capacity - m..] == before[m..][capacity - m..] == before[capacity..];
    ghost var n := Delivered(|source|, capacity);
    assert n <= m;
    assert out[..n] == out[..m][..n] == source[..m][..n] == source[..n];
    Terminate(out, |source|, capacity);
  }

  method Terminate(out: array<Symbol>, written: nat, capacity: nat)
    requires capacity <= out.Length
    modifies out
    ensures capacity > 0 ==> var n := Delivered(written, capacity); out[n] == 0 && out[..n] == old(out[..n])
    ensures out[capacity..] == old(out[..])[capacity..]
  {
    if written < capacity {
      out[written] := 0;
    } else if capacity > 0 {
      out[capacity - 1] := 0;
    }
  }

  // -------- SQLGetData

  /** One call: the data, the outcome, and the offset for the next call. The buffer has `capacity` symbols, and
      its size is given in bytes. */
  datatype Part = Part(data: seq<Symbol>, outcome: Outcome, offset: nat)

  /** The data of a call. */
  function PartData(converted: seq<Symbol>, start: nat, capacity: nat): seq<Symbol>
    requires start <= |converted|
  {
    converted[start..start + Delivered(|converted| - start, capacity)]
  }

  function BehindTruncated(offset: nat, capacity: nat, width: nat): nat { SizeT(offset + capacity * width - width) }

  function BehindLast(offset: nat, rest: nat, width: nat): nat { SizeT(offset + rest * width + width) }

  function GetData(converted: seq<Symbol>, width: nat, offset: nat, capacity: nat): Part
    requires width > 0
  {
    var start := Start(converted, width, offset);
    var data := PartData(converted, start, capacity);
    match Result(|converted|, start, capacity, offset)
    case NoData => Part(data, NoData, 0)
    case Truncated => Part(data, Truncated, BehindTruncated(offset, capacity, width))
    case _ => Part(data, Success, BehindLast(offset, |converted| - start, width))
  }

  /** The calls with these buffers, until one of them says that there is no data. */
  function Calls(converted: seq<Symbol>, width: nat, offset: nat, capacities: seq<nat>): seq<Part>
    requires width > 0
    decreases |capacities|
  {
    if capacities == [] then []
    else
      var part := GetData(converted, width, offset, capacities[0]);
      if part.outcome == NoData then [part]
      else [part] + Calls(converted, width, part.offset, capacities[1..])
  }

  function Joined(parts: seq<Part>): seq<Symbol> {
    if parts == [] then [] else parts[0].data + Joined(parts[1..])
  }

  /** A reader has received `read` symbols, and more are left; or nothing at all, and nothing is there. */
  predicate Reading(converted: seq<Symbol>, width: nat, read: nat, offset: nat) {
    offset == read * width && read <= |converted| && (read < |converted| || read == 0)
  }

  lemma StartAt(converted: seq<Symbol>, width: nat, read: nat)
    requires width > 0 && read <= |converted|
    ensures Start(converted, width, read * width) == read
  {
    MulMono(read, |converted|, width);
    assert read * width / width == read;
  }

  /** A string that is shorter than the address space, its terminator included. */
  predicate Fits(converted: seq<Symbol>, width: nat) { width > 0 && (|converted| + 1) * width <= U64_MAX }

  /** One call with room for a terminator. */
  lemma OneCall(converted: seq<Symbol>, width: nat, read: nat, offset: nat, capacity: nat)
    requires Fits(converted, width) && Reading(converted, width, read, offset) && capacity > 0
    ensures var part := GetData(converted, width, offset, capacity);
            var n := read + |part.data|;
            && n <= |converted| && part.data == converted[read..n]
            && |part.data| == Delivered(|converted| - read, capacity)
            && (if |converted| - read >= capacity then
                  part.outcome == Truncated && n < |converted| && Reading(converted, width, n, part.offset)
                else part.outcome == Success && n == |converted| && part.offset == (n + 1) * width)
  {
    hide SizeT, Start, BehindTruncated, BehindLast;
    StartAt(converted, width, read);
    ZeroOffset(width, read, offset);
    if |converted| - read >= capacity {
      NextOffset(read, capacity - 1, width, |converted| + 1);
    } else {
      NextOffset(read, |converted| - read + 1, width, |converted| + 1);
    }
  }

  lemma ZeroOffset(width: nat, read: nat, offset: nat)
    requires offset == read * width && width > 0
    ensures offset > 0 <==> read > 0
  {
    if read > 0 {
      MulMono(1, read, width);
    }
  }

  lemma Distribute(a: nat, b: nat, w: nat)
    ensures (a + b) * w == a * w + b * w
  {
  }

  lemma NextOffset(read: nat, n: nat, width: nat, bound: nat)
    requires read + n <= bound && bound * width <= U64_MAX
    ensures BehindTruncated(read * width, n + 1, width) == (read + n) * width
    ensures n > 0 ==> BehindLast(read * width, n - 1, width) == (read + n) * width
  {
    Distribute(read, n, width);
    Distribute(n, 1, width);
    if n > 0 {
      Distribute(n - 1, 1, width);
    }
    MulMono(read + n, bound, width);
  }

  /** Behind the last part there is no data. */
  lemma BehindTheEnd(converted: seq<Symbol>, width: nat, capacity: nat)
    requires width > 0
    ensures GetData(converted, width, (|converted| + 1) * width, capacity) == Part([], NoData, 0)
  {
    assert (|converted| + 1) * width > |converted| * width;
  }

  lemma JoinFirst(part: Part, parts: seq<Part>, i: nat)
    requires i <= |parts|
    ensures Joined(([part] + parts)[..i + 1]) == part.data + Joined(parts[..i])
  {
    assert ([part] + parts)[..i + 1] == [part] + parts[..i];
    assert ([part] + parts[..i])[1..] == parts[..i];
  }

  /** What a run of calls reports about the text `rest`, which is still unread: every part but the last is
      truncated and leaves something, the last one completes the text, and behind it there is no data. */
  ghost predicate Reassembles(parts: seq<Part>, rest: seq<Symbol>, last: nat) {
    && last <= |parts| <= last + 2
    && (forall i :: 0 <= i < last ==>
          parts[i].outcome == Truncated && |Joined(parts[..i + 1])| < |rest| && Joined(parts[..i + 1]) <= rest)
    && (last < |parts| ==> parts[last].outcome == Success && Joined(parts[..last + 1]) == rest)
    && (|parts| == last + 2 ==> parts[last + 1] == Part([], NoData, 0))
  }

  lemma ReassembleAt(part: Part, parts: seq<Part>, rest: seq<Symbol>, tail: seq<Symbol>, last: nat, i: nat)
    requires Reassembles(parts, tail, last) && rest == part.data + tail && part.outcome == Truncated && tail != []
    requires i <= last
    ensures var all := [part] + parts;
            all[i].outcome == Truncated && |Joined(all[..i + 1])| < |rest| && Joined(all[..i + 1]) <= rest
  {
    hide Joined;
    JoinFirst(part, parts, i);
    if i == 0 {
      NothingJoined(parts);
    } else {
      var j := i - 1;
      assert parts[j].outcome == Truncated && Joined(parts[..j + 1]) <= tail;
      assert ([part] + parts)[i] == parts[j];
    }
  }

  lemma ReassembleOne(part: Part, parts: seq<Part>, rest: seq<Symbol>, tail: seq<Symbol>, last: nat)
    requires Reassembles(parts, tail, last) && rest == part.data + tail && part.outcome == Truncated && tail != []
    ensures Reassembles([part] + parts, rest, last + 1)
  {
    var all := [part] + parts;
    forall i | 0 <= i < last + 1
      ensures all[i].outcome == Truncated && |Joined(all[..i + 1])| < |rest| && Joined(all[..i + 1]) <= rest
    {
      ReassembleAt(part, parts, rest, tail, last, i);
    }
    if last < |parts| {
      JoinFirst(part, parts, last + 1);
      assert all[last + 1] == parts[last] && Joined(all[..(last + 1) + 1]) == rest;
    }
    assert |parts| == last + 2 ==> all[(last + 1) + 1] == parts[last + 1];
  }

  lemma NothingJoined(parts: seq<Part>)
    ensures Joined(parts[..0]) == []
  {
  }

  lemma JoinedOne(part: Part)
    ensures Joined([part]) == part.data
  {
    assert [part][1..] == [] && part.data + [] == part.data;
  }

  /** Successive calls with buffers of one symbol or more deliver the whole string in order; with buffers of
      two symbols or more they come to its end. */
  lemma {:induction false} PartsReassemble(
    converted: seq<Symbol>, width: nat, read: nat, offset: nat, capacities: seq<nat>
  ) returns (last: nat)
    requires Fits(converted, width) && Reading(converted, width, read, offset)
    requires forall i :: 0 <= i < |capacities| ==> capacities[i] > 0
    ensures Reassembles(Calls(converted, width, offset, capacities), converted[read..], last)
    ensures |Calls(converted, width, offset, capacities)| >= (if last < |capacities| then last + 1 else last)
    ensures (forall i :: 0 <= i < |capacities| ==> capacities[i] > 1) && |capacities| > |converted| - read
            ==> last < |capacities|
    decreases |capacities|
  {
    hide GetData, Reassembles;
    var rest := converted[read..];
    if capacities == [] {
      NoCalls(rest);
      return 0;
    }
    var c := capacities[0];
    OneCall(converted, width, read, offset, c);
    var part := GetData(converted, width, offset, c);
    var n := read + |part.data|;
    if part.outcome == Success {
      BehindTheEnd(converted, width, if |capacities| > 1 then capacities[1] else 1);
      LastCalls(converted, width, offset, capacities);
      assert part.data == rest;
      return 0;
    }
    assert rest == part.data + converted[n..];
    assert part.outcome == Truncated && converted[n..] != [];
    var more := PartsReassemble(converted, width, n, part.offset, capacities[1..]);
    ReassembleOne(part, Calls(converted, width, part.offset, capacities[1..]), rest, converted[n..], more);
    return more + 1;
  }

  lemma NoCalls(rest: seq<Symbol>)
    ensures Reassembles([], rest, 0)
  {
  }

  lemma LastCalls(converted: seq<Symbol>, width: nat, offset: nat, capacities: seq<nat>)
    requires width > 0 && capacities != []
    requires GetData(converted, width, offset, capacities[0]).outcome == Success
    requires |capacities| > 1 ==>
               GetData(converted, width, GetData(converted, width, offset, capacities[0]).offset, capacities[1])
                   == Part([], NoData, 0)
    ensures var parts := Calls(converted, width, offset, capacities);
            Reassembles(parts, GetData(converted, width, offset, capacities[0]).data, 0) && parts != []
  {
    hide GetData;
    var part := GetData(converted, width, offset, capacities[0]);
    var parts := Calls(converted, width, offset, capacities);
    JoinedOne(part);
    assert parts[..1] == [part];
  }

  /** The offset stays in step with what was received exactly when the buffer has room for a terminator. */
  lemma InStepExactly(converted: seq<Symbol>, width: nat, read: nat, offset: nat, capacity: nat)
    requires Fits(converted, width) && Reading(converted, width, read, offset) && read < |converted|
    ensures var part := GetData(converted, width, offset, capacity);
            part.outcome == Truncated ==> (part.offset == (read + |part.data|) * width <==> capacity > 0)
  {
    hide SizeT, Start, BehindTruncated, BehindLast;
    if capacity > 0 {
      OneCall(converted, width, read, offset, capacity);
    } else {
      StartAt(converted, width, read);
      ZeroOffset(width, read, offset);
      EmptyBuffer(offset, width);
    }
  }

  lemma EmptyBuffer(offset: nat, width: nat)
    requires 0 < width <= U64_MAX && offset <= U64_MAX
    ensures BehindTruncated(offset, 0, width) != offset
    ensures offset == 0 ==> BehindTruncated(offset, 0, width) == U64_MAX + 1 - width
  {
  }

  /** Asking for the length with a buffer of size zero makes the next call report that there is no data. */
  lemma EmptyProbeLosesData(converted: seq<Symbol>, width: nat, capacity: nat)
    requires Fits(converted, width)
    ensures var probe := GetData(converted, width, 0, 0);
            probe.outcome == Truncated && probe.data == []
            && GetData(converted, width, probe.offset, capacity) == Part([], NoData, 0)
  {
    hide SizeT, BehindTruncated, BehindLast;
    StartAt(converted, width, 0);
    MulMono(1, |converted| + 1, width);
    Distribute(|converted|, 1, width);
    EmptyBuffer(0, width);
  }

  lemma ModOfDifference(x: int, k: int, width: nat)
    requires width in {1, 2, 4} && x % width == 0
    ensures (x - 4 * k) % width == 0
  {
    if width == 2 {
      var a := x / 2;
      assert x - 4 * k == 2 * (a - 2 * k);
    } else if width == 4 {
      var a := x / 4;
      assert x - 4 * k == 4 * (a - k);
    }
  }

  lemma WholeSymbols(x: int, width: nat)
    requires width in {1, 2, 4} && x % width == 0
    ensures SizeT(x) % width == 0
  {
    var q := x / (U64_MAX + 1);
    assert SizeT(x) == x - 4 * (q * 0x4000_0000_0000_0000);
    ModOfDifference(x, q * 0x4000_0000_0000_0000, width);
  }

  /** The column offsets of a statement, for one column of character data. */
  class Column {
    const width: nat
    var offset: nat

    ghost predicate Valid()
      reads this
    {
      width in {1, 2, 4} && offset % width == 0
    }

    /** A row has just been fetched. */
    constructor (width: nat)
      requires width in {1, 2, 4}
      ensures Valid() && this.width == width && offset == 0
    {
      this.width, offset := width, 0;
    }

    /** SQLGetData on character data. */
    method ReadPart(converted: seq<Symbol>, out: array<Symbol>, bufferLength: int) returns (r: Outcome, length: nat)
      requires Valid() && bufferLength <= U64_MAX && (bufferLength >= 0 ==> bufferLength / width <= out.Length)
      modifies this, out
      ensures Valid()
      ensures r == InvalidLength <==> bufferLength < 0 || bufferLength % width != 0
      ensures r == InvalidLength ==> offset == old(offset) && out[..] == old(out[..])
      ensures r != InvalidLength ==>
                var part := GetData(converted, width, old(offset), bufferLength / width);
                && r == part.outcome && offset == part.offset
                && (bufferLength > 0 ==> out[..|part.data|] == part.data && out[|part.data|] == 0)
    {
      hide SizeT, Start;
      if bufferLength >= 0 {
        InRange(bufferLength);
      }
      r, length := FillOutputString(converted, width, out, bufferLength, true, offset);
      if r == InvalidLength {
        return;
      }
      ghost var start := Start(converted, width, offset);
      WholeBuffer(bufferLength, width);
      WholeOffsets(offset, bufferLength, |converted| - start, width);
      if r == Truncated {
        offset := SizeT(offset + bufferLength - width);
      } else if r == Success {
        offset := SizeT(offset + length + width);
      } else {
        offset := 0;
      }
    }
  }

  lemma InRange(n: nat)
    requires n <= U64_MAX
    ensures SizeT(n) == n
  {
  }

  lemma WholeBuffer(bytes: nat, width: nat)
    requires width in {1, 2, 4} && bytes % width == 0
    ensures bytes / width * width == bytes && (bytes > 0 ==> bytes / width > 0)
  {
  }

  lemma WholeOffsets(offset: nat, bytes: nat, rest: nat, width: nat)
    requires width in {1, 2, 4} && offset % width == 0 && bytes % width == 0
    ensures SizeT(offset + bytes - width) % width == 0 && SizeT(offset + rest * width + width) % width == 0
  {
    hide SizeT;
    WholeSymbols(offset + bytes - width, width);
    WholeSymbols(offset + rest * width + width, width);
  }
}
