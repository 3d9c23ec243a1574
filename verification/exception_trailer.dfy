/** The text of a ClickHouse mid-stream exception at the end of an HTTP body. */
module ExceptionTrailer {
  import opened Text

  const MARKER: string := "__exception__\r\n"

  function ClosingMarker(tag: string): string { " " + tag + "\r\n" + MARKER }

  /** What a server that sends X-ClickHouse-Exception-Tag appends to the body. */
  function Trailer(tag: string, message: string): string {
    MARKER + tag + "\r\n" + message + Decimal(|message|) + ClosingMarker(tag)
  }

  lemma TrailerText()
    ensures Trailer("t", "oops") == "__exception__\r\nt\r\noops" + "4" + " t\r\n__exception__\r\n"
  {
    assert Decimal(4) == "4";
    assert MARKER + "t" + "\r\n" == "__exception__\r\nt\r\n";
    assert "__exception__\r\nt\r\n" + "oops" == "__exception__\r\nt\r\noops";
    assert ClosingMarker("t") == " t\r\n__exception__\r\n";
  }

  /** `buffer` ends in `message`, the decimal size of `message` and the closing marker, where the size
      is read as the longest run of digits. */
  ghost predicate SizedMessage(tag: string, buffer: string, message: string, head: string, digits: string) {
    && buffer == head + message + digits + ClosingMarker(tag)
    && digits != [] && AllDigits(digits) && !EndsInDigit(head + message)
    && DecimalValue(digits) == |message| <= U64_MAX
  }

  /** `message` is everything after the last marker. */
  ghost predicate MarkedMessage(buffer: string, message: string) {
    && EndsWith(buffer, MARKER + message)
    && forall i :: |buffer| - |MARKER| - |message| < i ==> !At(MARKER, buffer, i)
  }

  ghost predicate Carries(tag: string, buffer: string, message: string) {
    if tag == "" then MarkedMessage(buffer, message)
    else exists head, digits :: SizedMessage(tag, buffer, message, head, digits)
  }

  /** Where the run of digits that ends at `end` begins. */
  function RunStart(s: string, end: nat): (begin: nat)
    requires end <= |s|
    ensures begin <= end && (forall k :: begin <= k < end ==> IsDigit(s[k])) && (begin > 0 ==> !IsDigit(s[begin - 1]))
  {
    if end > 0 && IsDigit(s[end - 1]) then RunStart(s, end - 1) else end
  }

  lemma {:induction false} RunStartOf(x: string, d: string, rest: string)
    requires AllDigits(d) && !EndsInDigit(x)
    ensures RunStart(x + d + rest, |x + d|) == |x|
    decreases |d|
  {
    if d == [] {
      assert (x + d + rest)[..|x|] == x;
    } else {
      var front, last := d[..|d| - 1], d[|d| - 1..];
      assert front + last == d;
      assert x + d + rest == x + front + (last + rest);
      RunStartOf(x, front, last + rest);
    }
  }

  /** Every way to read `buffer` as a sized message has the same parts. */
  lemma SizedMessageParts(tag: string, buffer: string, m: string, h: string, d: string)
    requires SizedMessage(tag, buffer, m, h, d)
    ensures EndsWith(buffer, ClosingMarker(tag))
    ensures var end := |buffer| - |ClosingMarker(tag)|;
            var begin := RunStart(buffer, end);
            d == buffer[begin..end] && h + m == buffer[..begin] && m == buffer[begin - |m|..begin]
  {
    hide RunStart, DecimalValue, AllDigits, ClosingMarker, EndsInDigit;
    RunStartOf(h + m, d, ClosingMarker(tag));
    FourParts(h, m, d, ClosingMarker(tag));
  }

  lemma FourParts(h: string, m: string, d: string, z: string)
    ensures var s := h + m + d + z;
            && EndsWith(s, z) && |s| - |z| == |h + m + d|
            && s[|h + m|..|s| - |z|] == d && s[..|h + m|] == h + m && s[|h + m| - |m|..|h + m|] == m
  {
    var s := h + m + d + z;
    assert s[|h|..|h + m|] == m;
  }

  lemma SizedMessageAt(tag: string, front: string, digits: string, size: nat)
    requires tag != "" && !EndsInDigit(front) && digits != [] && AllDigits(digits)
    requires size == DecimalValue(digits) <= U64_MAX && size <= |front|
    ensures Carries(tag, front + digits + ClosingMarker(tag), front[|front| - size..])
  {
    var head, m := front[..|front| - size], front[|front| - size..];
    assert head + m == front;
    assert SizedMessage(tag, front + digits + ClosingMarker(tag), m, head, digits);
  }

  lemma {:induction false} CarriesOne(tag: string, buffer: string, a: string, b: string)
    requires Carries(tag, buffer, a) && Carries(tag, buffer, b)
    ensures a == b
  {
    if tag == "" {
      var i, j := |buffer| - |MARKER| - |a|, |buffer| - |MARKER| - |b|;
      MarkedMessageParts(buffer, a);
      MarkedMessageParts(buffer, b);
    } else {
      var h1, d1 :| SizedMessage(tag, buffer, a, h1, d1);
      var h2, d2 :| SizedMessage(tag, buffer, b, h2, d2);
      SizedMessageParts(tag, buffer, a, h1, d1);
      SizedMessageParts(tag, buffer, b, h2, d2);
    }
  }

  lemma MarkedMessageParts(buffer: string, m: string)
    requires EndsWith(buffer, MARKER + m)
    ensures var i := |buffer| - |MARKER| - |m|;
            At(MARKER, buffer, i) && m == buffer[i + |MARKER|..]
  {
    var i := |buffer| - |MARKER| - |m|;
    assert buffer[i..] == MARKER + m;
    assert buffer[i..i + |MARKER|] == buffer[i..][..|MARKER|] == MARKER;
    assert buffer[i + |MARKER|..] == buffer[i..][|MARKER|..] == m;
  }

  /** findClickHouseExceptionMessage */
  method FindMessage(tag: string, buffer: string) returns (message: Option<string>)
    ensures message.Some? ==> Carries(tag, buffer, message.value)
    ensures message.None? ==> forall m :: !Carries(tag, buffer, m)
  {
    if tag != "" {
      message := FindSizedMessage(tag, buffer);
    } else {
      message := FindMarkedMessage(buffer);
    }
  }

  lemma NoSizedMessage(tag: string, buffer: string)
    requires tag != ""
    requires EndsWith(buffer, ClosingMarker(tag)) ==>
               var end := |buffer| - |ClosingMarker(tag)|;
               var begin := RunStart(buffer, end);
               begin == end || DecimalValue(buffer[begin..end]) > Cap(begin)
    ensures forall m :: !Carries(tag, buffer, m)
  {
    hide RunStart, ClosingMarker;
    forall m, h, d | SizedMessage(tag, buffer, m, h, d)
      ensures EndsWith(buffer, ClosingMarker(tag))
      ensures var end := |buffer| - |ClosingMarker(tag)|;
              var begin := RunStart(buffer, end); d == buffer[begin..end] && h + m == buffer[..begin]
    {
      SizedMessageParts(tag, buffer, m, h, d);
    }
  }

  // The largest size that std::from_chars accepts and that lies inside the buffer.
  function Cap(front: nat): nat { if front < U64_MAX then front else U64_MAX }

  lemma RunStops(s: string, begin: nat)
    requires begin <= |s| && (begin > 0 ==> !IsDigit(s[begin - 1]))
    ensures RunStart(s, begin) == begin && !EndsInDigit(s[..begin])
  {
  }

  lemma DigitsOfRun(s: string, end: nat)
    requires end <= |s|
    ensures AllDigits(s[RunStart(s, end)..end])
  {
    hide RunStart;
  }

  method FindSizedMessage(tag: string, buffer: string) returns (message: Option<string>)
    requires tag != ""
    ensures message.Some? ==> Carries(tag, buffer, message.value)
    ensures message.None? ==> forall m :: !Carries(tag, buffer, m)
  {
    hide RunStart, DecimalValue, ClosingMarker, Carries, AllDigits;
    var closing := ClosingMarker(tag);
    if !EndsWith(buffer, closing) {
      NoSizedMessage(tag, buffer);
      return None;
    }
    var end := |buffer| - |closing|;
    var sizeBegin := end;
    while sizeBegin > 0 && IsDigit(buffer[sizeBegin - 1])
      invariant 0 <= sizeBegin <= end
      invariant RunStart(buffer, end) == RunStart(buffer, sizeBegin)
    {
      sizeBegin := sizeBegin - 1;
    }
    RunStops(buffer, sizeBegin);
    DigitsOfRun(buffer, end);
    var front, digits := buffer[..sizeBegin], buffer[sizeBegin..end];
    if digits == "" || DecimalValue(digits) > U64_MAX || sizeBegin < DecimalValue(digits) {
      NoSizedMessage(tag, buffer);
      return None;
    }
    assert buffer == front + digits + closing;
    assert front[|front| - DecimalValue(digits)..] == front[sizeBegin - DecimalValue(digits)..];
    SizedMessageAt(tag, front, digits, DecimalValue(digits));
    return Some(front[sizeBegin - DecimalValue(digits)..]);
  }

  method FindMarkedMessage(buffer: string) returns (message: Option<string>)
    ensures message.Some? ==> MarkedMessage(buffer, message.value)
    ensures message.None? ==> forall m :: !MarkedMessage(buffer, m)
  {
    var at := FindLast(MARKER, buffer, |buffer|);
    if at.Some? {
      var text := buffer[at.value + |MARKER|..];
      assert buffer[at.value..] == MARKER + text;
      return Some(text);
    }
    forall m | EndsWith(buffer, MARKER + m) ensures At(MARKER, buffer, |buffer| - |MARKER| - |m|) {
      MarkedMessageParts(buffer, m);
    }
    return None;
  }

  /** The tagged trailer gives its message back exactly when the message does not end in a digit: the
      size is glued to the message, and the scan for its first digit cannot see where it begins. */
  lemma TrailerGivesMessage(tag: string, data: string, message: string)
    requires tag != "" && |message| <= U64_MAX
    ensures Carries(tag, data + Trailer(tag, message), message) <==> !EndsInDigit(message)
  {
    var buffer := data + Trailer(tag, message);
    var head, digits := data + MARKER + tag + "\r\n", Decimal(|message|);
    assert buffer == head + message + digits + ClosingMarker(tag);
    assert head[|head| - 1] == '\n';
    EndsInDigitOf(head, message);
    if !EndsInDigit(message) {
      assert SizedMessage(tag, buffer, message, head, digits);
    }
    forall h ensures message != "" ==> EndsInDigit(h + message) == EndsInDigit(message) {
      EndsInDigitOf(h, message);
    }
  }

  lemma EndsInDigitOf(h: string, m: string)
    ensures EndsInDigit(h + m) == if m == "" then EndsInDigit(h) else EndsInDigit(m)
  {
    if m == "" {
      assert h + m == h;
    }
  }

  /** Without a tag, the last marker must be the trailer's own: the message comes back exactly when it
      does not contain the marker. */
  lemma MarkerGivesMessage(data: string, message: string)
    ensures Carries("", data + MARKER + message, message) <==> !Occurs(MARKER, message)
  {
    var buffer := data + MARKER + message;
    var b := |data| + |MARKER|;
    assert buffer[|data|..] == MARKER + message;
    assert buffer[b..] == message;
    forall i | 0 <= i <= |message| - |MARKER| ensures At(MARKER, message, i) == At(MARKER, buffer, b + i) {
      assert buffer[b + i..b + i + |MARKER|] == message[i..i + |MARKER|];
    }
    if Occurs(MARKER, message) {
      var i :| 0 <= i <= |message| && At(MARKER, message, i);
      assert At(MARKER, buffer, b + i);
    } else {
      forall i | |data| < i ensures !At(MARKER, buffer, i) {
        if b <= i <= |buffer| - |MARKER| {
          assert At(MARKER, message, i - b) == At(MARKER, buffer, b + (i - b));
        } else if i < b {
          MarkerHasNoBorder(data, message, i - |data|);
        }
      }
    }
  }

  /** The marker cannot begin inside itself. */
  lemma MarkerHasNoBorder(data: string, message: string, k: nat)
    requires 0 < k < |MARKER|
    ensures !At(MARKER, data + MARKER + message, |data| + k)
  {
    var buffer := data + MARKER + message;
    var j := if k == 1 then 1 else if k == 11 then 2 else if k == 12 then 1 else 0;
    assert buffer[|data| + k + j] == MARKER[k + j] != MARKER[j];
    if |data| + k <= |buffer| - |MARKER| {
      assert buffer[|data| + k..|data| + k + |MARKER|][j] == buffer[|data| + k + j];
    }
  }

  /** A message that ends in a digit: its size 6 is read as 56, and nothing is found. */
  lemma DigitHidesMessage()
    ensures forall m :: !Carries("t", Trailer("t", "Code 5"), m)
  {
    var buffer := Trailer("t", "Code 5");
    var front := MARKER + "t\r\nCode ";
    assert Decimal(6) == "6";
    assert buffer == front + "56" + ClosingMarker("t");
    RunStartOf(front, "56", ClosingMarker("t"));
    assert buffer[|front|..|front| + 2] == "56";
    assert DecimalValue("56") == 56 by {
      assert "56"[..1] == "5" && "5"[..0] == "";
    }
    NoSizedMessage("t", buffer);
  }

  /** What the server appends to a body that it cannot finish. */
  function Appended(tag: string, message: string): string {
    if tag != "" then Trailer(tag, message) else MARKER + message
  }

  /** A message that can be told from what stands around it. */
  predicate IsClear(tag: string, message: string) {
    if tag != "" then !EndsInDigit(message) else !Occurs(MARKER, message)
  }

  lemma AppendedGivesMessage(tag: string, front: string, message: string)
    requires |message| <= U64_MAX
    ensures Carries(tag, front + Appended(tag, message), message) <==> IsClear(tag, message)
  {
    hide Carries, Occurs;
    if tag != "" {
      TrailerGivesMessage(tag, front, message);
    } else {
      MarkerGivesMessage(front, message);
      assert front + (MARKER + message) == front + MARKER + message;
    }
  }

  /** The digits after the first "Code: ", or nothing. */
  function ExceptionCode(message: string): string {
    var at := Find("Code: ", message);
    if at.None? then "" else message[at.value + 6..DigitsEnd(message, at.value + 6)]
  }

  /** The code stands behind the first "Code: ", up to the first character that is no digit. */
  lemma CodeExactly(message: string, i: nat, end: nat)
    requires At("Code: ", message, i) && forall k :: 0 <= k < i ==> !At("Code: ", message, k)
    requires i + 6 <= end <= |message| && (forall k :: i + 6 <= k < end ==> IsDigit(message[k]))
    requires end < |message| ==> !IsDigit(message[end])
    ensures ExceptionCode(message) == message[i + 6..end]
  {
    hide At;
    var found := Find("Code: ", message);
    assert found == Some(i);
    assert DigitsEnd(message, i + 6) == end;
  }

  lemma NoCode(message: string)
    requires !Occurs("Code: ", message)
    ensures ExceptionCode(message) == ""
  {
  }

  /** parseExceptionCode */
  method ParseExceptionCode(message: string) returns (code: string)
    ensures code == ExceptionCode(message)
  {
    var at := Find("Code: ", message);
    if at.None? {
      return "";
    }
    var begin := at.value + 6;
    var end := begin;
    while end < |message| && IsDigit(message[end])
      invariant begin <= end <= |message|
      invariant DigitsEnd(message, begin) == DigitsEnd(message, end)
    {
      end := end + 1;
    }
    return message[begin..end];
  }
}
