/** Connection strings as people write them: values with braces and without, with blanks and semicolons around them. */
module ConnectionForms {
  import opened Text
  import opened ConnectionStrings

  /** A pair and how it is written: what stands in front of the key, around the sign, and behind the value. */
  datatype Entry = Entry(lead: string, pair: Field, gap: string, space: string, braced: bool, behind: string)

  predicate AllSpaces(s: string) { forall i :: 0 <= i < |s| ==> IsSpace(s[i]) }

  predicate AllGaps(s: string) { forall i :: 0 <= i < |s| ==> IsGap(s[i]) }

  /** A value that needs no braces. */
  predicate IsPlain(value: string) {
    ';' !in value && (value != "" ==> value[0] != '{' && !IsSpace(value[0]) && !IsSpace(value[|value| - 1]))
  }

  function ValueText(e: Entry): string {
    if e.braced then ['{'] + (EscapedValue(e.pair.value) + ['}']) else e.pair.value
  }

  function EntryText(e: Entry): string {
    e.lead + (EscapedKey(e.pair.key) + (e.gap + (['='] + (e.space + (ValueText(e) + e.behind)))))
  }

  function Written(entries: seq<Entry>): string {
    if entries == [] then "" else EntryText(entries[0]) + Written(entries[1..])
  }

  predicate FineEntry(e: Entry) {
    && AllGaps(e.lead) && IsKey(e.pair.key) && AllSpaces(e.gap) && AllSpaces(e.space) && AllGaps(e.behind)
    && (!e.braced ==> IsPlain(e.pair.value) && (e.space == "" && e.pair.value != "" ==> e.pair.value[0] != '='))
  }

  /** A semicolon stands behind each value but the last one. */
  predicate FineEntries(entries: seq<Entry>) {
    && (forall i :: 0 <= i < |entries| ==> FineEntry(entries[i]))
    && (forall i :: 0 <= i < |entries| - 1 ==> ';' in entries[i].behind)
  }

  lemma {:induction false} GapsSkipped(gaps: string, after: string)
    requires AllGaps(gaps)
    ensures SkipGap(gaps + after) == SkipGap(after)
    decreases |gaps|
  {
    if gaps == "" {
      assert gaps + after == after;
    } else {
      assert (gaps + after)[1..] == gaps[1..] + after;
      GapsSkipped(gaps[1..], after);
    }
  }

  lemma {:induction false} SpacesSkipped(spaces: string, after: string)
    requires AllSpaces(spaces) && (after == "" || !IsSpace(after[0]))
    ensures SkipSpaces(spaces + after) == after
    decreases |spaces|
  {
    if spaces == "" {
      assert spaces + after == after;
    } else {
      assert (spaces + after)[1..] == spaces[1..] + after;
      SpacesSkipped(spaces[1..], after);
    }
  }

  lemma {:induction false} SpacesTrimmed(s: string, spaces: string)
    requires AllSpaces(spaces) && (s == "" || !IsSpace(s[|s| - 1]))
    ensures TrimRight(s + spaces) == s
    decreases |spaces|
  {
    if spaces == "" {
      assert s + spaces == s;
    } else {
      assert (s + spaces)[..|s + spaces| - 1] == s + spaces[..|spaces| - 1];
      SpacesTrimmed(s, spaces[..|spaces| - 1]);
    }
  }

  /** The blanks behind a key are read with it. */
  lemma {:induction false} KeyAndGap(key: string, gap: string, acc: string, after: string)
    requires ';' !in key && AllSpaces(gap) && (after == "" || after[0] != '=')
    ensures ScanKey(EscapedKey(key) + (gap + (['='] + after)), acc) == (acc + (key + gap), true, after)
    decreases |key| + |gap|
  {
    if key == "" && gap == "" {
      assert EscapedKey(key) + (gap + (['='] + after)) == ['='] + after && (['='] + after)[1..] == after;
      assert acc + (key + gap) == acc;
    } else if key == "" {
      var s := EscapedKey(key) + (gap + (['='] + after));
      assert s == [gap[0]] + (EscapedKey(key) + (gap[1..] + (['='] + after)));
      assert IsSpace(gap[0]);
      KeyAndGap(key, gap[1..], acc + [gap[0]], after);
      assert acc + [gap[0]] + (key + gap[1..]) == acc + (key + gap);
    } else {
      var more := EscapedKey(key[1..]) + (gap + (['='] + after));
      var head := if key[0] == '=' then "==" else [key[0]];
      assert EscapedKey(key) + (gap + (['='] + after)) == head + more;
      assert (head + more)[|head|..] == more;
      assert key[0] in key;
      KeyAndGap(key[1..], gap, acc + [key[0]], after);
      assert acc + [key[0]] + (key[1..] + gap) == acc + (key + gap);
    }
  }

  /** A value without braces is the text up to the semicolon. */
  lemma {:induction false} PlainScanned(text: string, acc: string, after: string)
    requires ';' !in text && (after == "" || after[0] == ';')
    ensures ScanPlain(text + after, acc) == (acc + text, after)
    decreases |text|
  {
    if text == "" {
      assert text + after == after && acc + text == acc;
    } else {
      assert (text + after)[1..] == text[1..] + after && text[0] in text;
      PlainScanned(text[1..], acc + [text[0]], after);
      assert acc + [text[0]] + text[1..] == acc + text;
    }
  }

  /** Blanks, and then nothing or a semicolon. */
  lemma {:induction false} GapSplit(gap: string) returns (spaces: string, tail: string)
    requires AllGaps(gap)
    ensures gap == spaces + tail && AllSpaces(spaces) && AllGaps(tail) && (tail != "" ==> tail[0] == ';')
    decreases |gap|
  {
    if gap == "" || gap[0] == ';' {
      spaces, tail := "", gap;
    } else {
      assert IsGap(gap[0]);
      var more;
      more, tail := GapSplit(gap[1..]);
      spaces := [gap[0]] + more;
      assert gap == [gap[0]] + (more + tail) == spaces + tail;
    }
  }

  /** What is left behind a value. */
  lemma Behind(gap: string, after: string)
    requires AllGaps(gap) && (';' in gap || after == "")
    ensures var rest := gap + after; var next := SkipGap(rest);
            next == SkipGap(after) && (next == "" || ';' in rest[..|rest| - |next|])
  {
    GapsSkipped(gap, after);
    var rest, next := gap + after, SkipGap(after);
    if ';' in gap {
      var i :| 0 <= i < |gap| && gap[i] == ';';
      assert rest[..|rest| - |next|][i] == ';';
    }
  }

  lemma BracedRead(value: string, gap: string, after: string)
    requires AllGaps(gap) && (';' in gap || after == "")
    ensures ValueHere(['{'] + (EscapedValue(value) + (['}'] + (gap + after)))) == Ok((value, gap + after))
  {
    hide ScanBraced, EscapedValue;
    var s := ['{'] + (EscapedValue(value) + (['}'] + (gap + after)));
    assert s[1..] == EscapedValue(value) + (['}'] + (gap + after));
    assert gap != "" ==> IsGap((gap + after)[0]);
    ValueRead(value, "", gap + after);
    assert "" + value == value;
  }

  lemma PlainRead(value: string, spaces: string, rest: string)
    requires IsPlain(value) && AllSpaces(spaces) && (rest == "" || rest[0] == ';')
    requires value == "" ==> spaces == ""
    ensures SkipSpaces(value + (spaces + rest)) == value + (spaces + rest)
    ensures ValueHere(value + (spaces + rest)) == Ok((value, rest))
  {
    hide ScanPlain, TrimRight;
    var text := value + spaces;
    assert value + (spaces + rest) == text + rest;
    assert ';' !in text by {
      assert forall i :: 0 <= i < |spaces| ==> IsSpace(spaces[i]);
    }
    PlainScanned(text, "", rest);
    assert "" + text == text;
    SpacesTrimmed(value, spaces);
  }

  lemma ValueExtracted(e: Entry, after: string)
    requires FineEntry(e) && (';' in e.behind || after == "")
    ensures ExtractValue(e.space + (ValueText(e) + (e.behind + after))) == Ok((e.pair.value, SkipGap(after)))
  {
    hide ValueHere, SkipSpaces, SkipGap, EscapedValue, IsKey, IsPlain;
    Behind(e.behind, after);
    if e.braced {
      var s := ['{'] + (EscapedValue(e.pair.value) + (['}'] + (e.behind + after)));
      assert ValueText(e) + (e.behind + after) == s;
      SpacesSkipped(e.space, s);
      BracedRead(e.pair.value, e.behind, after);
    } else {
      PlainExtracted(e, after);
    }
  }

  lemma ValueFound(s: string, value: string, rest: string)
    requires ValueHere(SkipSpaces(s)) == Ok((value, rest)) && |SkipGap(rest)| <= |rest|
    requires SkipGap(rest) == "" || ';' in rest[..|rest| - |SkipGap(rest)|]
    ensures ExtractValue(s) == Ok((value, SkipGap(rest)))
  {
    hide ValueHere, SkipSpaces, SkipGap;
  }

  lemma PlainExtracted(e: Entry, after: string)
    requires FineEntry(e) && !e.braced && (';' in e.behind || after == "")
    ensures ExtractValue(e.space + (ValueText(e) + (e.behind + after))) == Ok((e.pair.value, SkipGap(after)))
  {
    hide SkipGap, IsKey, IsPlain, ExtractValue, AllGaps, AllSpaces;
    var spaces, tail := GapSplit(e.behind);
    SemicolonInTail(spaces, tail);
    Regroup(e.space, e.pair.value, spaces, tail, after);
    PlainFound(e.space, e.pair.value, spaces, tail, after);
  }

  lemma Regroup(space: string, value: string, spaces: string, tail: string, after: string)
    ensures space + (value + (spaces + tail + after)) == space + (value + (spaces + (tail + after)))
  {
    assert spaces + tail + after == spaces + (tail + after);
  }

  lemma PlainFound(space: string, value: string, spaces: string, tail: string, after: string)
    requires IsPlain(value) && AllSpaces(space) && AllSpaces(spaces) && AllGaps(tail)
    requires (tail == "" || tail[0] == ';') && (';' in tail || after == "")
    ensures ExtractValue(space + (value + (spaces + (tail + after)))) == Ok((value, SkipGap(after)))
  {
    hide ValueHere, SkipSpaces, SkipGap, IsPlain, ExtractValue, AllGaps, AllSpaces;
    Behind(tail, after);
    PlainSkipped(space, value, spaces, tail + after);
    ValueFound(space + (value + (spaces + (tail + after))), value, tail + after);
  }

  lemma PlainSkipped(space: string, value: string, spaces: string, rest: string)
    requires IsPlain(value) && AllSpaces(space) && AllSpaces(spaces) && (rest == "" || rest[0] == ';')
    ensures ValueHere(SkipSpaces(space + (value + (spaces + rest)))) == Ok((value, rest))
  {
    hide ValueHere, SkipSpaces, IsPlain;
    if value == "" {
      EmptyExtracted(space, spaces, rest);
      assert space + ("" + (spaces + rest)) == (space + spaces) + rest;
    } else {
      FirstOfPlain(value);
      SpacesSkipped(space, value + (spaces + rest));
      PlainRead(value, spaces, rest);
    }
  }

  lemma SemicolonInTail(spaces: string, tail: string)
    requires AllSpaces(spaces)
    ensures ';' in spaces + tail ==> ';' in tail
  {
    assert forall i :: 0 <= i < |spaces| ==> IsSpace(spaces[i]);
  }

  lemma EmptyExtracted(space: string, spaces: string, rest: string)
    requires AllSpaces(space) && AllSpaces(spaces) && (rest == "" || rest[0] == ';')
    ensures ValueHere(SkipSpaces((space + spaces) + rest)) == Ok(("", rest))
  {
    hide ValueHere, SkipSpaces;
    EmptyValue();
    SpacesSkipped(space + spaces, rest);
    PlainRead("", "", rest);
    assert "" + ("" + rest) == rest;
  }

  lemma EmptyValue()
    ensures IsPlain("")
  {
  }

  lemma FirstOfPlain(value: string)
    requires IsPlain(value) && value != ""
    ensures !IsSpace(value[0])
  {
  }

  lemma KeyExtracted(e: Entry, after: string)
    requires FineEntry(e) && (';' in e.behind || after == "")
    ensures var s := EntryText(e) + after;
            && SkipGap(s) != ""
            && ExtractKey(s) == Ok((e.pair.key, e.space + (ValueText(e) + (e.behind + after))))
            && ExtractKey(SkipGap(s)) == ExtractKey(s)
  {
    hide ScanKey, SkipGap, EscapedKey, EscapedValue, TrimRight, IsKey, IsPlain;
    var rest := e.space + (ValueText(e) + (e.behind + after));
    var s := EscapedKey(e.pair.key) + (e.gap + (['='] + rest));
    assert EntryText(e) + after == e.lead + s;
    KeyHead(e.pair.key);
    NoGap(s);
    GapsSkipped(e.lead, s);
    RestOf(e, after);
    KeyParts(e.pair.key);
    KeyAndGap(e.pair.key, e.gap, "", rest);
    assert "" + (e.pair.key + e.gap) == e.pair.key + e.gap;
    SpacesTrimmed(e.pair.key, e.gap);
  }

  lemma KeyParts(key: string)
    requires IsKey(key)
    ensures ';' !in key && key != "" && !IsSpace(key[|key| - 1])
  {
  }

  lemma RestOf(e: Entry, after: string)
    requires FineEntry(e) && (';' in e.behind || after == "")
    ensures var rest := e.space + (ValueText(e) + (e.behind + after)); rest == "" || rest[0] != '='
  {
    hide IsKey, EscapedValue;
    if e.space != "" {
      assert IsSpace(e.space[0]);
    } else if !e.braced && e.pair.value == "" && e.behind != "" {
      assert IsGap(e.behind[0]);
    }
  }

  lemma {:induction false} GapTwice(s: string)
    ensures SkipGap(SkipGap(s)) == SkipGap(s)
  {
    NoGap(SkipGap(s));
  }

  lemma ParseRound(s: string, fields: Fields, fold: string -> string)
    ensures Parse(SkipGap(s), fields, fold) == Parse(s, fields, fold)
    ensures SkipGap(s) != "" && ExtractKey(SkipGap(s)).Ok? && ExtractValue(ExtractKey(SkipGap(s)).value.1).Ok? ==>
              var (key, rest) := ExtractKey(SkipGap(s)).value; var (value, next) := ExtractValue(rest).value;
              Parse(s, fields, fold) == Parse(next, Insert(fields, key, value, fold), fold)
  {
    hide SkipGap, ExtractKey, ExtractValue, Insert;
    GapTwice(s);
  }

  function Pairs(entries: seq<Entry>): seq<Field> {
    if entries == [] then [] else [entries[0].pair] + Pairs(entries[1..])
  }

  lemma EntryRead(e: Entry, after: string, fields: Fields, fold: string -> string)
    requires FineEntry(e) && (';' in e.behind || after == "")
    ensures Parse(EntryText(e) + after, fields, fold)
            == Parse(after, Insert(fields, e.pair.key, e.pair.value, fold), fold)
  {
    hide SkipGap, ExtractKey, ExtractValue, Insert, Parse, FineEntry, EntryText, ValueText;
    KeyExtracted(e, after);
    ValueExtracted(e, after);
    ParseRound(EntryText(e) + after, fields, fold);
    ParseRound(after, Insert(fields, e.pair.key, e.pair.value, fold), fold);
  }

  /** However the pairs are written, they are inserted one by one, in their order, and reading goes on behind them. */
  lemma {:induction false} WrittenRead(entries: seq<Entry>, after: string, fields: Fields, fold: string -> string)
    requires FineEntries(entries) && (entries != [] && after != "" ==> ';' in entries[|entries| - 1].behind)
    ensures Parse(Written(entries) + after, fields, fold) == Parse(after, InsertAll(fields, Pairs(entries), fold), fold)
    decreases |entries|
  {
    hide Insert, Parse, FineEntry, EntryText;
    if entries == [] {
      assert Written(entries) + after == after;
    } else {
      var e, more := entries[0], Written(entries[1..]) + after;
      assert Written(entries) + after == EntryText(e) + more;
      assert |entries| == 1 ==> Written(entries[1..]) + after == after;
      EntryRead(e, more, fields, fold);
      WrittenRead(entries[1..], after, Insert(fields, e.pair.key, e.pair.value, fold), fold);
      assert Pairs(entries)[1..] == Pairs(entries[1..]);
    }
  }

  lemma NothingWritten(fields: Fields, fold: string -> string)
    ensures Parse("", fields, fold) == Ok(fields)
  {
  }

  /** Reading a connection string gives exactly its pairs: values in braces as they are, values without braces up to
      their semicolon and without the blanks around them. */
  lemma FormsRead(entries: seq<Entry>, fold: string -> string)
    requires FineEntries(entries) && fold("DSN") != fold("FileDSN") && fold("DSN") != fold("Driver")
    requires NoRivals(Pairs(entries), fold)
    ensures var r := ReadFields(Written(entries), fold); r.Ok? && Holds(r.value, Pairs(entries), fold)
  {
    hide Parse, Written, InsertAll, NoRivals, Holds, FineEntries;
    assert Written(entries) + "" == Written(entries);
    WrittenRead(entries, "", map[], fold);
    NothingWritten(InsertAll(map[], Pairs(entries), fold), fold);
    NothingHeld(fold);
    assert [] + Pairs(entries) == Pairs(entries);
    AllInserted([], map[], Pairs(entries), fold);
  }

  /** Behind such pairs: which of two rivals is used. A key counts once; DSN on the one side, and FILEDSN and DRIVER on
      the other, exclude each other; FILEDSN and DRIVER do not. */
  lemma RivalsExactly(fields: Fields, pair: Field, fold: string -> string)
    requires IsKey(pair.key)
    ensures var dsn := fold(pair.key) == fold("DSN");
            var other := fold(pair.key) == fold("FileDSN") || fold(pair.key) == fold("Driver");
            Parse(Print([pair]), fields, fold) == Ok(
              if fold(pair.key) in fields then fields
              else if dsn && (fold("FileDSN") in fields || fold("Driver") in fields) then fields
              else if other && fold("DSN") in fields then fields
              else fields[fold(pair.key) := pair])
  {
    PrintedRead([pair], fields, fold);
  }

  // -------- errors

  lemma {:induction false} KeyAlone(key: string, acc: string, after: string)
    requires ';' !in key && '=' !in key && (after == "" || after[0] == ';')
    ensures ScanKey(key + after, acc) == (acc + key, false, after)
    decreases |key|
  {
    if key == "" {
      assert key + after == after && acc + key == acc;
    } else {
      assert (key + after)[1..] == key[1..] + after && key[0] in key;
      KeyAlone(key[1..], acc + [key[0]], after);
      assert acc + [key[0]] + key[1..] == acc + key;
    }
  }

  lemma {:induction false} NeverClosed(value: string, acc: string)
    ensures ScanBraced(EscapedValue(value), acc) == None
    decreases |value|
  {
    if value != "" {
      var head := if value[0] == '}' then "}}" else [value[0]];
      assert EscapedValue(value)[|head|..] == EscapedValue(value[1..]);
      NeverClosed(value[1..], acc + [value[0]]);
    }
  }

  /** A key without '=' up to the semicolon or the end. */
  lemma EqualsMissingRead(key: string, after: string, fields: Fields, fold: string -> string)
    requires IsKey(key) && '=' !in key && (after == "" || after[0] == ';')
    ensures Parse(key + after, fields, fold) == Err(EqualsMissing)
  {
    hide ScanKey, SkipGap, TrimRight;
    KeyAlone(key, "", after);
    assert "" + key == key && (key + after)[0] == key[0] && key[0] in key;
    NoGap(key + after);
    SpacesTrimmed(key, "");
    assert key + "" == key;
  }

  /** A '=' without a key. */
  lemma KeyMissingRead(after: string, fields: Fields, fold: string -> string)
    requires after == "" || after[0] != '='
    ensures Parse(['='] + after, fields, fold) == Err(KeyMissing)
  {
    hide SkipGap;
    NoGap(['='] + after);
    var s := ['='] + after;
    assert s[1..] == after && ScanKey(s, "") == ("", true, after) && TrimRight("") == "";
  }

  lemma ErrorParsed(key: string, rest: string, error: Error, fields: Fields, fold: string -> string)
    requires IsKey(key) && (rest == "" || rest[0] != '=') && ExtractValue(rest) == Err(error)
    ensures Parse(EscapedKey(key) + (['='] + rest), fields, fold) == Err(error)
  {
    hide SkipGap, ScanKey, EscapedKey, TrimRight, IsKey, ExtractValue;
    var s := EscapedKey(key) + (['='] + rest);
    KeyHead(key);
    KeyParts(key);
    NoGap(s);
    KeyRead(key, "", rest);
    assert "" + key == key;
  }

  lemma Unclosed(value: string)
    ensures ExtractValue(['{'] + EscapedValue(value)) == Err(BraceExpected)
  {
    hide EscapedValue, ScanBraced;
    NeverClosed(value, "");
    assert (['{'] + EscapedValue(value))[1..] == EscapedValue(value);
  }

  lemma JoinedValue(value: string, space: string, c: char, after: string)
    requires AllSpaces(space) && !IsGap(c) && c != '}'
    ensures ExtractValue(['{'] + (EscapedValue(value) + (['}'] + (space + ([c] + after))))) == Err(SemicolonExpected)
  {
    hide EscapedValue, ScanBraced, SkipGap, ValueHere;
    var behind := space + ([c] + after);
    JoinedBehind(space, c, after);
    BracedHere(value, behind);
  }

  lemma BracedHere(value: string, behind: string)
    requires behind == "" || behind[0] != '}'
    ensures var s := ['{'] + (EscapedValue(value) + (['}'] + behind));
            SkipSpaces(s) == s && ValueHere(s) == Ok((value, behind))
  {
    hide EscapedValue, ScanBraced;
    var s := ['{'] + (EscapedValue(value) + (['}'] + behind));
    assert s[1..] == EscapedValue(value) + (['}'] + behind);
    ValueRead(value, "", behind);
    assert "" + value == value;
  }

  lemma JoinedBehind(space: string, c: char, after: string)
    requires AllSpaces(space) && !IsGap(c) && c != '}'
    ensures var behind := space + ([c] + after);
            && behind[0] != '}' && SkipGap(behind) == [c] + after && ';' !in behind[..|behind| - |[c] + after|]
  {
    hide SkipGap;
    var behind := space + ([c] + after);
    assert forall i :: 0 <= i < |space| ==> IsSpace(space[i]);
    assert space != "" ==> behind[0] == space[0];
    GapsSkipped(space, [c] + after);
    NoGap([c] + after);
    assert behind[..|space|] == space;
  }

  /** A value whose braces are not closed, and one with something behind its braces. */
  lemma BracesRead(pair: Field, space: string, c: char, after: string, fields: Fields, fold: string -> string)
    requires IsKey(pair.key) && AllSpaces(space) && !IsGap(c) && c != '}'
    ensures Parse(EscapedKey(pair.key) + (['='] + (['{'] + EscapedValue(pair.value))), fields, fold)
            == Err(BraceExpected)
    ensures Parse(EscapedKey(pair.key)
                  + (['='] + (['{'] + (EscapedValue(pair.value) + (['}'] + (space + ([c] + after)))))), fields, fold)
            == Err(SemicolonExpected)
  {
    hide Parse, EscapedKey, EscapedValue, IsKey, ExtractValue, IsGap;
    Unclosed(pair.value);
    JoinedValue(pair.value, space, c, after);
    var joined := ['{'] + (EscapedValue(pair.value) + (['}'] + (space + ([c] + after))));
    ErrorParsed(pair.key, ['{'] + EscapedValue(pair.value), BraceExpected, fields, fold);
    ErrorParsed(pair.key, joined, SemicolonExpected, fields, fold);
  }
}
