/** The parser of connection strings, and the printer of SQLConnect. */
module ConnectionStrings {
  import opened Text

  datatype Error = KeyMissing | EqualsMissing | BraceExpected | SemicolonExpected

  datatype Result<+T> = Ok(value: T) | Err(error: Error)

  datatype Field = Field(key: string, value: string)

  /** The map from keys to values. Keys are compared by `fold`, whatever it does to letters. */
  type Fields = map<string, Field>

  // -------- the parts of a string

  /** isspace, or a semicolon. */
  predicate IsGap(c: char) { IsSpace(c) || c == ';' }

  function SkipSpaces(s: string): (r: string)
    ensures |r| <= |s|
  {
    if s != "" && IsSpace(s[0]) then SkipSpaces(s[1..]) else s
  }

  function SkipGap(s: string): (r: string)
    ensures |r| <= |s| && r == s[|s| - |r|..] && (r != "" ==> !IsGap(r[0]))
    ensures forall i :: 0 <= i < |s| - |r| ==> IsGap(s[i])
  {
    if s != "" && IsGap(s[0]) then SkipGap(s[1..]) else s
  }

  function TrimRight(s: string): (r: string)
    ensures r <= s
  {
    if s != "" && IsSpace(s[|s| - 1]) then TrimRight(s[..|s| - 1]) else s
  }

  /** A key up to its '=', which is written '==' inside it: the key, whether the '=' was met, and the rest. */
  function ScanKey(s: string, key: string): (r: (string, bool, string))
    ensures |r.2| <= |s| && (r.1 ==> |r.2| < |s|)
  {
    if s == "" || s[0] == ';' then (key, false, s)
    else if s[0] != '=' then ScanKey(s[1..], key + [s[0]])
    else if |s| > 1 && s[1] == '=' then ScanKey(s[2..], key + "=")
    else (key, true, s[1..])
  }

  function ExtractKey(s: string): (r: Result<(string, string)>)
    ensures r.Ok? ==> |r.value.1| < |s|
  {
    var (key, met, rest) := ScanKey(SkipGap(s), "");
    if TrimRight(key) == "" then Err(KeyMissing)
    else if !met then Err(EqualsMissing)
    else Ok((TrimRight(key), rest))
  }

  /** A value in braces behind its opening brace; None when it is not closed. */
  function ScanBraced(s: string, value: string): (r: Option<(string, string)>)
    ensures r.Some? ==> |r.value.1| <= |s|
  {
    if s == "" then None
    else if s[0] != '}' then ScanBraced(s[1..], value + [s[0]])
    else if |s| > 1 && s[1] == '}' then ScanBraced(s[2..], value + "}")
    else Some((value, s[1..]))
  }

  function ScanPlain(s: string, value: string): (r: (string, string))
    ensures |r.1| <= |s|
  {
    if s == "" || s[0] == ';' then (value, s) else ScanPlain(s[1..], value + [s[0]])
  }

  function ValueHere(s: string): (r: Result<(string, string)>)
    ensures r.Ok? ==> |r.value.1| <= |s|
  {
    if s != "" && s[0] == '{' then
      match ScanBraced(s[1..], "")
      case None => Err(BraceExpected)
      case Some(r) => Ok(r)
    else
      var (value, rest) := ScanPlain(s, "");
      Ok((TrimRight(value), rest))
  }

  function ExtractValue(s: string): (r: Result<(string, string)>)
    ensures r.Ok? ==> |r.value.1| <= |s|
  {
    match ValueHere(SkipSpaces(s))
    case Err(error) => Err(error)
    case Ok((value, rest)) =>
      var next := SkipGap(rest);
      if ';' !in rest[..|rest| - |next|] && next != "" then Err(SemicolonExpected) else Ok((value, next))
  }

  // -------- the fields

  /** A key that loses against one that is there already: itself, or its rival among DSN, FILEDSN and DRIVER. */
  predicate Loses(fields: Fields, key: string, fold: string -> string) {
    var k := fold(key);
    || k in fields
    || (k == fold("DSN") && fold("FileDSN") in fields)
    || (k == fold("FileDSN") && fold("DSN") in fields)
    || (k == fold("DSN") && fold("Driver") in fields)
    || (k == fold("Driver") && fold("DSN") in fields)
  }

  function Insert(fields: Fields, key: string, value: string, fold: string -> string): Fields {
    if Loses(fields, key, fold) then fields else fields[fold(key) := Field(key, value)]
  }

  function Parse(s: string, fields: Fields, fold: string -> string): Result<Fields>
    decreases |s|
  {
    var cs := SkipGap(s);
    if cs == "" then Ok(fields)
    else
      match ExtractKey(cs)
      case Err(error) => Err(error)
      case Ok((key, rest)) =>
        match ExtractValue(rest)
        case Err(error) => Err(error)
        case Ok((value, next)) => Parse(next, Insert(fields, key, value, fold), fold)
  }

  /** readConnectionString */
  function ReadFields(s: string, fold: string -> string): Result<Fields> { Parse(s, map[], fold) }

  // -------- the loops

  method ConsumeSpace(str: string) returns (rest: string, num: nat)
    ensures num <= |str| && rest == str[num..] && (rest != "" ==> !IsSpace(rest[0]))
    ensures forall i :: 0 <= i < num ==> IsSpace(str[i])
    ensures rest == SkipSpaces(str)
  {
    num := 0;
    while num < |str| && IsSpace(str[num])
      invariant num <= |str| && SkipSpaces(str) == SkipSpaces(str[num..])
      invariant forall i :: 0 <= i < num ==> IsSpace(str[i])
    {
      assert str[num..][1..] == str[num + 1..];
      num := num + 1;
    }
    rest := str[num..];
  }

  method ConsumeSemicolons(str: string) returns (rest: string, num: nat)
    ensures num <= |str| && rest == str[num..] && (rest != "" ==> rest[0] != ';')
    ensures forall i :: 0 <= i < num ==> str[i] == ';'
  {
    num := 0;
    while num < |str| && str[num] == ';'
      invariant num <= |str| && forall i :: 0 <= i < num ==> str[i] == ';'
    {
      num := num + 1;
    }
    rest := str[num..];
  }

  lemma {:induction false} GapBehind(s: string, n: nat)
    requires n <= |s| && forall i :: 0 <= i < n ==> IsGap(s[i])
    ensures SkipGap(s) == SkipGap(s[n..])
  {
    if n == 0 {
      assert s[0..] == s;
    } else {
      GapBehind(s[1..], n - 1);
      assert s[1..][n - 1..] == s[n..];
    }
  }

  /** while (consume_space(str) || consume_semi_colons(str)); */
  method ConsumeGap(str: string) returns (rest: string)
    ensures rest == SkipGap(str)
  {
    hide SkipGap;
    rest := str;
    var consumed := true;
    while consumed
      invariant SkipGap(rest) == SkipGap(str) && (!consumed ==> rest == "" || !IsGap(rest[0]))
      decreases |rest|, consumed
    {
      ghost var before := rest;
      var num: nat;
      rest, num := ConsumeSpace(rest);
      if num == 0 {
        rest, num := ConsumeSemicolons(rest);
      }
      GapBehind(before, num);
      consumed := num > 0;
    }
    NoGap(rest);
  }

  lemma NoGap(s: string)
    requires s == "" || !IsGap(s[0])
    ensures SkipGap(s) == s
  {
  }

  method ExtractKeyName(str: string) returns (r: Result<(string, string)>)
    ensures r == ExtractKey(str)
  {
    hide SkipGap;
    var rest := ConsumeGap(str);
    ghost var start := rest;
    var key, equalMet := "", false;
    while rest != "" && !equalMet && rest[0] != ';'
      invariant ScanKey(start, "") == if equalMet then (key, true, rest) else ScanKey(rest, key)
      decreases |rest|, !equalMet
    {
      if rest[0] == '=' {
        if |rest| > 1 && rest[1] == '=' {
          key := key + "=";
          rest := rest[2..];
        } else {
          rest := rest[1..];
          equalMet := true;
        }
      } else {
        key := key + [rest[0]];
        rest := rest[1..];
      }
    }
    key := PopSpaces(key);
    if key == "" {
      return Err(KeyMissing);
    }
    if !equalMet {
      return Err(EqualsMissing);
    }
    return Ok((key, rest));
  }

  method PopSpaces(s: string) returns (r: string)
    ensures r == TrimRight(s)
  {
    r := s;
    while r != "" && IsSpace(r[|r| - 1])
      invariant TrimRight(r) == TrimRight(s)
      decreases |r|
    {
      r := r[..|r| - 1];
    }
  }

  method ExtractKeyValue(str: string) returns (r: Result<(string, string)>)
    ensures r == ExtractValue(str)
  {
    hide SkipGap, SkipSpaces, ScanBraced, ScanPlain;
    var rest, num := ConsumeSpace(str);
    var value := "";
    if rest != "" && rest[0] == '{' {
      var braced := BracedValue(rest[1..]);
      if braced.None? {
        return Err(BraceExpected);
      }
      value, rest := braced.value.0, braced.value.1;
    } else {
      value, rest := PlainValue(rest);
      value := PopSpaces(value);
    }
    var next, semicolons := ConsumeSeparators(rest);
    if semicolons == 0 && next != "" {
      return Err(SemicolonExpected);
    }
    return Ok((value, next));
  }

  method BracedValue(str: string) returns (r: Option<(string, string)>)
    ensures r == ScanBraced(str, "")
  {
    var rest, value := str, "";
    while rest != ""
      invariant ScanBraced(str, "") == ScanBraced(rest, value)
      decreases |rest|
    {
      if rest[0] != '}' {
        value := value + [rest[0]];
        rest := rest[1..];
      } else if |rest| > 1 && rest[1] == '}' {
        value := value + "}";
        rest := rest[2..];
      } else {
        return Some((value, rest[1..]));
      }
    }
    return None;
  }

  method PlainValue(str: string) returns (value: string, rest: string)
    ensures (value, rest) == ScanPlain(str, "")
  {
    rest, value := str, "";
    while rest != "" && rest[0] != ';'
      invariant ScanPlain(str, "") == ScanPlain(rest, value)
      decreases |rest|
    {
      value := value + [rest[0]];
      rest := rest[1..];
    }
  }

  /** `rest` is what is left of `str`, and there were semicolons in front of it or not. */
  ghost predicate Consumed(str: string, rest: string, semicolons: nat) {
    && |rest| <= |str| && rest == str[|str| - |rest|..] && (semicolons > 0 <==> ';' in str[..|str| - |rest|])
    && SkipGap(rest) == SkipGap(str)
  }

  /** The loop behind a value: what it skips, and how many semicolons were among it. */
  method ConsumeSeparators(str: string) returns (rest: string, semicolons: nat)
    ensures rest == SkipGap(str)
    ensures semicolons > 0 <==> ';' in str[..|str| - |rest|]
  {
    hide SkipGap, SkipSpaces;
    rest, semicolons := str, 0;
    assert str[0..] == str && str[..0] == "";
    var consumed := true;
    while consumed
      invariant Consumed(str, rest, semicolons) && (!consumed ==> rest == "" || !IsGap(rest[0]))
      decreases |rest|, consumed
    {
      var more, spaces;
      rest, more, spaces := ConsumeBoth(str, rest, semicolons);
      semicolons := semicolons + more;
      consumed := more + spaces > 0;
    }
    NoGap(rest);
  }

  method ConsumeBoth(str: string, before: string, ghost semicolons: nat) returns (rest: string, num: nat, spaces: nat)
    requires Consumed(str, before, semicolons)
    ensures Consumed(str, rest, semicolons + num) && |rest| == |before| - num - spaces
    ensures num + spaces == 0 ==> rest == "" || !IsGap(rest[0])
  {
    hide Consumed, SkipSpaces;
    rest, num := ConsumeSemicolons(before);
    rest, spaces := ConsumeSpace(rest);
    Skipped(str, before, semicolons, num, spaces);
  }

  /** `num` semicolons and `spaces` spaces are skipped at `rest`, which ends `str`. */
  lemma Skipped(str: string, rest: string, semicolons: nat, num: nat, spaces: nat)
    requires Consumed(str, rest, semicolons) && num + spaces <= |rest|
    requires forall i :: 0 <= i < num ==> rest[i] == ';'
    requires forall i :: 0 <= i < spaces ==> IsSpace(rest[num..][i])
    ensures Consumed(str, rest[num..][spaces..], semicolons + num)
  {
    hide SkipGap;
    GapBehind(rest, num);
    GapBehind(rest[num..], spaces);
    var at := |str| - |rest|;
    var next := rest[num..][spaces..];
    assert next == str[at + num + spaces..];
    SemicolonsIn(str, at, num, spaces);
  }

  lemma SemicolonsIn(str: string, at: nat, num: nat, spaces: nat)
    requires at + num + spaces <= |str|
    requires forall i :: at <= i < at + num ==> str[i] == ';'
    requires forall i :: at + num <= i < at + num + spaces ==> IsSpace(str[i])
    ensures ';' in str[..at + num + spaces] <==> num > 0 || ';' in str[..at]
  {
    var skipped := str[..at + num + spaces];
    assert num > 0 ==> skipped[at] == ';';
    assert forall i :: 0 <= i < at ==> skipped[i] == str[..at][i];
    if ';' in str[..at] {
      var k :| 0 <= k < at && str[..at][k] == ';';
      assert skipped[k] == ';';
    }
  }

  method ReadConnectionString(connectionString: string, fold: string -> string) returns (r: Result<Fields>)
    ensures r == ReadFields(connectionString, fold)
  {
    hide SkipGap, ExtractKey, ExtractValue, Insert;
    var fields: Fields, cs := map[], connectionString;
    while true
      invariant Parse(cs, fields, fold) == ReadFields(connectionString, fold)
      decreases |cs|
    {
      ghost var before := cs;
      cs := ConsumeGap(cs);
      if cs == "" {
        return Ok(fields);
      }
      var key := ExtractKeyName(cs);
      if key.Err? {
        return Err(key.error);
      }
      var value := ExtractKeyValue(key.value.1);
      if value.Err? {
        return Err(value.error);
      }
      cs := value.value.1;
      fields := Insert(fields, key.value.0, value.value.0, fold);
    }
  }

  // -------- printing

  function EscapedKey(key: string): string {
    if key == "" then "" else (if key[0] == '=' then "==" else [key[0]]) + EscapedKey(key[1..])
  }

  function EscapedValue(value: string): string {
    if value == "" then "" else (if value[0] == '}' then "}}" else [value[0]]) + EscapedValue(value[1..])
  }

  /** append_value */
  method AppendValue(connectionString: string, value: string) returns (r: string)
    ensures r == connectionString + ("{" + EscapedValue(value) + "};")
  {
    r := connectionString + "{";
    for i := 0 to |value|
      invariant r + EscapedValue(value[i..]) == connectionString + "{" + EscapedValue(value)
    {
      assert value[i..][1..] == value[i + 1..];
      r := r + [value[i]];
      if value[i] == '}' {
        r := r + "}";
      }
    }
    assert value[|value|..] == "" && r + "" == r;
    r := r + "};";
    assert r == connectionString + ("{" + EscapedValue(value) + "};");
  }

  function PrintPair(pair: Field): string { EscapedKey(pair.key) + ("={" + EscapedValue(pair.value) + "};") }

  function Print(pairs: seq<Field>): string {
    if pairs == [] then "" else PrintPair(pairs[0]) + Print(pairs[1..])
  }

  /** A key that can be written: not empty, without semicolons, and without spaces at its ends. */
  predicate IsKey(key: string) {
    key != "" && ';' !in key && !IsSpace(key[0]) && !IsSpace(key[|key| - 1])
  }

  function InsertAll(fields: Fields, pairs: seq<Field>, fold: string -> string): Fields
    decreases |pairs|
  {
    if pairs == [] then fields else InsertAll(Insert(fields, pairs[0].key, pairs[0].value, fold), pairs[1..], fold)
  }

  lemma {:induction false} KeyRead(key: string, acc: string, after: string)
    requires ';' !in key && (after == "" || after[0] != '=')
    ensures ScanKey(EscapedKey(key) + (['='] + after), acc) == (acc + key, true, after)
    decreases |key|
  {
    var s := EscapedKey(key) + (['='] + after);
    if key == "" {
      assert s == ['='] + after && s[1..] == after && acc + key == acc;
    } else {
      var more := EscapedKey(key[1..]) + (['='] + after);
      var head := if key[0] == '=' then "==" else [key[0]];
      assert s == head + more;
      assert s[|head|..] == more;
      KeyRead(key[1..], acc + [key[0]], after);
      assert acc + [key[0]] + key[1..] == acc + key;
      assert key[0] in key;
    }
  }

  lemma {:induction false} ValueRead(value: string, acc: string, after: string)
    requires after == "" || after[0] != '}'
    ensures ScanBraced(EscapedValue(value) + (['}'] + after), acc) == Some((acc + value, after))
    decreases |value|
  {
    var s := EscapedValue(value) + (['}'] + after);
    if value == "" {
      assert s == ['}'] + after && s[1..] == after && acc + value == acc;
    } else {
      var more := EscapedValue(value[1..]) + (['}'] + after);
      var head := if value[0] == '}' then "}}" else [value[0]];
      assert s == head + more;
      assert s[|head|..] == more;
      ValueRead(value[1..], acc + [value[0]], after);
      assert acc + [value[0]] + value[1..] == acc + value;
    }
  }

  lemma KeyHead(key: string)
    requires IsKey(key)
    ensures EscapedKey(key) != "" && !IsGap(EscapedKey(key)[0]) && TrimRight(key) == key
  {
    assert key[0] in key;
  }

  lemma PrintedHead(pairs: seq<Field>)
    requires forall i :: 0 <= i < |pairs| ==> IsKey(pairs[i].key)
    ensures Print(pairs) == "" || !IsGap(Print(pairs)[0])
  {
    if pairs != [] {
      KeyHead(pairs[0].key);
    }
  }

  /** A printed pair is read back, and what follows it is left. */
  lemma PairRead(pair: Field, after: string)
    requires IsKey(pair.key) && (after == "" || !IsGap(after[0]))
    ensures var s := PrintPair(pair) + after;
            && s != "" && SkipGap(s) == s
            && ExtractKey(s).Ok? && ExtractKey(s).value.0 == pair.key
            && ExtractValue(ExtractKey(s).value.1) == Ok((pair.value, after))
  {
    hide SkipGap, ScanKey, ScanBraced, EscapedKey, EscapedValue, TrimRight, IsKey, IsGap;
    var tail := ['{'] + (EscapedValue(pair.value) + (['}'] + ([';'] + after)));
    var s := PrintPair(pair) + after;
    assert s == EscapedKey(pair.key) + (['='] + tail);
    KeyHead(pair.key);
    NoGap(s);
    NoSemicolon(pair.key);
    KeyRead(pair.key, "", tail);
    assert "" + pair.key == pair.key && "" + pair.value == pair.value;
    ValueRead(pair.value, "", [';'] + after);
    assert tail[1..] == EscapedValue(pair.value) + (['}'] + ([';'] + after));
    SemicolonBehind(after);
  }

  lemma NoSemicolon(key: string)
    requires IsKey(key)
    ensures ';' !in key && key != ""
  {
  }

  lemma SemicolonBehind(after: string)
    requires after == "" || !IsGap(after[0])
    ensures SkipGap([';'] + after) == after && ';' in ([';'] + after)[..1]
  {
    assert ([';'] + after)[1..] == after;
    assert ([';'] + after)[..1] == [';'];
    NoGap(after);
  }

  /** Printed pairs are inserted one by one, in their order. */
  lemma {:induction false} PrintedRead(pairs: seq<Field>, fields: Fields, fold: string -> string)
    requires forall i :: 0 <= i < |pairs| ==> IsKey(pairs[i].key)
    ensures Parse(Print(pairs), fields, fold) == Ok(InsertAll(fields, pairs, fold))
    decreases |pairs|
  {
    hide SkipGap, ExtractKey, ExtractValue, Insert, PrintPair, IsKey;
    if pairs == [] {
      NoGap("");
    } else {
      PrintedHead(pairs[1..]);
      PairRead(pairs[0], Print(pairs[1..]));
      PrintedRead(pairs[1..], Insert(fields, pairs[0].key, pairs[0].value, fold), fold);
    }
  }

  /** No key is met twice, and DSN stands neither beside FILEDSN nor beside DRIVER. */
  ghost predicate NoRivals(pairs: seq<Field>, fold: string -> string) {
    && (forall i, j :: 0 <= i < j < |pairs| ==> fold(pairs[i].key) != fold(pairs[j].key))
    && (forall i, j :: 0 <= i < |pairs| && 0 <= j < |pairs| && fold(pairs[i].key) == fold("DSN") ==>
          i == j || (fold(pairs[j].key) != fold("FileDSN") && fold(pairs[j].key) != fold("Driver")))
  }

  ghost predicate Holds(fields: Fields, pairs: seq<Field>, fold: string -> string) {
    && (forall i :: 0 <= i < |pairs| ==> fold(pairs[i].key) in fields && fields[fold(pairs[i].key)] == pairs[i])
    && (forall k :: k in fields ==> exists i :: 0 <= i < |pairs| && fold(pairs[i].key) == k)
  }

  lemma {:induction false} AllInserted(before: seq<Field>, fields: Fields, pairs: seq<Field>, fold: string -> string)
    requires Holds(fields, before, fold) && NoRivals(before + pairs, fold)
    requires fold("DSN") != fold("FileDSN") && fold("DSN") != fold("Driver")
    ensures Holds(InsertAll(fields, pairs, fold), before + pairs, fold)
    decreases |pairs|
  {
    if pairs == [] {
      assert before + pairs == before;
    } else {
      var pair := pairs[0];
      NothingLost(before, fields, pairs, fold);
      var next := Insert(fields, pair.key, pair.value, fold);
      HoldsMore(before, fields, pair, fold);
      assert before + pairs == (before + [pair]) + pairs[1..];
      AllInserted(before + [pair], next, pairs[1..], fold);
    }
  }

  lemma NothingLost(before: seq<Field>, fields: Fields, pairs: seq<Field>, fold: string -> string)
    requires Holds(fields, before, fold) && NoRivals(before + pairs, fold) && pairs != []
    requires fold("DSN") != fold("FileDSN") && fold("DSN") != fold("Driver")
    ensures !Loses(fields, pairs[0].key, fold)
  {
    var together, n := before + pairs, |before|;
    assert together[n] == pairs[0];
    assert forall i :: 0 <= i < n ==> together[i] == before[i];
  }

  lemma HoldsMore(before: seq<Field>, fields: Fields, pair: Field, fold: string -> string)
    requires Holds(fields, before, fold) && !Loses(fields, pair.key, fold)
    ensures Holds(Insert(fields, pair.key, pair.value, fold), before + [pair], fold)
  {
    var next, longer := Insert(fields, pair.key, pair.value, fold), before + [pair];
    forall k | k in next ensures exists i :: 0 <= i < |longer| && fold(longer[i].key) == k {
      if k == fold(pair.key) {
        assert longer[|before|] == pair;
      } else {
        var i :| 0 <= i < |before| && fold(before[i].key) == k;
        assert longer[i] == before[i];
      }
    }
  }

  /** Reading a printed connection string gives exactly the pairs it was printed from, whatever the values are
      and whatever letters the comparison of keys identifies. */
  lemma RoundTrip(pairs: seq<Field>, fold: string -> string)
    requires forall i :: 0 <= i < |pairs| ==> IsKey(pairs[i].key)
    requires NoRivals(pairs, fold) && fold("DSN") != fold("FileDSN") && fold("DSN") != fold("Driver")
    ensures var r := ReadFields(Print(pairs), fold); r.Ok? && Holds(r.value, pairs, fold)
  {
    hide Parse, Print, InsertAll, NoRivals, Holds, IsKey;
    PrintedRead(pairs, map[], fold);
    NothingHeld(fold);
    assert [] + pairs == pairs;
    AllInserted([], map[], pairs, fold);
  }

  lemma NothingHeld(fold: string -> string)
    ensures Holds(map[], [], fold)
  {
  }

  /** The first of two rivals is used: a later DSN loses against FILEDSN or DRIVER, and the other way round. */
  lemma FirstRivalWins(fields: Fields, pair: Field, fold: string -> string)
    requires IsKey(pair.key) && Loses(fields, pair.key, fold)
    ensures Parse(Print([pair]), fields, fold) == Ok(fields)
  {
    PrintedRead([pair], fields, fold);
  }

  // -------- SQLConnect

  function Given(key: string, value: Option<string>): seq<Field> {
    if value.Some? then [Field(key, value.value)] else []
  }

  /** One of the three parts of the string: nothing for a null pointer. */
  method AppendGiven(connectionString: string, key: string, value: Option<string>) returns (r: string)
    requires '=' !in key
    ensures r == connectionString + Print(Given(key, value))
  {
    hide EscapedValue;
    r := connectionString;
    if value.Some? {
      r := AppendValue(r + key + "=", value.value);
    }
    PrintGiven(key, value, connectionString);
  }

  lemma {:induction false} PlainKey(key: string)
    requires '=' !in key
    ensures EscapedKey(key) == key
  {
    if key != "" {
      assert key[0] in key;
      PlainKey(key[1..]);
    }
  }

  lemma PrintGiven(key: string, value: Option<string>, front: string)
    requires '=' !in key
    ensures front + Print(Given(key, value))
            == if value.Some? then front + key + "=" + ("{" + EscapedValue(value.value) + "};") else front
  {
    hide EscapedValue, EscapedKey;
    PlainKey(key);
    if value.Some? {
      var escaped := EscapedValue(value.value);
      assert [Field(key, value.value)][1..] == [];
      assert Print(Given(key, value)) == key + ("={" + escaped + "};") + "";
      assert front + (key + ("={" + escaped + "};") + "") == front + key + "=" + ("{" + escaped + "};");
    }
  }

  lemma {:induction false} PrintAppend(a: seq<Field>, b: seq<Field>)
    ensures Print(a + b) == Print(a) + Print(b)
  {
    if a == [] {
      assert a + b == b && "" + Print(b) == Print(b);
    } else {
      assert (a + b)[1..] == a[1..] + b;
      PrintAppend(a[1..], b);
      var x, y, z := PrintPair(a[0]), Print(a[1..]), Print(b);
      assert x + (y + z) == x + y + z;
    }
  }

  function ConnectPairs(server: Option<string>, user: Option<string>, password: Option<string>): seq<Field> {
    Given("DSN", server) + Given("UID", user) + Given("PWD", password)
  }

  /** The connection string that SQLConnect builds. */
  method ConnectString(server: Option<string>, user: Option<string>, password: Option<string>) returns (s: string)
    ensures s == Print(ConnectPairs(server, user, password))
  {
    hide Print, Given;
    PrintAppend(Given("DSN", server) + Given("UID", user), Given("PWD", password));
    PrintAppend(Given("DSN", server), Given("UID", user));
    s := AppendGiven("", "DSN", server);
    s := AppendGiven(s, "UID", user);
    s := AppendGiven(s, "PWD", password);
  }

  /** Whatever data source, user and password are given to SQLConnect, the string it builds is read back as
      exactly these. */
  lemma ConnectRoundTrip(server: Option<string>, user: Option<string>, password: Option<string>, fold: string -> string)
    requires fold("DSN") != fold("UID") && fold("DSN") != fold("PWD") && fold("UID") != fold("PWD")
    requires forall k :: k in {"DSN", "UID", "PWD"} ==> fold(k) != fold("FileDSN") && fold(k) != fold("Driver")
    ensures var pairs := ConnectPairs(server, user, password);
            var r := ReadFields(Print(pairs), fold); r.Ok? && Holds(r.value, pairs, fold)
  {
    hide Print, ReadFields, Holds;
    var pairs := ConnectPairs(server, user, password);
    RoundTrip(pairs, fold);
  }
}
