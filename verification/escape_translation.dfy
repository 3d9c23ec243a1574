/** The translation of ODBC escape sequences: what each procedure of the translator returns and leaves. */
module EscapeTranslation {
  import opened Text
  import opened Lexing

  /** Failed stands for an empty optional. Endless: the procedure never returns, because it keeps consuming
      the empty token at a vertical tab. */
  datatype Outcome = Done(text: string) | Failed | Endless

  datatype ArgsOutcome = Args(texts: seq<string>) | ArgsFailed | ArgsEndless

  // -------- the measure of what is left to read

  predicate Live(t: Token) { t.typ != EOS && !(t.typ == OTHER && t.literal == "") }

  function LiveCount(ts: seq<Token>): nat {
    if ts == [] then 0 else (if Live(ts[0]) then 1 else 0) + LiveCount(ts[1..])
  }

  function Size(st: State): nat { |st.rest| + LiveCount(st.queue) }

  predicate NoVT(st: State) { VT !in st.rest && forall t :: t in st.queue ==> Live(t) || t.typ == EOS }

  ghost predicate Shrinks(st: State, next: State) { Size(next) <= Size(st) && (NoVT(st) ==> NoVT(next)) }

  lemma LiveToken(s: string)
    ensures var r := Here(s);
            (Live(r.token) ==> 0 < r.next) && (s != "" && s[0] != VT ==> Live(r.token))
  {
    hide Here;
    FirstToken(s);
  }

  lemma ReadRest(st: State)
    ensures var next := st.Read().1;
            next.queue == st.queue && |next.rest| <= |st.rest| && (VT !in st.rest ==> VT !in next.rest)
  {
    hide Lex;
  }

  lemma ReadToken(st: State)
    ensures var (token, next) := st.Read();
            && (Live(token) ==> |next.rest| < |st.rest|)
            && (VT !in st.rest ==> Live(token) || token.typ == EOS)
  {
    hide Lex, Here, Skipped, Live;
    var k := Skipped(st.rest, st.emit);
    LexSkips(st.rest, st.emit);
    LiveToken(st.rest[k..]);
    assert k < |st.rest| ==> st.rest[k] in st.rest;
  }

  lemma ReadShrinks(st: State)
    ensures var (token, next) := st.Read();
            && Shrinks(st, next) && Size(next) + (if Live(token) then 1 else 0) <= Size(st)
            && (NoVT(st) ==> Live(token) || token.typ == EOS) && next.queue == st.queue
  {
    hide Lex, LiveCount;
    ReadRest(st);
    ReadToken(st);
  }

  lemma PeekShrinks(st: State)
    ensures var p := st.LookingAhead(0);
            Shrinks(st, p) && p.queue != [] && p.emit == st.emit && p.LookingAhead(0) == p
  {
    ReadShrinks(st);
    hide Lex, Skipped;
    if st.queue == [] {
      var (token, next) := st.Read();
      assert st.LookingAhead(0) == next.(queue := [token]);
      assert LiveCount([token]) == if Live(token) then 1 else 0;
    }
  }

  lemma ConsumeShrinks(st: State)
    ensures var (token, next) := st.Consume();
            Shrinks(st, next) && (Live(token) ==> Size(next) < Size(st)) && next.emit == st.emit
  {
    ReadShrinks(st);
    hide Lex;
  }

  /** Peeking and consuming: the token, the state with it in the queue, and the state behind it. */
  datatype Next = Next(token: Token, peeked: State, after: State)

  function Look(st: State): (n: Next)
    ensures Shrinks(st, n.peeked) && Shrinks(st, n.after) && (Live(n.token) ==> Size(n.after) < Size(st))
    ensures n.peeked.queue != [] && n.peeked.queue[0] == n.token && n.after == n.peeked.(queue := n.peeked.queue[1..])
    ensures NoVT(st) ==> Live(n.token) || n.token.typ == EOS
  {
    PeekShrinks(st);
    var p := st.LookingAhead(0);
    ConsumeShrinks(p);
    Next(p.queue[0], p, p.Consume().1)
  }

  // -------- tables

  /** fn_convert_map */
  function ConvertType(name: string): Option<string> {
    var table := map[
      "SQL_TINYINT" := "UInt8", "SQL_SMALLINT" := "UInt16", "SQL_INTEGER" := "Int32", "SQL_BIGINT" := "Int64",
      "SQL_REAL" := "Float32", "SQL_DOUBLE" := "Float64", "SQL_CHAR" := "String", "SQL_VARCHAR" := "String",
      "SQL_TIME" := "Time", "SQL_TYPE_TIME" := "Time", "SQL_DATE" := "Date32", "SQL_TYPE_DATE" := "Date32",
      "SQL_TIMESTAMP" := "DateTime", "SQL_TYPE_TIMESTAMP" := "DateTime"];
    if name in table then Some(table[name]) else None
  }

  /** literal_map, and the unit in the names of timeadd_func_map */
  function UnitLiteral(unit: string): string {
    if unit == "FRAC_SECOND" then "'nanosecond'"
    else if unit == "SECOND" then "'second'"
    else if unit == "MINUTE" then "'minute'"
    else if unit == "HOUR" then "'hour'"
    else if unit == "DAY" then "'day'"
    else if unit == "WEEK" then "'week'"
    else if unit == "MONTH" then "'month'"
    else if unit == "QUARTER" then "'quarter'"
    else "'year'"
  }

  function AddFunction(unit: string): string {
    if unit == "FRAC_SECOND" then "addNanoseconds"
    else if unit == "SECOND" then "addSeconds"
    else if unit == "MINUTE" then "addMinutes"
    else if unit == "HOUR" then "addHours"
    else if unit == "DAY" then "addDays"
    else if unit == "WEEK" then "addWeeks"
    else if unit == "MONTH" then "addMonths"
    else if unit == "QUARTER" then "addQuarters"
    else "addYears"
  }

  // function_map, without the functions that are handled one by one, in the order of the source

  function LengthTarget(name: string): Option<string> {
    if name == "ASCII" then Some("ascii")
    else if name == "CHAR" then Some("char")
    else if name == "CHAR_LENGTH" then Some("lengthUTF8")
    else if name == "CHARACTER_LENGTH" then Some("lengthUTF8")
    else if name == "CONCAT" then Some("concat")
    else if name == "LCASE" then Some("lowerUTF8")
    else if name == "LEFT" then Some("leftUTF8")
    else if name == "LENGTH" then Some("lengthUTF8")
    else None
  }

  function PartTarget(name: string): Option<string> {
    if name == "OCTET_LENGTH" then Some("length")
    else if name == "POSITION" then Some("POSITION")
    else if name == "REPEAT" then Some("repeat")
    else if name == "REPLACE" then Some("replaceAll")
    else if name == "RIGHT" then Some("rightUTF8")
    else if name == "RTRIM" then Some("trimRight")
    else None
  }

  function CaseTarget(name: string): Option<string> {
    if name == "SOUNDEX" then Some("soundex")
    else if name == "SUBSTRING" then Some("substringUTF8")
    else if name == "UCASE" then Some("upperUTF8")
    else if name == "LOWER" then Some("lowerUTF8")
    else if name == "UPPER" then Some("upperUTF8")
    else None
  }

  function ArcTarget(name: string): Option<string> {
    if name == "ABS" then Some("abs")
    else if name == "ACOS" then Some("acos")
    else if name == "ASIN" then Some("asin")
    else if name == "ATAN" then Some("atan")
    else if name == "ATAN2" then Some("atan2")
    else if name == "CEILING" then Some("ceil")
    else None
  }

  function PowerTarget(name: string): Option<string> {
    if name == "COS" then Some("cos")
    else if name == "DEGREES" then Some("degrees")
    else if name == "EXP" then Some("exp")
    else if name == "FLOOR" then Some("floor")
    else if name == "LOG" then Some("log")
    else None
  }

  function RemainderTarget(name: string): Option<string> {
    if name == "LOG10" then Some("log10")
    else if name == "MOD" then Some("modulo")
    else if name == "PI" then Some("pi")
    else if name == "POWER" then Some("pow")
    else if name == "RADIANS" then Some("radians")
    else if name == "RAND" then Some("randCanonical")
    else None
  }

  function RoundTarget(name: string): Option<string> {
    if name == "ROUND" then Some("round")
    else if name == "SIGN" then Some("sign")
    else if name == "SIN" then Some("sin")
    else if name == "SQRT" then Some("sqrt")
    else if name == "TAN" then Some("tan")
    else if name == "TRUNCATE" then Some("trunc")
    else None
  }

  function NowTarget(name: string): Option<string> {
    if name == "CURRENT_DATE" then Some("today")
    else if name == "CURDATE" then Some("today")
    else if name == "CURTIME" then Some("now64")
    else if name == "DAYOFMONTH" then Some("toDayOfMonth")
    else if name == "DAYOFYEAR" then Some(" toDayOfYear")
    else if name == "EXTRACT" then Some("EXTRACT")
    else None
  }

  function ClockTarget(name: string): Option<string> {
    if name == "HOUR" then Some("toHour")
    else if name == "MINUTE" then Some("toMinute")
    else if name == "MONTH" then Some("toMonth")
    else if name == "NOW" then Some("now")
    else if name == "SECOND" then Some("toSecond")
    else if name == "TIMESTAMPDIFF" then Some("dateDiff")
    else None
  }

  function CalendarTarget(name: string): Option<string> {
    if name == "WEEK" then Some("toISOWeek")
    else if name == "QUARTER" then Some("toQuarter")
    else if name == "YEAR" then Some("toYear")
    else if name == "DATABASE" then Some("database")
    else if name == "IFNULL" then Some("ifNull")
    else if name == "USER" then Some("user")
    else None
  }

  /** function_map */
  function Target(name: string): Option<string> {
    if LengthTarget(name).Some? then LengthTarget(name)
    else if PartTarget(name).Some? then PartTarget(name)
    else if CaseTarget(name).Some? then CaseTarget(name)
    else if ArcTarget(name).Some? then ArcTarget(name)
    else if PowerTarget(name).Some? then PowerTarget(name)
    else if RemainderTarget(name).Some? then RemainderTarget(name)
    else if RoundTarget(name).Some? then RoundTarget(name)
    else if NowTarget(name).Some? then NowTarget(name)
    else if ClockTarget(name).Some? then ClockTarget(name)
    else CalendarTarget(name)
  }

  /** How many arguments a function takes that is rewritten from the texts of its arguments. */
  function Arity(name: string): nat {
    if name == "BIT_LENGTH" || name == "SPACE" || name == "COT" || name == "DAYNAME" || name == "MONTHNAME"
       || name == "LTRIM" || name == "DAYOFWEEK" then 1
    else if name == "DIFFERENCE" then 2
    else if name == "INSERT" then 4
    else 0
  }

  function SoundexPair(a: string, b: string, digit: string): string {
    "equals(substring(soundex(" + a + ")," + digit + ",1), substring(soundex(" + b + ")," + digit + ",1))"
  }

  function Rewrite(name: string, a: seq<string>): string
    requires |a| == Arity(name) > 0
  {
    if name == "BIT_LENGTH" then "(length(" + a[0] + ") * 8)"
    else if name == "DIFFERENCE" then
      "(" + SoundexPair(a[0], a[1], "1") + " + " + SoundexPair(a[0], a[1], "2") + " + "
      + SoundexPair(a[0], a[1], "3") + " + " + SoundexPair(a[0], a[1], "4") + ")"
    else if name == "INSERT" then "overlayUTF8(" + a[0] + ", " + a[3] + ", " + a[1] + ", " + a[2] + ")"
    else if name == "SPACE" then "repeat(' ', " + a[0] + ")"
    else if name == "COT" then "(cos(" + a[0] + ") / sin (" + a[0] + "))"
    else if name == "DAYNAME" then "dateName('weekday', " + a[0] + ")"
    else if name == "MONTHNAME" then "dateName('month', " + a[0] + ")"
    else if name == "LTRIM" then "replaceRegexpOne(" + a[0] + ", '^\\\\s+', '')"
    else "if(toDayOfWeek(" + a[0] + ") = 7, 1, toDayOfWeek(" + a[0] + ") + 1)"
  }

  // -------- the procedures

  /** while (lex.Match(Token::SPACE)) */
  function SkipSpaces(st: State): (n: State)
    ensures Shrinks(st, n)
    decreases Size(st)
  {
    var n := Look(st);
    if n.token.typ == SPACE then SkipSpaces(n.after) else n.peeked
  }

  /** lex.Match(typ): the state behind the token, or None. */
  function Matched(st: State, typ: Type): (n: Option<State>)
    ensures n.Some? ==> Shrinks(st, n.value) && (typ != EOS && typ != OTHER ==> Size(n.value) < Size(st))
  {
    var n := Look(st);
    if n.token.typ == typ then Some(n.after) else None
  }

  /** processParentheses, behind its opening parenthesis. */
  function Parentheses(seg: string, st: State, acc: string): (r: (Outcome, State))
    ensures Shrinks(st, r.1) && (NoVT(st) ==> r.0 != Endless)
    decreases Size(st), 0
  {
    var n := Look(st);
    match n.token.typ
    case RPARENT => (Done(acc + n.token.literal), n.after)
    case LPARENT =>
      var (o, s) := Parentheses(seg, n.after.(emit := true), n.token.literal);
      if o.Done? then Parentheses(seg, s, acc + o.text) else (o, s)
    case LCURLY =>
      var (o, s) := Nested(seg, n.peeked);
      if o.Done? then Parentheses(seg, s, acc + o.text) else (o, s)
    case EOS => (Done(acc), n.peeked)
    case INVALID => (Done(acc), n.peeked)
    case _ =>
      if !Live(n.token) then (Endless, n.after)
      else Parentheses(seg, n.after, acc + n.token.literal)
  }

  /** processFunctionArgument, with the blanks emitted. */
  function Argument(seg: string, st: State, acc: string): (r: (Outcome, State))
    ensures Shrinks(st, r.1) && (NoVT(st) ==> r.0 != Endless)
    decreases Size(st), 0
  {
    var n := Look(st);
    match n.token.typ
    case RPARENT => (Done(acc), n.peeked.(emit := false))
    case COMMA => (Done(acc), n.peeked.(emit := false))
    case EOS => (Done(acc), n.peeked.(emit := false))
    case INVALID => (Done(acc), n.peeked.(emit := false))
    case LPARENT =>
      var (o, s) := Parentheses(seg, n.after.(emit := true), n.token.literal);
      if o.Done? then Argument(seg, s, acc + o.text) else (o, s)
    case LCURLY =>
      var (o, s) := Nested(seg, n.peeked);
      if o.Done? then Argument(seg, s, acc + o.text) else (o, s)
    case _ =>
      if !Live(n.token) then (Endless, n.after)
      else Argument(seg, n.after, acc + n.token.literal)
  }

  /** An escape sequence inside a function: the blanks are tokens again behind it. */
  function Nested(seg: string, st: State): (r: (Outcome, State))
    requires st.queue != []
    ensures Shrinks(st, r.1) && (NoVT(st) ==> r.0 != Endless)
    ensures Look(st).token.typ == LCURLY ==> Size(r.1) < Size(st)
    decreases Size(Look(st).after), 4
  {
    var (o, s) := Sequence(seg, st.(emit := false));
    (o, s.(emit := true))
  }

  /** processEscapeSequencesImpl */
  function Sequence(seg: string, st: State): (r: (Outcome, State))
    ensures Shrinks(st, r.1) && (NoVT(st) ==> r.0 != Endless)
    ensures Look(st).token.typ == LCURLY ==> Size(r.1) < Size(st)
    decreases Size(Look(st).after), 3
  {
    match Matched(st, LCURLY)
    case None => (Done(seg), Look(st).peeked)
    case Some(s) => SequenceBody(seg, s, "")
  }

  function SequenceBody(seg: string, st: State, acc: string): (r: (Outcome, State))
    ensures Shrinks(st, r.1) && (NoVT(st) ==> r.0 != Endless)
    decreases Size(st), 1
  {
    hide Shrinks, Size, NoVT;
    ShrinksFacts();
    var n := Look(SkipSpaces(st));
    match n.token.typ
    case RCURLY => (Done(acc), n.after)
    case FN =>
      var (o, s) := Function(seg, n.after);
      if o.Done? then SequenceBody(seg, s, acc + o.text) else (o, s)
    case T => Quoted(seg, n.after, acc, "cast(", " as Time)")
    case D => Quoted(seg, n.after, acc, "toDate32(", ")")
    case TS => Quoted(seg, n.after, acc, "toDateTime64(", ", 9)")
    case _ => Parameter(seg, n.after, acc, n.token.literal)
  }

  /** A name that a colon follows is a ClickHouse query parameter; the rest of the sequence follows it. */
  function Parameter(seg: string, st: State, acc: string, name: string): (r: (Outcome, State))
    ensures Shrinks(st, r.1) && (NoVT(st) ==> r.0 != Endless)
    decreases Size(st), 0
  {
    hide Shrinks, Size, NoVT;
    ShrinksFacts();
    var colon := Look(st);
    if colon.token.typ != COLON then (Failed, colon.peeked)
    else
      var (o, s) := QueryParameter(colon.peeked.(emit := true), "{" + name);
      if o.Done? then SequenceBody(seg, s.(emit := st.emit), acc + o.text) else (o, s)
  }

  /** processTime, processDate and processDateTime, and the rest of the sequence. */
  function Quoted(seg: string, st: State, acc: string, before: string, behind: string): (r: (Outcome, State))
    ensures Shrinks(st, r.1) && (NoVT(st) ==> r.0 != Endless)
    decreases Size(st), 2
  {
    var n := Look(st);
    if n.token.typ != STRING then (Failed, n.peeked)
    else SequenceBody(seg, n.after, acc + (before + n.token.literal + behind))
  }

  /** processClickHouseQueryParameter, with the blanks emitted: everything up to the closing brace. */
  function QueryParameter(st: State, acc: string): (r: (Outcome, State))
    ensures Shrinks(st, r.1) && (NoVT(st) ==> r.0 != Endless)
    ensures Live(Look(st).token) && Look(st).token.typ != RCURLY ==> Size(r.1) < Size(st)
    decreases Size(st)
  {
    var n := Look(st);
    if n.token.typ == RCURLY then (Done(acc + "}"), n.peeked)
    else if n.token.typ == EOS then (Failed, n.after)
    else if !Live(n.token) then (Endless, n.after)
    else QueryParameter(n.after, acc + n.token.literal)
  }

  /** `count` arguments with commas between them, and the closing parenthesis. */
  function Arguments(seg: string, st: State, count: nat): (r: (ArgsOutcome, State))
    requires count > 0
    ensures Shrinks(st, r.1) && (NoVT(st) ==> r.0 != ArgsEndless)
    ensures r.0.Args? ==> |r.0.texts| == count
    decreases Size(st), 2
  {
    hide Shrinks, Size, NoVT;
    ShrinksFacts();
    var (o, s) := Argument(seg, st.(emit := true), "");
    match o
    case Failed => (ArgsFailed, s)
    case Endless => (ArgsEndless, s)
    case Done(text) =>
      match Matched(s, if count == 1 then RPARENT else COMMA)
      case None => (ArgsFailed, Look(s).peeked)
      case Some(next) =>
        if count == 1 then (Args([text]), next)
        else
          var (rest, last) := Arguments(seg, next, count - 1);
          (if rest.Args? then Args([text] + rest.texts) else rest, last)
  }

  /** What a procedure makes of its arguments. */
  function Finish(name: string, args: ArgsOutcome): Outcome
    requires Arity(name) > 0 && (args.Args? ==> |args.texts| == Arity(name))
  {
    match args
    case Args(texts) => Done(Rewrite(name, texts))
    case ArgsFailed => Failed
    case ArgsEndless => Endless
  }

  /** processFunction */
  function Function(seg: string, st: State): (r: (Outcome, State))
    ensures Shrinks(st, r.1) && (NoVT(st) ==> r.0 != Endless)
    ensures Live(Look(st).token) ==> Size(r.1) < Size(st)
    decreases Size(Look(st).after), 3
  {
    hide Target, Arity;
    var fn := Look(st);
    if !fn.token.typ.FunctionName? then (Done(seg), fn.after)
    else
      var name := fn.token.typ.name;
      if Arity(name) > 0 then
        match Matched(fn.after, LPARENT)
        case None => (if name == "INSERT" then Done(seg) else Failed, Look(fn.after).peeked)
        case Some(s) =>
          var (args, next) := Arguments(seg, s, Arity(name));
          (Finish(name, args), next)
      else if name == "CONVERT" then Convert(seg, fn.after)
      else if name == "CURRENT_TIME" || name == "CURRENT_TIMESTAMP" then CurrentTime(seg, fn.after)
      else if name == "TIMESTAMPADD" then TimestampAdd(seg, fn.after)
      else if name == "LOCATE" then Locate(seg, fn.after)
      else if Target(name).Some? then Renamed(seg, fn.after.(emit := true), name, Target(name).value)
      else (Done(seg), fn.after)
  }

  function Convert(seg: string, st: State): (r: (Outcome, State))
    ensures Shrinks(st, r.1) && (NoVT(st) ==> r.0 != Endless)
    decreases Size(st), 2
  {
    hide Shrinks, Size, NoVT;
    ShrinksFacts();
    match Matched(st, LPARENT)
    case None => (Failed, Look(st).peeked)
    case Some(s) =>
      var (num, s1) := Argument(seg, s.(emit := true), "");
      if !num.Done? then (num, s1)
      else
        match Matched(SkipSpaces(s1), COMMA)
        case None => (Failed, s1)
        case Some(s2) =>
          var n := Look(SkipSpaces(s2));
          if n.token.typ != IDENT || ConvertType(n.token.literal).None? then (Failed, n.after)
          else
            match Matched(SkipSpaces(n.after), RPARENT)
            case None => (Failed, n.after)
            case Some(s3) => (Done("CAST(" + num.text + " AS " + ConvertType(n.token.literal).value + ")"), s3)
  }

  function CurrentTime(seg: string, st: State): (r: (Outcome, State))
    ensures Shrinks(st, r.1) && (NoVT(st) ==> r.0 != Endless)
    decreases Size(st), 2
  {
    match Matched(st, LPARENT)
    case None => (Done("now64()"), Look(st).peeked)
    case Some(s) =>
      var (precision, s1) := Argument(seg, s.(emit := true), "");
      if !precision.Done? then (precision, s1)
      else
        match Matched(s1, RPARENT)
        case None => (Failed, s1)
        case Some(s2) => (Done("now64(" + precision.text + ")"), s2)
  }

  function TimestampAdd(seg: string, st: State): (r: (Outcome, State))
    ensures Shrinks(st, r.1) && (NoVT(st) ==> r.0 != Endless)
    decreases Size(st), 2
  {
    hide Shrinks, Size, NoVT;
    ShrinksFacts();
    match Matched(st, LPARENT)
    case None => (Failed, Look(st).peeked)
    case Some(s) =>
      var unit := Look(s);
      if !unit.token.typ.TimeUnit? then (Failed, unit.after)
      else
        match Matched(unit.after, COMMA)
        case None => (Failed, unit.after)
        case Some(s1) =>
          var (amount, s2) := Argument(seg, s1.(emit := true), "");
          if !amount.Done? then (amount, s2)
          else
            match Matched(SkipSpaces(s2), COMMA)
            case None => (Failed, s2)
            case Some(s3) =>
              var (date, s4) := Argument(seg, s3.(emit := true), "");
              if !date.Done? then (date, s4)
              else
                match Matched(SkipSpaces(s4), RPARENT)
                case None => (Failed, s4)
                case Some(s5) =>
                  (Done(AddFunction(unit.token.typ.name) + "(" + date.text + ", " + amount.text + ")"), s5)
  }

  function Locate(seg: string, st: State): (r: (Outcome, State))
    ensures Shrinks(st, r.1) && (NoVT(st) ==> r.0 != Endless)
    decreases Size(st), 2
  {
    hide Shrinks, Size, NoVT;
    ShrinksFacts();
    match Matched(st, LPARENT)
    case None => (Failed, Look(st).peeked)
    case Some(s) =>
      var (needle, s1) := Argument(seg, s.(emit := true), "");
      if !needle.Done? then (needle, s1)
      else
        match Matched(s1, COMMA)
        case None => (Failed, s1)
        case Some(s2) =>
          var (haystack, s3) := Argument(seg, s2.(emit := true), "");
          if !haystack.Done? then (haystack, s3)
          else
            var (offset, s5) := match Matched(s3, COMMA)
                                case None => (Done("1"), Look(s3).peeked)
                                case Some(s4) => Argument(seg, s4.(emit := true), "");
            if !offset.Done? then (offset, s5)
            else
              match Matched(s5, RPARENT)
              case None => (Failed, s5)
              case Some(s6) =>
                (Done("position(" + haystack.text + "," + needle.text + ",accurateCast(" + offset.text
                    + ",'UInt64'))"), s6)
  }

  /** A function with another name in ClickHouse: everything behind the name is copied up to the brace. */
  function Renamed(seg: string, st: State, name: string, acc: string): (r: (Outcome, State))
    ensures Shrinks(st, r.1) && (NoVT(st) ==> r.0 != Endless)
    decreases Size(st), 2
  {
    hide Shrinks, Size, NoVT;
    ShrinksFacts();
    var n := Look(st);
    match n.token.typ
    case RCURLY => (Done(acc), n.peeked.(emit := false))
    case EOS => (Done(acc), n.peeked.(emit := false))
    case INVALID => (Done(acc), n.peeked.(emit := false))
    case LCURLY =>
      var (o, s) := Nested(seg, n.peeked);
      if o.Done? then Renamed(seg, s, name, acc + o.text) else (o, s)
    case FunctionName(inner) =>
      if inner == "EXTRACT" then
        var (o, s) := Function(seg, n.peeked);
        if o.Done? then Renamed(seg, s, name, acc + o.text) else (o, s)
      else Renamed(seg, n.after, name, acc + n.token.literal)
    case TimeUnit(unit) =>
      Renamed(seg, n.after, name, acc + (if name != "EXTRACT" then UnitLiteral(unit) else n.token.literal))
    case _ =>
      if !Live(n.token) then (Endless, n.after)
      else Renamed(seg, n.after, name, acc + n.token.literal)
  }

  lemma ShrinksFacts()
    ensures forall a, b, c :: Shrinks(a, b) && Shrinks(b, c) ==> Shrinks(a, c)
    ensures forall a, b :: Shrinks(a, b) ==> Size(b) <= Size(a) && (NoVT(a) ==> NoVT(b))
    ensures forall a: State, e: bool :: Shrinks(a, a.(emit := e)) && Size(a.(emit := e)) == Size(a)
    ensures forall a :: Shrinks(a, a)
  {
  }

  /** processEscapeSequences */
  function Translate(seg: string): Outcome { Sequence(seg, State(seg, [], false)).0 }
}
