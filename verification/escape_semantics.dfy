/** What the functions of escape sequences mean in ODBC, and what ClickHouse makes of the texts they become. */
module EscapeSemantics {
  import opened Text
  import opened Lexing
  import opened EscapeTranslation
  import opened EscapeItems
  import R = EscapeResults

  // -------- values

  /** A day is the number of days since January 1st, 1970, a moment the number of nanoseconds since then. */
  datatype Value =
    | Chars(s: string) | Whole(n: int) | Fraction(x: real) | Day(days: int) | Moment(nanos: int) | Truth(b: bool)
    | Unknown

  /** What both sides take from elsewhere: UTF-8, the codes of SOUNDEX, cosine and sine, the names of weekdays, Sunday
      being 0, and of the month of a day, and the calendar. */
  datatype World = World(
    encoded: string -> seq<Byte>, soundex: string -> string, cosine: real -> real, sine: real -> real,
    weekday: int -> string, monthOf: int -> string, addMonths: (int, int) -> int)

  // -------- spans of time

  /** A span of time: so many nanoseconds, or so many months. */
  datatype Span = Nanos(count: int) | Months(months: int)

  const SECOND_NANOS: int := 1_000_000_000

  /** The units of TIMESTAMPADD and TIMESTAMPDIFF. */
  function SpanOf(unit: string): Span {
    if unit == "FRAC_SECOND" then Nanos(1)
    else if unit == "SECOND" then Nanos(SECOND_NANOS)
    else if unit == "MINUTE" then Nanos(60 * SECOND_NANOS)
    else if unit == "HOUR" then Nanos(60 * 60 * SECOND_NANOS)
    else if unit == "DAY" then Nanos(24 * 60 * 60 * SECOND_NANOS)
    else if unit == "WEEK" then Nanos(7 * 24 * 60 * 60 * SECOND_NANOS)
    else if unit == "MONTH" then Months(1)
    else if unit == "QUARTER" then Months(3)
    else Months(12)
  }

  /** ClickHouse's word for a span. */
  function SpanWord(span: Span): string {
    match span
    case Months(n) => if n == 1 then "month" else if n == 3 then "quarter" else "year"
    case Nanos(n) =>
      if n == 1 then "nanosecond"
      else if n == SECOND_NANOS then "second"
      else if n == 60 * SECOND_NANOS then "minute"
      else if n == 3600 * SECOND_NANOS then "hour"
      else if n == 24 * 3600 * SECOND_NANOS then "day"
      else "week"
  }

  function Capital(word: string): string
    requires word != ""
  {
    [ToUpper(word[0])] + word[1..]
  }

  function Later(nanos: int, count: int, span: Span, w: World): int {
    match span
    case Nanos(n) => nanos + count * n
    case Months(n) => w.addMonths(nanos, count * n)
  }

  // -------- ClickHouse's functions

  datatype Fn =
    | Length | Repeat | OverlayUTF8 | Soundex | Substring | Equals | Cos | Sin | DateName | ReplaceRegexpOne |
    ToDayOfWeek | If | Position | AccurateCast | Add(span: Span)

  function FnName(fn: Fn): string {
    match fn
    case Length => "length"
    case Repeat => "repeat"
    case OverlayUTF8 => "overlayUTF8"
    case Soundex => "soundex"
    case Substring => "substring"
    case Equals => "equals"
    case Cos => "cos"
    case Sin => "sin"
    case DateName => "dateName"
    case ReplaceRegexpOne => "replaceRegexpOne"
    case ToDayOfWeek => "toDayOfWeek"
    case If => "if"
    case Position => "position"
    case AccurateCast => "accurateCast"
    case Add(span) => "add" + Capital(SpanWord(span)) + "s"
  }

  function Repeated(s: string, n: nat): string { if n == 0 then "" else Repeated(s, n - 1) + s }

  /** `n` characters from position `p` on, counted from 1. */
  function Part(s: string, p: nat, n: nat): string
    requires p >= 1
  {
    var from := Min(p - 1, |s|);
    s[from..Min(from + n, |s|)]
  }

  /** Where `needle` stands in `haystack`, from position `start` on; 0 when it does not. */
  function Where(needle: string, haystack: string, start: nat): nat
    requires start >= 1
  {
    if start - 1 > |haystack| then 0
    else
      var found := Find(needle, haystack, start - 1);
      if found.Some? then found.value + 1 else 0
  }

  /** The class \s of regular expressions. */
  predicate IsRegexSpace(c: char) { c in {' ', '\t', '\n', '\r', 12 as char} }

  /** What a text is behind its longest beginning of characters like `c`. */
  function WithoutSpaces(s: string): string { if s != "" && IsRegexSpace(s[0]) then WithoutSpaces(s[1..]) else s }

  /** toDayOfWeek: Monday is 1, Sunday 7. January 1st, 1970 was a Thursday. */
  function MondayBased(day: int): int { (day + 3) % 7 + 1 }

  function Apply1(fn: Fn, a: Value, w: World): Value {
    match (fn, a)
    case (Length, Chars(s)) => Whole(|w.encoded(s)|)
    case (Soundex, Chars(s)) => Chars(w.soundex(s))
    case (Cos, Fraction(x)) => Fraction(w.cosine(x))
    case (Sin, Fraction(x)) => Fraction(w.sine(x))
    case (ToDayOfWeek, Day(day)) => Whole(MondayBased(day))
    case _ => Unknown
  }

  function Apply2(fn: Fn, a: Value, b: Value, w: World): Value {
    match (fn, a, b)
    case (Repeat, Chars(s), Whole(n)) => if n < 0 then Chars("") else Chars(Repeated(s, n))
    case (Equals, _, _) => Whole(if a == b then 1 else 0)
    case (DateName, Chars(part), Day(day)) =>
      if part == "weekday" then Chars(w.weekday(MondayBased(day) % 7))
      else if part == "month" then Chars(w.monthOf(day))
      else Unknown
    case (AccurateCast, Whole(n), Chars(typ)) => if typ == "UInt64" && 0 <= n <= U64_MAX then a else Unknown
    case (Add(span), Moment(nanos), Whole(count)) => Moment(Later(nanos, count, span, w))
    case _ => Unknown
  }

  function Apply3(fn: Fn, a: Value, b: Value, c: Value): Value {
    match (fn, a, b, c)
    case (Substring, Chars(s), Whole(p), Whole(n)) => if p >= 1 && n >= 0 then Chars(Part(s, p, n)) else Unknown
    case (ReplaceRegexpOne, Chars(s), Chars(pattern), Chars(r)) =>
      if pattern == "^\\s+" && WithoutSpaces(s) != s then Chars(r + WithoutSpaces(s))
      else if pattern == "^\\s+" then a
      else Unknown
    case (If, Truth(t), _, _) => if t then b else c
    case (Position, Chars(haystack), Chars(needle), Whole(start)) =>
      if start >= 1 then Whole(Where(needle, haystack, start)) else Unknown
    case _ => Unknown
  }

  /** overlayUTF8(s, r, p, n): `r` in the place of `n` characters from position `p` on. */
  function Apply4(fn: Fn, a: Value, b: Value, c: Value, d: Value): Value {
    match (fn, a, b, c, d)
    case (OverlayUTF8, Chars(s), Chars(r), Whole(p), Whole(n)) =>
      if p >= 1 && n >= 0 then Chars(Part(s, 1, p - 1) + r + Part(s, p + n, |s|)) else Unknown
    case _ => Unknown
  }

  function Operate(op: char, a: Value, b: Value): Value {
    match (a, b)
    case (Whole(m), Whole(n)) =>
      if op == '+' then Whole(m + n) else if op == '*' then Whole(m * n) else if op == '=' then Truth(m == n)
          else Unknown
    case (Fraction(x), Fraction(y)) => if op == '/' && y != 0.0 then Fraction(x / y) else Unknown
    case _ => Unknown
  }

  // -------- terms

  /** An expression of ClickHouse with the blanks of its text; Arg stands for the text of an argument. */
  datatype Term =
    | Arg(i: nat) | Number(n: nat) | Quote(s: string)
    | One(fn: Fn, gap: string, a: Term) | Two(fn: Fn, comma: string, a: Term, b: Term)
    | Three(fn: Fn, comma: string, a: Term, b: Term, c: Term)
    | Four(fn: Fn, comma: string, a: Term, b: Term, c: Term, d: Term)
    | Infix(op: char, a: Term, b: Term) | Group(a: Term)

  function TextAt(texts: seq<string>, i: nat): string { if i < |texts| then texts[i] else "" }

  function Spelled(t: Term, texts: seq<string>): string {
    match t
    case Arg(i) => TextAt(texts, i)
    case Number(n) => Decimal(n)
    case Quote(s) => SqlLiteral(s)
    case One(fn, gap, a) => FnName(fn) + gap + "(" + Spelled(a, texts) + ")"
    case Two(fn, comma, a, b) => FnName(fn) + "(" + Spelled(a, texts) + comma + Spelled(b, texts) + ")"
    case Three(fn, comma, a, b, c) =>
      FnName(fn) + "(" + Spelled(a, texts) + comma + Spelled(b, texts) + comma + Spelled(c, texts) + ")"
    case Four(fn, comma, a, b, c, d) =>
      FnName(fn) + "(" + Spelled(a, texts) + comma + Spelled(b, texts) + comma + Spelled(c, texts) + comma
      + Spelled(d, texts) + ")"
    case Infix(op, a, b) => Spelled(a, texts) + [' ', op, ' '] + Spelled(b, texts)
    case Group(a) => "(" + Spelled(a, texts) + ")"
  }

  function ValueAt(values: seq<Value>, i: nat): Value { if i < |values| then values[i] else Unknown }

  /** What ClickHouse computes when the texts of the arguments have these values. */
  function Eval(t: Term, v: seq<Value>, w: World): Value {
    match t
    case Arg(i) => ValueAt(v, i)
    case Number(n) => Whole(n)
    case Quote(s) => Chars(s)
    case One(fn, _, a) => Apply1(fn, Eval(a, v, w), w)
    case Two(fn, _, a, b) => Apply2(fn, Eval(a, v, w), Eval(b, v, w), w)
    case Three(fn, _, a, b, c) => Apply3(fn, Eval(a, v, w), Eval(b, v, w), Eval(c, v, w))
    case Four(fn, _, a, b, c, d) => Apply4(fn, Eval(a, v, w), Eval(b, v, w), Eval(c, v, w), Eval(d, v, w))
    case Infix(op, a, b) => Operate(op, Eval(a, v, w), Eval(b, v, w))
    case Group(a) => Eval(a, v, w)
  }

  // -------- the terms of the functions

  function CodePart(arg: nat, p: nat): Term { Three(Substring, ",", One(Soundex, "", Arg(arg)), Number(p), Number(1)) }

  function SamePart(p: nat): Term { Two(Equals, ", ", CodePart(0, p), CodePart(1, p)) }

  function BitLengthTerm(): Term { Group(Infix('*', One(Length, "", Arg(0)), Number(8))) }

  function DifferenceTerm(): Term {
    Group(Infix('+', Infix('+', Infix('+', SamePart(1), SamePart(2)), SamePart(3)), SamePart(4)))
  }

  function InsertTerm(): Term { Four(OverlayUTF8, ", ", Arg(0), Arg(3), Arg(1), Arg(2)) }

  function SpaceTerm(): Term { Two(Repeat, ", ", Quote(" "), Arg(0)) }

  function CotTerm(): Term { Group(Infix('/', One(Cos, "", Arg(0)), One(Sin, " ", Arg(0)))) }

  function NameTerm(part: string): Term { Two(DateName, ", ", Quote(part), Arg(0)) }

  function LtrimTerm(): Term { Three(ReplaceRegexpOne, ", ", Arg(0), Quote("^\\s+"), Quote("")) }

  function DayOfWeekTerm(): Term {
    var weekday := One(ToDayOfWeek, "", Arg(0));
    Three(If, ", ", Infix('=', weekday, Number(7)), Number(1), Infix('+', weekday, Number(1)))
  }

  /** What a rewritten function becomes. */
  function TermOf(name: string): Term {
    if name == "BIT_LENGTH" then BitLengthTerm()
    else if name == "DIFFERENCE" then DifferenceTerm()
    else if name == "INSERT" then InsertTerm()
    else if name == "SPACE" then SpaceTerm()
    else if name == "COT" then CotTerm()
    else if name == "DAYNAME" then NameTerm("weekday")
    else if name == "MONTHNAME" then NameTerm("month")
    else if name == "LTRIM" then LtrimTerm()
    else DayOfWeekTerm()
  }

  /** LOCATE with two or three arguments, and TIMESTAMPADD, whose first argument is the unit. */
  function LocateTerm(count: nat): Term {
    Three(Position, ",", Arg(1), Arg(0), Two(AccurateCast, ",", if count == 2 then Number(1)
        else Arg(2), Quote("UInt64")))
  }

  function AddTerm(unit: string): Term { Two(Add(SpanOf(unit)), ", ", Arg(2), Arg(1)) }

  // -------- the texts are those of the terms

  lemma Digits()
    ensures Decimal(1) == "1" && Decimal(2) == "2" && Decimal(3) == "3" && Decimal(4) == "4" && Decimal(7) == "7"
            && Decimal(8) == "8"
  {
  }

  lemma {:induction false} NothingEscaped(s: string)
    requires '\'' !in s && '\\' !in s
    ensures Escaped(s) == s
  {
    if s != "" {
      assert s[0] in s;
      NothingEscaped(s[1..]);
    }
  }

  lemma Quoted(s: string, literal: string)
    requires '\'' !in s && '\\' !in s && literal == "'" + s + "'"
    ensures SqlLiteral(s) == literal
  {
    NothingEscaped(s);
  }

  lemma PatternQuote()
    ensures SqlLiteral("^\\s+") == "'^\\\\s+'"
  {
    NothingEscaped("s+");
    assert "\\s+"[1..] == "s+" && Escaped("\\s+") == "\\\\s+";
    assert "^\\s+"[1..] == "\\s+";
  }

  lemma OneSpelled(fn: Fn, gap: string, i: nat, texts: seq<string>, head: string)
    requires i < |texts| && head == FnName(fn) + gap + "("
    ensures Spelled(One(fn, gap, Arg(i)), texts) == head + texts[i] + ")"
  {
  }

  lemma InfixSpelled(op: char, a: Term, b: Term, texts: seq<string>, sign: string)
    requires sign == [' ', op, ' ']
    ensures Spelled(Infix(op, a, b), texts) == Spelled(a, texts) + sign + Spelled(b, texts)
  {
  }

  lemma GroupSpelled(a: Term, texts: seq<string>)
    ensures Spelled(Group(a), texts) == "(" + Spelled(a, texts) + ")"
  {
  }

  lemma NumberSpelled(n: nat, texts: seq<string>, digits: string)
    requires Decimal(n) == digits
    ensures Spelled(Number(n), texts) == digits
  {
  }

  lemma ThreeSpelled(fn: Fn, comma: string, a: Term, b: Term, c: Term, texts: seq<string>, head: string)
    requires head == FnName(fn) + "("
    ensures Spelled(Three(fn, comma, a, b, c), texts)
            == head + Spelled(a, texts) + comma + Spelled(b, texts) + comma + Spelled(c, texts) + ")"
  {
  }

  lemma TwoSpelled(fn: Fn, comma: string, a: Term, b: Term, texts: seq<string>, head: string)
    requires head == FnName(fn) + "("
    ensures Spelled(Two(fn, comma, a, b), texts) == head + Spelled(a, texts) + comma + Spelled(b, texts) + ")"
  {
  }

  lemma BitLengthSpelled(x: string)
    ensures Spelled(BitLengthTerm(), [x]) == "(length(" + x + ") * 8)"
  {
    Digits();
    hide Spelled, Decimal;
    var length := One(Length, "", Arg(0));
    OneSpelled(Length, "", 0, [x], "length(");
    NumberSpelled(8, [x], "8");
    InfixSpelled('*', length, Number(8), [x], " * ");
    GroupSpelled(Infix('*', length, Number(8)), [x]);
    assert "(" + ("length(" + x + ")" + " * " + "8") + ")" == "(length(" + x + ") * 8)";
  }

  lemma InsertSpelled(a: seq<string>)
    requires |a| == 4
    ensures Spelled(InsertTerm(), a) == "overlayUTF8(" + a[0] + ", " + a[3] + ", " + a[1] + ", " + a[2] + ")"
  {
    assert "overlayUTF8" + "(" == "overlayUTF8(";
  }

  lemma SpaceSpelled(x: string)
    ensures Spelled(SpaceTerm(), [x]) == "repeat(' ', " + x + ")"
  {
    Quoted(" ", "' '");
    hide SqlLiteral;
    assert "repeat" + "(" + "' '" + ", " == "repeat(' ', ";
  }

  lemma CotSpelled(x: string)
    ensures Spelled(CotTerm(), [x]) == "(cos(" + x + ") / sin (" + x + "))"
  {
    hide Spelled;
    var cosine, sine := One(Cos, "", Arg(0)), One(Sin, " ", Arg(0));
    OneSpelled(Cos, "", 0, [x], "cos(");
    OneSpelled(Sin, " ", 0, [x], "sin (");
    InfixSpelled('/', cosine, sine, [x], " / ");
    GroupSpelled(Infix('/', cosine, sine), [x]);
    assert "(" + ("cos(" + x + ")" + " / " + ("sin (" + x + ")")) + ")" == "(cos(" + x + ") / sin (" + x + "))";
  }

  lemma NameSpelled(part: string, literal: string, x: string)
    requires SqlLiteral(part) == literal
    ensures Spelled(NameTerm(part), [x]) == "dateName(" + literal + ", " + x + ")"
  {
    hide SqlLiteral;
    assert "dateName" + "(" == "dateName(";
  }

  lemma LtrimSpelled(x: string)
    ensures Spelled(LtrimTerm(), [x]) == "replaceRegexpOne(" + x + ", '^\\\\s+', '')"
  {
    Quoted("", "''");
    PatternQuote();
    ThreeSpelled(ReplaceRegexpOne, ", ", Arg(0), Quote("^\\s+"), Quote(""), [x], "replaceRegexpOne(");
    hide SqlLiteral, FnName;
    LtrimText(x);
  }

  lemma LtrimText(x: string)
    ensures "replaceRegexpOne(" + x + ", " + "'^\\\\s+'" + ", " + "''" + ")"
            == "replaceRegexpOne(" + x + ", '^\\\\s+', '')"
  {
    assert ", " + "'^\\\\s+'" + ", " + "''" + ")" == ", '^\\\\s+', '')";
  }

  lemma DayOfWeekSpelled(x: string)
    ensures Spelled(DayOfWeekTerm(), [x]) == "if(toDayOfWeek(" + x + ") = 7, 1, toDayOfWeek(" + x + ") + 1)"
  {
    Digits();
    hide Spelled, Decimal;
    var weekday := One(ToDayOfWeek, "", Arg(0));
    OneSpelled(ToDayOfWeek, "", 0, [x], "toDayOfWeek(");
    NumberSpelled(7, [x], "7");
    NumberSpelled(1, [x], "1");
    InfixSpelled('=', weekday, Number(7), [x], " = ");
    InfixSpelled('+', weekday, Number(1), [x], " + ");
    ThreeSpelled(If, ", ", Infix('=', weekday, Number(7)), Number(1), Infix('+', weekday, Number(1)), [x], "if(");
    DayOfWeekText(x);
  }

  /** Texts with two holes, joined. */
  lemma Joined(p: string, head: string, x: string, tail: string, q: string, y: string, r: string)
    ensures p + (head + x + tail) + q + (head + y + tail) + r == (p + head) + x + (tail + q + head) + y + (tail + r)
  {
  }

  lemma Flattened(p: string, x: string, a: string, b: string, comma: string, c: string, d: string, r: string)
    ensures p + (x + a + b) + comma + c + comma + (x + d + c) + r
            == p + x + (a + b + comma + c + comma) + x + (d + c + r)
  {
  }

  lemma DayOfWeekText(x: string)
    ensures var weekday := "toDayOfWeek(" + x + ")";
            "if(" + (weekday + " = " + "7") + ", " + "1" + ", " + (weekday + " + " + "1") + ")"
            == "if(toDayOfWeek(" + x + ") = 7, 1, toDayOfWeek(" + x + ") + 1)"
  {
    Flattened("if(", "toDayOfWeek(" + x + ")", " = ", "7", ", ", "1", " + ", ")");
    Joined("if(", "toDayOfWeek(", x, ")", " = " + "7" + ", " + "1" + ", ", x, " + " + "1" + ")");
    DayOfWeekPieces();
  }

  lemma DayOfWeekPieces()
    ensures "if(" + "toDayOfWeek(" == "if(toDayOfWeek(" && ")" + (" + " + "1" + ")") == ") + 1)"
    ensures ")" + (" = " + "7" + ", " + "1" + ", ") + "toDayOfWeek(" == ") = 7, 1, toDayOfWeek("
  {
  }

  lemma CodePartSpelled(a: seq<string>, i: nat, p: nat, digit: string)
    requires i < |a| && digit == Decimal(p)
    ensures Spelled(CodePart(i, p), a) == "substring(soundex(" + a[i] + ")," + digit + ",1)"
  {
    Digits();
    hide Spelled, Decimal;
    var code := One(Soundex, "", Arg(i));
    OneSpelled(Soundex, "", i, a, "soundex(");
    NumberSpelled(p, a, digit);
    NumberSpelled(1, a, "1");
    ThreeSpelled(Substring, ",", code, Number(p), Number(1), a, "substring(");
    CodePartText(a[i], digit);
  }

  lemma CodePartText(x: string, digit: string)
    ensures "substring(" + ("soundex(" + x + ")") + "," + digit + "," + "1" + ")"
            == "substring(soundex(" + x + ")," + digit + ",1)"
  {
    assert "substring(" + "soundex(" == "substring(soundex(" && ")" + "," == ")," && "," + "1" + ")" == ",1)";
  }

  lemma SamePartSpelled(a: seq<string>, p: nat, digit: string)
    requires |a| == 2 && digit == Decimal(p)
    ensures Spelled(SamePart(p), a) == SoundexPair(a[0], a[1], digit)
  {
    hide Spelled, Decimal, CodePart, SoundexPair;
    CodePartSpelled(a, 0, p, digit);
    CodePartSpelled(a, 1, p, digit);
    TwoSpelled(Equals, ", ", CodePart(0, p), CodePart(1, p), a, "equals(");
    SamePartText(a[0], a[1], digit);
  }

  lemma SamePartText(x: string, y: string, digit: string)
    ensures "equals(" + ("substring(soundex(" + x + ")," + digit + ",1)") + ", "
            + ("substring(soundex(" + y + ")," + digit + ",1)") + ")" == SoundexPair(x, y, digit)
  {
    var tail := ")," + digit + ",1)";
    assert "substring(soundex(" + x + ")," + digit + ",1)" == "substring(soundex(" + x + tail;
    assert "substring(soundex(" + y + ")," + digit + ",1)" == "substring(soundex(" + y + tail;
    Joined("equals(", "substring(soundex(", x, tail, ", ", y, ")");
    SamePartPieces(digit);
  }

  lemma SamePartPieces(digit: string)
    ensures "equals(" + "substring(soundex(" == "equals(substring(soundex("
    ensures (")," + digit + ",1)") + ", " + "substring(soundex(" == ")," + digit + ",1), substring(soundex("
    ensures (")," + digit + ",1)") + ")" == ")," + digit + ",1))"
  {
    assert ",1)" + ", " + "substring(soundex(" == ",1), substring(soundex(" && ",1)" + ")" == ",1))";
  }

  lemma DifferenceSpelled(a: seq<string>)
    requires |a| == 2
    ensures Spelled(DifferenceTerm(), a)
            == "(" + SoundexPair(a[0], a[1], "1") + " + " + SoundexPair(a[0], a[1], "2") + " + "
               + SoundexPair(a[0], a[1], "3") + " + " + SoundexPair(a[0], a[1], "4") + ")"
  {
    Digits();
    hide Spelled, SamePart, SoundexPair, Decimal;
    SamePartSpelled(a, 1, "1");
    SamePartSpelled(a, 2, "2");
    SamePartSpelled(a, 3, "3");
    SamePartSpelled(a, 4, "4");
    var two := Infix('+', SamePart(1), SamePart(2));
    var three := Infix('+', two, SamePart(3));
    InfixSpelled('+', SamePart(1), SamePart(2), a, " + ");
    InfixSpelled('+', two, SamePart(3), a, " + ");
    InfixSpelled('+', three, SamePart(4), a, " + ");
    GroupSpelled(Infix('+', three, SamePart(4)), a);
  }

  lemma OneArgumentSpelled(name: string, x: string)
    requires Arity(name) == 1
    ensures Rewrite(name, [x]) == Spelled(TermOf(name), [x])
  {
    hide Spelled, BitLengthTerm, DifferenceTerm, InsertTerm, SpaceTerm, CotTerm, NameTerm, LtrimTerm, DayOfWeekTerm,
         SqlLiteral;
    BitLengthSpelled(x);
    SpaceSpelled(x);
    CotSpelled(x);
    Quoted("weekday", "'weekday'");
    Quoted("month", "'month'");
    NameSpelled("weekday", "'weekday'", x);
    NameSpelled("month", "'month'", x);
    LtrimSpelled(x);
    DayOfWeekSpelled(x);
  }

  /** The text of a rewritten function is that of its term. */
  lemma RewriteSpelled(name: string, a: seq<string>)
    requires |a| == Arity(name) > 0
    ensures Rewrite(name, a) == Spelled(TermOf(name), a)
  {
    hide Spelled, SoundexPair, BitLengthTerm, DifferenceTerm, InsertTerm, SpaceTerm, CotTerm, NameTerm, LtrimTerm,
         DayOfWeekTerm;
    if name == "DIFFERENCE" {
      DifferenceSpelled(a);
    } else if name == "INSERT" {
      InsertSpelled(a);
    } else {
      assert a == [a[0]];
      OneArgumentSpelled(name, a[0]);
    }
  }

  // -------- what ODBC asks for

  /** How many of the first `n` characters of two codes agree. */
  function Agreements(a: string, b: string, n: nat): nat {
    if n == 0 then 0 else Agreements(a, b, n - 1) + (if Part(a, n, 1) == Part(b, n, 1) then 1 else 0)
  }

  /** The text without `n` characters from position `start` on. */
  function Deleted(s: string, start: nat, n: nat): string
    requires 1 <= start <= |s| + 1
  {
    s[..start - 1] + s[Min(start - 1 + n, |s|)..]
  }

  /** The text with another one put in at position `start`. */
  function Inserted(s: string, start: nat, other: string): string
    requires 1 <= start <= |s| + 1
  {
    s[..start - 1] + other + s[start - 1..]
  }

  function Spaces(n: nat): string { seq(n, i requires 0 <= i < n => ' ') }

  function WithoutBlanks(s: string): string { if s != "" && s[0] == ' ' then WithoutBlanks(s[1..]) else s }

  /** The weekday of a day, Sunday being 0. */
  function Weekday(day: int): int { (day + 4) % 7 }

  /** The arguments that ODBC defines the function for. */
  predicate Defined(name: string, v: seq<Value>, w: World) {
    if name == "DIFFERENCE" then |v| == 2 && v[0].Chars? && v[1].Chars?
    else if name == "INSERT" then
      && |v| == 4 && v[0].Chars? && v[1].Whole? && v[2].Whole? && v[3].Chars?
      && 1 <= v[1].n <= |v[0].s| + 1 && v[2].n >= 0
    else
      && |v| == 1
      && (name == "BIT_LENGTH" || name == "LTRIM" ==> v[0].Chars?)
      && (name == "SPACE" ==> v[0].Whole? && v[0].n >= 0)
      && (name == "COT" ==> v[0].Fraction? && w.sine(v[0].x) != 0.0)
      && (name == "DAYNAME" || name == "MONTHNAME" || name == "DAYOFWEEK" ==> v[0].Day?)
  }

  /** The value of the function: the length in bits; how alike the codes of two texts are; a part of a text replaced by
      another text; so many spaces; the cotangent; the names of weekday and month; a text without leading blanks; the
      number of the weekday, Sunday being 1. */
  function OdbcValue(name: string, v: seq<Value>, w: World): Value
    requires Arity(name) > 0 && Defined(name, v, w)
  {
    if name == "BIT_LENGTH" then Whole(8 * |w.encoded(v[0].s)|)
    else if name == "DIFFERENCE" then Whole(Agreements(w.soundex(v[0].s), w.soundex(v[1].s), 4))
    else if name == "INSERT" then Chars(Inserted(Deleted(v[0].s, v[1].n, v[2].n), v[1].n, v[3].s))
    else if name == "SPACE" then Chars(Spaces(v[0].n))
    else if name == "COT" then Fraction(w.cosine(v[0].x) / w.sine(v[0].x))
    else if name == "DAYNAME" then Chars(w.weekday(Weekday(v[0].days)))
    else if name == "MONTHNAME" then Chars(w.monthOf(v[0].days))
    else if name == "LTRIM" then Chars(WithoutBlanks(v[0].s))
    else Whole(Weekday(v[0].days) + 1)
  }

  lemma {:induction false} RepeatedSpaces(n: nat)
    ensures Repeated(" ", n) == Spaces(n)
  {
    if n > 0 {
      RepeatedSpaces(n - 1);
    }
  }

  lemma InsertMeans(v: seq<Value>, w: World)
    requires Defined("INSERT", v, w)
    ensures Eval(InsertTerm(), v, w) == OdbcValue("INSERT", v, w)
  {
    var s, start, n, r := v[0].s, v[1].n, v[2].n, v[3].s;
    assert Eval(InsertTerm(), v, w) == Chars(Part(s, 1, start - 1) + r + Part(s, start + n, |s|));
    assert Deleted(s, start, n)[..start - 1] == s[..start - 1] == Part(s, 1, start - 1);
    assert Deleted(s, start, n)[start - 1..] == s[Min(start - 1 + n, |s|)..] == Part(s, start + n, |s|);
  }

  lemma SamePartMeans(p: nat, v: seq<Value>, w: World)
    requires p >= 1 && Defined("DIFFERENCE", v, w)
    ensures var a, b := w.soundex(v[0].s), w.soundex(v[1].s);
            Eval(SamePart(p), v, w) == Whole(if Part(a, p, 1) == Part(b, p, 1) then 1 else 0)
  {
    hide Part;
    assert Eval(One(Soundex, "", Arg(0)), v, w) == Chars(w.soundex(v[0].s));
    assert Eval(One(Soundex, "", Arg(1)), v, w) == Chars(w.soundex(v[1].s));
    assert Eval(CodePart(0, p), v, w) == Chars(Part(w.soundex(v[0].s), p, 1));
    assert Eval(CodePart(1, p), v, w) == Chars(Part(w.soundex(v[1].s), p, 1));
  }

  lemma SumMeans(x: Term, y: Term, m: int, n: int, v: seq<Value>, w: World)
    requires Eval(x, v, w) == Whole(m) && Eval(y, v, w) == Whole(n)
    ensures Eval(Infix('+', x, y), v, w) == Whole(m + n)
  {
  }

  lemma FourParts(a: string, b: string)
    ensures var same := (n: nat) => if n >= 1 && Part(a, n, 1) == Part(b, n, 1) then 1 else 0;
            Agreements(a, b, 4) == same(1) + same(2) + same(3) + same(4)
  {
    hide Part;
    assert Agreements(a, b, 2) == Agreements(a, b, 1) + (if Part(a, 2, 1) == Part(b, 2, 1) then 1 else 0);
    assert Agreements(a, b, 3) == Agreements(a, b, 2) + (if Part(a, 3, 1) == Part(b, 3, 1) then 1 else 0);
  }

  lemma DifferenceMeans(v: seq<Value>, w: World)
    requires Defined("DIFFERENCE", v, w)
    ensures Eval(DifferenceTerm(), v, w) == OdbcValue("DIFFERENCE", v, w)
  {
    var a, b := w.soundex(v[0].s), w.soundex(v[1].s);
    hide Part, SamePart, Eval, Agreements;
    var same := (n: nat) => if n >= 1 && Part(a, n, 1) == Part(b, n, 1) then 1 else 0;
    SamePartMeans(1, v, w);
    SamePartMeans(2, v, w);
    SamePartMeans(3, v, w);
    SamePartMeans(4, v, w);
    FourParts(a, b);
    var two := Infix('+', SamePart(1), SamePart(2));
    var three := Infix('+', two, SamePart(3));
    SumMeans(SamePart(1), SamePart(2), same(1), same(2), v, w);
    SumMeans(two, SamePart(3), same(1) + same(2), same(3), v, w);
    SumMeans(three, SamePart(4), same(1) + same(2) + same(3), same(4), v, w);
    GroupMeans(Infix('+', three, SamePart(4)), v, w);
  }

  lemma GroupMeans(x: Term, v: seq<Value>, w: World)
    ensures Eval(Group(x), v, w) == Eval(x, v, w)
  {
  }

  lemma DayOfWeekMeans(v: seq<Value>, w: World)
    requires Defined("DAYOFWEEK", v, w)
    ensures Eval(DayOfWeekTerm(), v, w) == OdbcValue("DAYOFWEEK", v, w)
  {
    var weekday := One(ToDayOfWeek, "", Arg(0));
    assert Eval(weekday, v, w) == Whole(MondayBased(v[0].days));
    assert Eval(Infix('=', weekday, Number(7)), v, w) == Truth(MondayBased(v[0].days) == 7);
    assert Eval(Infix('+', weekday, Number(1)), v, w) == Whole(MondayBased(v[0].days) + 1);
  }

  lemma {:induction false} BlanksAreSpaces(s: string)
    ensures WithoutSpaces(WithoutBlanks(s)) == WithoutSpaces(s) && |WithoutSpaces(s)| <= |WithoutBlanks(s)| <= |s|
    decreases |s|
  {
    if s != "" && s[0] == ' ' {
      BlanksAreSpaces(s[1..]);
    } else {
      SpacesShorten(s);
    }
  }

  lemma {:induction false} SpacesShorten(s: string)
    ensures |WithoutSpaces(s)| <= |s|
  {
    if s != "" && IsRegexSpace(s[0]) {
      SpacesShorten(s[1..]);
    }
  }

  /** LTRIM takes away any leading white space: it does what ODBC asks for if and only if no other white space stands
      behind the leading blanks. */
  lemma LtrimExactly(v: seq<Value>, w: World)
    requires Defined("LTRIM", v, w)
    ensures var rest := WithoutBlanks(v[0].s);
            Eval(LtrimTerm(), v, w) == OdbcValue("LTRIM", v, w) <==> (rest == "" || !IsRegexSpace(rest[0]))
  {
    var s := v[0].s;
    var rest := WithoutBlanks(s);
    BlanksAreSpaces(s);
    assert Eval(LtrimTerm(), v, w) == Chars(WithoutSpaces(s)) by {
      assert "" + WithoutSpaces(s) == WithoutSpaces(s);
    }
    if rest != "" && IsRegexSpace(rest[0]) {
      SpacesShorten(rest[1..]);
    }
  }

  lemma BitLengthMeans(v: seq<Value>, w: World)
    requires Defined("BIT_LENGTH", v, w)
    ensures Eval(BitLengthTerm(), v, w) == OdbcValue("BIT_LENGTH", v, w)
  {
    assert Eval(One(Length, "", Arg(0)), v, w) == Whole(|w.encoded(v[0].s)|);
    assert Eval(Infix('*', One(Length, "", Arg(0)), Number(8)), v, w) == Whole(|w.encoded(v[0].s)| * 8);
  }

  lemma SpaceMeans(v: seq<Value>, w: World)
    requires Defined("SPACE", v, w)
    ensures Eval(SpaceTerm(), v, w) == OdbcValue("SPACE", v, w)
  {
    RepeatedSpaces(v[0].n);
  }

  lemma CotMeans(v: seq<Value>, w: World)
    requires Defined("COT", v, w)
    ensures Eval(CotTerm(), v, w) == OdbcValue("COT", v, w)
  {
    assert Eval(One(Cos, "", Arg(0)), v, w) == Fraction(w.cosine(v[0].x));
    assert Eval(One(Sin, " ", Arg(0)), v, w) == Fraction(w.sine(v[0].x));
  }

  lemma DayNameMeans(v: seq<Value>, w: World)
    requires Defined("DAYNAME", v, w)
    ensures Eval(NameTerm("weekday"), v, w) == OdbcValue("DAYNAME", v, w)
  {
    assert MondayBased(v[0].days) % 7 == Weekday(v[0].days);
    assert Eval(NameTerm("weekday"), v, w) == Chars(w.weekday(MondayBased(v[0].days) % 7));
  }

  lemma MonthNameMeans(v: seq<Value>, w: World)
    requires Defined("MONTHNAME", v, w)
    ensures Eval(NameTerm("month"), v, w) == OdbcValue("MONTHNAME", v, w)
  {
    assert Eval(NameTerm("month"), v, w) == Chars(w.monthOf(v[0].days));
  }

  /** A rewritten function becomes the text of a term whose value is that of the function, for all values of its
      arguments that ODBC defines it for; for LTRIM this holds as LtrimExactly says. */
  lemma RewriteMeans(name: string, a: seq<string>, v: seq<Value>, w: World)
    requires |a| == Arity(name) > 0 && Defined(name, v, w)
    requires name == "LTRIM" ==> WithoutBlanks(v[0].s) == "" || !IsRegexSpace(WithoutBlanks(v[0].s)[0])
    ensures Rewrite(name, a) == Spelled(TermOf(name), a) && Eval(TermOf(name), v, w) == OdbcValue(name, v, w)
  {
    RewriteSpelled(name, a);
    hide Rewrite, Spelled, Eval, OdbcValue, BitLengthTerm, DifferenceTerm, InsertTerm, SpaceTerm, CotTerm, NameTerm,
         LtrimTerm, DayOfWeekTerm, WithoutBlanks, IsRegexSpace, Defined;
    if name == "DIFFERENCE" {
      DifferenceMeans(v, w);
    } else if name == "INSERT" {
      InsertMeans(v, w);
    } else if name == "LTRIM" {
      LtrimExactly(v, w);
    } else if name == "DAYOFWEEK" {
      DayOfWeekMeans(v, w);
    } else if name == "BIT_LENGTH" {
      BitLengthMeans(v, w);
    } else if name == "SPACE" {
      SpaceMeans(v, w);
    } else if name == "COT" {
      CotMeans(v, w);
    } else if name == "DAYNAME" {
      DayNameMeans(v, w);
    } else {
      MonthNameMeans(v, w);
    }
  }

  // -------- LOCATE and TIMESTAMPADD

  predicate CanLocate(v: seq<Value>) {
    && 2 <= |v| <= 3 && v[0].Chars? && v[1].Chars?
    && (|v| == 3 ==> v[2].Whole? && 1 <= v[2].n <= U64_MAX)
  }

  function Located(v: seq<Value>): nat
    requires CanLocate(v)
  {
    Where(v[0].s, v[1].s, if |v| == 2 then 1 else v[2].n)
  }

  /** The first position of one text in another, from a position on. */
  lemma LocateMeans(texts: seq<string>, v: seq<Value>, w: World)
    requires |texts| == |v| && CanLocate(v)
    ensures EscapeItems.Position(texts[1], texts[0], if |texts| == 2 then "1" else texts[2])
            == Spelled(LocateTerm(|v|), texts)
    ensures Eval(LocateTerm(|v|), v, w) == Whole(Located(v))
  {
    LocateSpelled(texts);
    var start := if |v| == 2 then Number(1) else Arg(2);
    assert Eval(start, v, w) == Whole(if |v| == 2 then 1 else v[2].n);
    assert Eval(Two(AccurateCast, ",", start, Quote("UInt64")), v, w) == Eval(start, v, w);
  }

  lemma LocateSpelled(texts: seq<string>)
    requires 2 <= |texts| <= 3
    ensures EscapeItems.Position(texts[1], texts[0], if |texts| == 2 then "1" else texts[2])
            == Spelled(LocateTerm(|texts|), texts)
  {
    hide Spelled, FnName;
    var start := if |texts| == 2 then Number(1) else Arg(2);
    var offset := if |texts| == 2 then "1" else texts[2];
    StartSpelled(texts, start, offset);
    ArgSpelled(texts, 0);
    ArgSpelled(texts, 1);
    var cast := Two(AccurateCast, ",", start, Quote("UInt64"));
    PositionSpelled(cast, texts);
    LocateText(texts[1], texts[0], offset);
  }

  lemma PositionSpelled(cast: Term, texts: seq<string>)
    ensures Spelled(Three(Position, ",", Arg(1), Arg(0), cast), texts)
            == "position(" + Spelled(Arg(1), texts) + "," + Spelled(Arg(0), texts) + "," + Spelled(cast, texts) + ")"
  {
    ThreeSpelled(Position, ",", Arg(1), Arg(0), cast, texts, "position(");
  }

  lemma StartSpelled(texts: seq<string>, start: Term, offset: string)
    requires 2 <= |texts| <= 3 && start == (if |texts| == 2 then Number(1) else Arg(2))
    requires offset == if |texts| == 2 then "1" else texts[2]
    ensures Spelled(Two(AccurateCast, ",", start, Quote("UInt64")), texts)
            == "accurateCast(" + offset + "," + "'UInt64'" + ")"
  {
    UnsignedSpelled(texts);
    hide Spelled, FnName;
    TwoArguments(start, texts, offset);
    AccurateSpelled(start, Quote("UInt64"), texts);
  }

  lemma UnsignedSpelled(texts: seq<string>)
    ensures Spelled(Quote("UInt64"), texts) == "'UInt64'"
  {
    Quoted("UInt64", "'UInt64'");
    hide SqlLiteral;
  }

  lemma TwoArguments(start: Term, texts: seq<string>, offset: string)
    requires 2 <= |texts| <= 3 && start == (if |texts| == 2 then Number(1) else Arg(2))
    requires offset == if |texts| == 2 then "1" else texts[2]
    ensures Spelled(start, texts) == offset
  {
    Digits();
    hide Decimal;
  }

  lemma AccurateSpelled(a: Term, b: Term, texts: seq<string>)
    ensures Spelled(Two(AccurateCast, ",", a, b), texts)
            == "accurateCast(" + Spelled(a, texts) + "," + Spelled(b, texts) + ")"
  {
    TwoSpelled(AccurateCast, ",", a, b, texts, "accurateCast(");
  }

  lemma ArgSpelled(texts: seq<string>, i: nat)
    requires i < |texts|
    ensures Spelled(Arg(i), texts) == texts[i]
  {
  }

  lemma LocateText(haystack: string, needle: string, offset: string)
    ensures "position(" + haystack + "," + needle + "," + ("accurateCast(" + offset + "," + "'UInt64'" + ")") + ")"
            == EscapeItems.Position(haystack, needle, offset)
  {
    assert "," + "accurateCast(" == ",accurateCast(" && "," + "'UInt64'" + ")" + ")" == ",'UInt64'))";
  }

  lemma SpanWords(unit: string)
    requires unit in TimeUnits()
    ensures var word := SpanWord(SpanOf(unit));
            && (unit == "FRAC_SECOND" ==> word == "nanosecond")
            && (unit == "SECOND" ==> word == "second")
            && (unit == "MINUTE" ==> word == "minute")
            && (unit == "HOUR" ==> word == "hour")
            && (unit == "DAY" ==> word == "day")
            && (unit == "WEEK" ==> word == "week")
            && (unit == "MONTH" ==> word == "month")
            && (unit == "QUARTER" ==> word == "quarter")
            && (unit == "YEAR" ==> word == "year")
  {
  }

  lemma FineWords(unit: string)
    requires unit in {"FRAC_SECOND", "SECOND", "MINUTE"}
    ensures UnitLiteral(unit) == SqlLiteral(SpanWord(SpanOf(unit)))
    ensures AddFunction(unit) == FnName(Add(SpanOf(unit)))
  {
    hide FnName, SqlLiteral, SpanOf, SpanWord;
    SpanWords(unit);
    if unit == "FRAC_SECOND" {
      WordSpelled(SpanOf(unit), "nanosecond", "'nanosecond'", "addNanoseconds");
    } else if unit == "SECOND" {
      WordSpelled(SpanOf(unit), "second", "'second'", "addSeconds");
    } else {
      WordSpelled(SpanOf(unit), "minute", "'minute'", "addMinutes");
    }
  }

  lemma CoarseWords(unit: string)
    requires unit in {"HOUR", "DAY", "WEEK"}
    ensures UnitLiteral(unit) == SqlLiteral(SpanWord(SpanOf(unit)))
    ensures AddFunction(unit) == FnName(Add(SpanOf(unit)))
  {
    hide FnName, SqlLiteral, SpanOf, SpanWord;
    SpanWords(unit);
    if unit == "HOUR" {
      WordSpelled(SpanOf(unit), "hour", "'hour'", "addHours");
    } else if unit == "DAY" {
      WordSpelled(SpanOf(unit), "day", "'day'", "addDays");
    } else {
      WordSpelled(SpanOf(unit), "week", "'week'", "addWeeks");
    }
  }

  lemma CalendarWords(unit: string)
    requires unit in {"MONTH", "QUARTER", "YEAR"}
    ensures UnitLiteral(unit) == SqlLiteral(SpanWord(SpanOf(unit)))
    ensures AddFunction(unit) == FnName(Add(SpanOf(unit)))
  {
    hide FnName, SqlLiteral, SpanOf, SpanWord;
    SpanWords(unit);
    if unit == "MONTH" {
      WordSpelled(SpanOf(unit), "month", "'month'", "addMonths");
    } else if unit == "QUARTER" {
      WordSpelled(SpanOf(unit), "quarter", "'quarter'", "addQuarters");
    } else {
      WordSpelled(SpanOf(unit), "year", "'year'", "addYears");
    }
  }

  /** ClickHouse's names for a unit are made from the word for its span. */
  lemma UnitWords(unit: string)
    requires unit in TimeUnits()
    ensures UnitLiteral(unit) == SqlLiteral(SpanWord(SpanOf(unit)))
    ensures AddFunction(unit) == FnName(Add(SpanOf(unit)))
  {
    hide FnName, SqlLiteral, SpanOf, SpanWord, UnitLiteral, AddFunction;
    if unit in {"FRAC_SECOND", "SECOND", "MINUTE"} {
      FineWords(unit);
    } else if unit in {"HOUR", "DAY", "WEEK"} {
      CoarseWords(unit);
    } else {
      CalendarWords(unit);
    }
  }

  lemma WordSpelled(span: Span, word: string, literal: string, add: string)
    requires SpanWord(span) == word && word != "" && '\'' !in word && '\\' !in word
    requires literal == "'" + word + "'" && add == "add" + Capital(word) + "s"
    ensures SqlLiteral(SpanWord(span)) == literal && FnName(Add(span)) == add
  {
    hide SpanWord, Capital;
    NothingEscaped(word);
  }

  /** TIMESTAMPADD moves a moment by so many units. */
  lemma TimestampAddMeans(unit: string, texts: seq<string>, v: seq<Value>, w: World)
    requires unit in TimeUnits() && |texts| == |v| == 3 && v[1].Whole? && v[2].Moment?
    ensures AddFunction(unit) + "(" + texts[2] + ", " + texts[1] + ")" == Spelled(AddTerm(unit), texts)
    ensures Eval(AddTerm(unit), v, w) == Moment(Later(v[2].nanos, v[1].n, SpanOf(unit), w))
  {
    UnitWords(unit);
    hide SpanOf, AddFunction, FnName;
  }

  // -------- escape sequences

  /** The translation of a rewritten function computes, of whatever values the texts of its arguments have, the value
      that ODBC asks for. */
  lemma CallComputes(c: Call, v: seq<Value>, w: World)
    requires FineCall(c) && c.Fn? && Arity(Upper(c.fn)) > 0 && Defined(Upper(c.fn), v, w)
    requires Upper(c.fn) == "LTRIM" ==> WithoutBlanks(v[0].s) == "" || !IsRegexSpace(WithoutBlanks(v[0].s)[0])
    ensures var term := TermOf(Upper(c.fn));
            && Translate(['{'] + PrintedCall(c)) == Done(Spelled(term, Texts(c.args)))
            && Eval(term, v, w) == OdbcValue(Upper(c.fn), v, w)
  {
    hide FineCall, PrintedCall, Translate, Rewrite, TermOf, Spelled, Eval, OdbcValue, Defined, WithoutBlanks,
    IsRegexSpace, Upper, Arity;
    R.TranslatesToMeaning(c);
    CountIsRight(c);
    RewriteMeans(Upper(c.fn), Texts(c.args), v, w);
  }

  lemma CountIsRight(c: Call)
    requires FineCall(c) && c.Fn? && Arity(Upper(c.fn)) > 0
    ensures |Texts(c.args)| == Arity(Upper(c.fn)) && Meaning(c) == Rewrite(Upper(c.fn), Texts(c.args))
  {
    hide Arity, Rewrite, FineArgs, IsCall, FnHead, Upper;
  }

  /** The same for LOCATE: the first position of the first text in the second one. */
  lemma LocateComputes(c: Call, v: seq<Value>, w: World)
    requires CanLocate(v) && c.Fn? && |v| == Count(c.args) && Upper(c.fn) == "LOCATE" && FineCall(c)
    ensures Translate(['{'] + PrintedCall(c)) == Done(Spelled(LocateTerm(|v|), Texts(c.args)))
    ensures Eval(LocateTerm(|v|), v, w) == Whole(Located(v))
  {
    hide FineCall, PrintedCall, Translate, Spelled, Eval, Meaning, EscapeItems.Position, Located;
    R.TranslatesToMeaning(c);
    LocateCount(c);
    LocateMeans(Texts(c.args), v, w);
  }

  lemma LocateCount(c: Call)
    requires FineCall(c) && c.Fn? && Upper(c.fn) == "LOCATE"
    ensures 2 <= Count(c.args) <= 3
    ensures var t := Texts(c.args);
            Meaning(c) == EscapeItems.Position(t[1], t[0], if |t| == 2 then "1" else t[2])
  {
    R.NotRewritten();
    hide Arity, FineArgs, IsCall, FnHead, Upper;
  }

  /** The same for TIMESTAMPADD: a moment that is so many units later. */
  lemma TimestampAddComputes(c: Call, v: seq<Value>, w: World)
    requires FineCall(c) && c.Fn? && Upper(c.fn) == "TIMESTAMPADD"
    requires |v| == 3 && v[1].Whole? && v[2].Moment?
    ensures NameType(Word(c.args.items)).TimeUnit?
    ensures var unit := NameType(Word(c.args.items)).name;
            && Translate(['{'] + PrintedCall(c)) == Done(Spelled(AddTerm(unit), Texts(c.args)))
            && Eval(AddTerm(unit), v, w) == Moment(Later(v[2].nanos, v[1].n, SpanOf(unit), w))
  {
    hide FineCall, PrintedCall, Translate, Spelled, Eval, Meaning, AddFunction, Later, SpanOf;
    R.TranslatesToMeaning(c);
    UnitIsThere(c);
    TimestampAddMeans(NameType(Word(c.args.items)).name, Texts(c.args), v, w);
  }

  lemma UnitIsThere(c: Call)
    requires FineCall(c) && c.Fn? && Upper(c.fn) == "TIMESTAMPADD"
    ensures var unit := NameType(Word(c.args.items));
            && |Texts(c.args)| == 3 && unit.TimeUnit? && unit.name in TimeUnits()
            && Meaning(c) == AddFunction(unit.name) + "(" + Texts(c.args)[2] + ", " + Texts(c.args)[1] + ")"
  {
    R.NotRewritten();
    hide Arity, FineArgs, IsCall, FnHead, Upper, Word, TimeUnits, IsFunction;
  }
}
