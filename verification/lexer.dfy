/** The lexer behind the translation of ODBC escape sequences. */
module Lexing {
  import opened Text

  // vertical tab: a space for isspace(), but not for the switch in NextToken
  const VT: char := 11 as char

  /** FunctionName is FN_<name>, and TimeUnit is SQL_TSI_<name>. */
  datatype Type =
    | INVALID | EOS | SPACE | OTHER
    | IDENT | NUMBER | STRING | PARAM
    | FN | D | T | TS
    | FunctionName(name: string) | TimeUnit(name: string)
    | COMMA | LPARENT | RPARENT | LCURLY | RCURLY | COLON

  datatype Token = Token(typ: Type, literal: string)

  /** A token, and how many characters were read for it, skipped ones included. */
  datatype Lexed = Lexed(token: Token, next: nat)

  // the names of function_declare.h, in their order

  predicate IsLengthName(s: string) {
    s == "ASCII" || s == "BIT_LENGTH" || s == "CHAR" || s == "CHAR_LENGTH" || s == "CHARACTER_LENGTH" || s == "CONCAT"
    || s == "DIFFERENCE" || s == "INSERT" || s == "LCASE"
  }

  predicate IsPartName(s: string) {
    s == "LEFT" || s == "LENGTH" || s == "LOCATE" || s == "LTRIM" || s == "OCTET_LENGTH" || s == "POSITION"
    || s == "REPEAT" || s == "REPLACE" || s == "RIGHT" || s == "RTRIM"
  }

  predicate IsCaseName(s: string) {
    s == "SOUNDEX" || s == "SPACE" || s == "SUBSTRING" || s == "UCASE" || s == "LOWER" || s == "UPPER"
  }

  predicate IsArcName(s: string) {
    s == "ABS" || s == "ACOS" || s == "ASIN" || s == "ATAN" || s == "ATAN2" || s == "CEILING"
  }

  predicate IsCosineName(s: string) {
    s == "COS" || s == "COT" || s == "DEGREES" || s == "EXP" || s == "FLOOR" || s == "LOG" || s == "LOG10"
    || s == "MOD"
  }

  predicate IsPowerName(s: string) {
    s == "PI" || s == "POWER" || s == "RADIANS" || s == "RAND" || s == "ROUND" || s == "SIGN" || s == "SIN"
    || s == "SQRT" || s == "TAN" || s == "TRUNCATE"
  }

  predicate IsNowName(s: string) {
    s == "CURRENT_DATE" || s == "CURRENT_TIME" || s == "CURRENT_TIMESTAMP" || s == "CURDATE" || s == "CURTIME"
    || s == "DAYNAME" || s == "DAYOFMONTH" || s == "DAYOFWEEK" || s == "DAYOFYEAR" || s == "EXTRACT"
  }

  predicate IsClockName(s: string) {
    s == "HOUR" || s == "MINUTE" || s == "MONTH" || s == "MONTHNAME" || s == "NOW" || s == "SECOND"
    || s == "TIMESTAMPADD" || s == "TIMESTAMPDIFF"
  }

  predicate IsCalendarName(s: string) {
    s == "WEEK" || s == "QUARTER" || s == "YEAR" || s == "DATABASE" || s == "IFNULL" || s == "USER" || s == "CONVERT"
  }

  predicate IsFunction(s: string) {
    || IsLengthName(s) || IsPartName(s) || IsCaseName(s) || IsArcName(s) || IsCosineName(s) || IsPowerName(s)
    || IsNowName(s) || IsClockName(s) || IsCalendarName(s)
  }

  function TimeUnits(): set<string> {
    { "FRAC_SECOND", "SECOND", "MINUTE", "HOUR", "DAY", "WEEK", "MONTH", "QUARTER", "YEAR" }
  }

  /** LookupIdent; a function name wins over a time unit of the same name. */
  function LookupIdent(ident: string): Type {
    if ident == "FN" then FN
    else if ident == "D" then D
    else if ident == "T" then T
    else if ident == "TS" then TS
    else if IsFunction(ident) then FunctionName(ident)
    else if "SQL_TSI_" <= ident && ident[8..] in TimeUnits() then TimeUnit(ident[8..])
    else if ident in TimeUnits() then TimeUnit(ident)
    else IDENT
  }

  predicate IsBlank(c: char) {
    c == '\0' || c == ' ' || c == '\t' || c == 12 as char || c == '\n' || c == '\r'
  }

  function Delimiter(c: char): Option<Type> {
    if c == '(' then Some(LPARENT)
    else if c == ')' then Some(RPARENT)
    else if c == '{' then Some(LCURLY)
    else if c == '}' then Some(RCURLY)
    else if c == ',' then Some(COMMA)
    else if c == ':' then Some(COLON)
    else if c == '?' then Some(PARAM)
    else None
  }

  predicate IsIdentStart(c: char) { IsAlpha(c) || c == '_' }

  predicate IsIdentPart(c: char) { IsIdentStart(c) || IsDigit(c) }

  /** Where the quoted string ends, behind its closing quote, or None. */
  function StringEnd(s: string, i: nat, slash: bool): (end: Option<nat>)
    requires i <= |s|
    ensures end.Some? ==> i < end.value <= |s|
    decreases |s| - i
  {
    if i == |s| then None
    else if s[i] == '\\' && !slash then StringEnd(s, i + 1, true)
    else if s[i] == '\'' && !slash then Some(i + 1)
    else StringEnd(s, i + 1, false)
  }

  function BacktickEnd(s: string, i: nat): (end: Option<nat>)
    requires i <= |s|
    ensures end.Some? ==> i < end.value <= |s|
    decreases |s| - i
  {
    if i == |s| then None else if s[i] == '`' then Some(i + 1) else BacktickEnd(s, i + 1)
  }

  function WordEnd(s: string, i: nat): (end: nat)
    requires i <= |s|
    ensures i <= end <= |s| && (forall k :: i <= k < end ==> IsIdentPart(s[k])) && (end < |s| ==> !IsIdentPart(s[end]))
    decreases |s| - i
  {
    if i < |s| && IsIdentPart(s[i]) then WordEnd(s, i + 1) else i
  }

  predicate IsWordType(t: Type) {
    t == INVALID || t == IDENT || t == FN || t == D || t == T || t == TS || t.FunctionName? || t.TimeUnit?
  }

  /** The literal is what was read. */
  predicate Reads(s: string, r: Lexed) { r.next <= |s| && r.token.literal == s[..r.next] }

  /** A dotted name; `plain` says that it has had neither a dot nor a backtick so far. */
  function Name(s: string, i: nat, plain: bool): (r: Lexed)
    requires i <= |s|
    ensures i <= r.next && Reads(s, r) && IsWordType(r.token.typ)
    ensures i < |s| && (s[i] == '`' || IsIdentStart(s[i])) ==> i < r.next
    decreases |s| - i
  {
    if i == |s| then Lexed(Token(IDENT, s[..i]), i)
    else if s[i] == '`' then
      match BacktickEnd(s, i + 1)
      case None => Lexed(Token(INVALID, s), |s|)
      case Some(end) => NameTail(s, end, false)
    else if IsIdentStart(s[i]) then NameTail(s, WordEnd(s, i + 1), plain)
    else Lexed(Token(INVALID, s[..i]), i)
  }

  function NameTail(s: string, i: nat, plain: bool): (r: Lexed)
    requires i <= |s|
    ensures i <= r.next && Reads(s, r) && IsWordType(r.token.typ)
    decreases |s| - i, 0
  {
    hide IsFunction, TimeUnits;
    if i < |s| && s[i] == '.' then Name(s, i + 1, false)
    else Lexed(Token(if plain then LookupIdent(Upper(s[..i])) else IDENT, s[..i]), i)
  }

  function Number(s: string, i: nat, dot: bool, minus: bool): (r: Lexed)
    requires i <= |s|
    ensures i <= r.next && Reads(s, r) && (r.token.typ == NUMBER || r.token.typ == INVALID)
    decreases |s| - i
  {
    if i < |s| && s[i] == '.' then
      if dot then Lexed(Token(INVALID, s[..i]), i) else Number(s, i + 1, true, minus)
    else if i < |s| && s[i] == '-' && minus then Lexed(Token(INVALID, s[..i]), i)
    else if i < |s| && IsDigit(s[i]) then Number(s, i + 1, dot, minus)
    else Lexed(Token(NUMBER, s[..i]), i)
  }

  function OtherEnd(s: string, i: nat): (end: nat)
    requires i <= |s|
    ensures i <= end <= |s|
    decreases |s| - i
  {
    if i < |s| && !IsSpace(s[i]) then OtherEnd(s, i + 1) else i
  }

  /** A literal, a name, a number, or anything else up to the next space. */
  function Long(s: string): (r: Lexed)
    requires s != ""
    ensures Reads(s, r) && r.token.typ != SPACE && r.token.typ != EOS
  {
    if s[0] == '\'' then
      match StringEnd(s, 1, false)
      case None => Lexed(Token(INVALID, s), |s|)
      case Some(end) => Lexed(Token(STRING, s[..end]), end)
    else if IsIdentStart(s[0]) || s[0] == '`' then Name(s, 0, true)
    else if IsDigit(s[0]) || s[0] == '.' || s[0] == '-' then Number(s, 1, s[0] == '.', s[0] == '-')
    else Lexed(Token(OTHER, s[..OtherEnd(s, 0)]), OtherEnd(s, 0))
  }

  /** The token at the head of a text, a blank included. */
  function Here(s: string): (r: Lexed)
    ensures Reads(s, r)
    ensures r.token.typ == SPACE <==> s != "" && IsBlank(s[0])
    ensures r.token.typ == EOS <==> s == ""
  {
    if s == "" then Lexed(Token(EOS, ""), 0)
    else if IsBlank(s[0]) then Lexed(Token(SPACE, s[..1]), 1)
    else if Delimiter(s[0]).Some? then Lexed(Token(Delimiter(s[0]).value, s[..1]), 1)
    else Long(s)
  }

  /** The literal is what was read last, behind the blanks that were skipped. */
  predicate ReadsLast(s: string, r: Lexed) {
    |r.token.literal| <= r.next <= |s| && r.token.literal == s[r.next - |r.token.literal|..r.next]
  }

  /** NextToken on the text that is left. */
  function Lex(s: string, emit: bool): (r: Lexed)
    ensures ReadsLast(s, r)
    ensures emit || r.token.typ != SPACE
    ensures emit ==> r.next == |r.token.literal|
    decreases |s|
  {
    hide Here;
    if s != "" && IsBlank(s[0]) && !emit then
      var r := Lex(s[1..], emit);
      Lexed(r.token, r.next + 1)
    else Here(s)
  }

  // -------- what the tokens of a text are

  /** Blanks are skipped in front of a token unless they are tokens themselves. */
  function Skipped(s: string, emit: bool): (n: nat)
    ensures n <= |s| && (n < |s| ==> emit || !IsBlank(s[n]))
    ensures emit ==> n == 0
    decreases |s|
  {
    if s != "" && IsBlank(s[0]) && !emit then 1 + Skipped(s[1..], emit) else 0
  }

  lemma LexHere(s: string, emit: bool)
    requires s == "" || !IsBlank(s[0]) || emit
    ensures Lex(s, emit) == Here(s)
  {
    hide Here;
  }

  lemma {:induction false} LexSkips(s: string, emit: bool)
    ensures var n, r, h := Skipped(s, emit), Lex(s, emit), Here(s[Skipped(s, emit)..]);
            r.token == h.token && r.next == n + h.next
    decreases |s|
  {
    hide Lex, Here;
    if s != "" && IsBlank(s[0]) && !emit {
      LexSkips(s[1..], emit);
      LexBlank(s);
      assert s[1..][Skipped(s[1..], emit)..] == s[Skipped(s, emit)..];
    } else {
      assert s[0..] == s;
      LexHere(s, emit);
    }
  }

  lemma LexBlank(s: string)
    requires s != "" && IsBlank(s[0])
    ensures var r := Lex(s[1..], false); Lex(s, false) == Lexed(r.token, r.next + 1)
  {
    hide Here;
  }

  lemma FirstToken(s: string)
    ensures Here(s).token.literal == "" <==> s == "" || s[0] == VT
    ensures s != "" && s[0] == VT ==> Here(s).token.typ == OTHER
  {
    hide Name, Number, StringEnd, LookupIdent;
    assert s != "" ==> (OtherEnd(s, 0) == 0 <==> IsSpace(s[0]));
  }

  /** A call of NextToken moves on, or is at the end of the text, or finds a vertical tab behind the blanks:
      that token is empty, and so is the next one, for ever. */
  lemma TokenAdvances(s: string, emit: bool)
    ensures var r := Lex(s, emit);
            && (r.token.literal == "" <==> Skipped(s, emit) == |s| || s[Skipped(s, emit)] == VT)
            && (r.token.typ == EOS <==> Skipped(s, emit) == |s|)
  {
    hide Lex, Here, Skipped;
    LexSkips(s, emit);
    FirstToken(s[Skipped(s, emit)..]);
  }

  /** All tokens of a text with the blanks emitted, up to the end of the text. */
  function Tokens(s: string): (ts: seq<Token>)
    requires VT !in s
    ensures Flatten(Literals(ts)) == s
    decreases |s|
  {
    hide Lex, Here, Flatten;
    FirstToken(s);
    LexHere(s, true);
    if s == "" then
      NoLiterals();
      []
    else
      var r := Lex(s, true);
      var rest := Tokens(s[r.next..]);
      LiteralsOf(r.token, rest);
      [r.token] + rest
  }

  lemma NoLiterals()
    ensures Flatten(Literals([])) == ""
  {
  }

  lemma LiteralsOf(token: Token, rest: seq<Token>)
    ensures Flatten(Literals([token] + rest)) == token.literal + Flatten(Literals(rest))
  {
    assert Literals([token] + rest)[1..] == Literals(rest);
  }

  function Literals(ts: seq<Token>): (ls: seq<string>)
    ensures |ls| == |ts| && forall i :: 0 <= i < |ts| ==> ls[i] == ts[i].literal
  {
    seq(|ts|, i requires 0 <= i < |ts| => ts[i].literal)
  }

  // -------- SQL literals

  /** escapeForSQL, character by character. */
  function Escaped(s: string): string {
    if s == "" then "" else (if s[0] == '\\' || s[0] == '\'' then ['\\', s[0]] else [s[0]]) + Escaped(s[1..])
  }

  /** The value of the text of a literal: a backslash stands for the character behind it. */
  function Unescaped(s: string): string
    decreases |s|
  {
    if s == "" then ""
    else if s[0] == '\\' && |s| > 1 then [s[1]] + Unescaped(s[2..])
    else [s[0]] + Unescaped(s[1..])
  }

  method EscapeForSQL(literal: string) returns (res: string)
    ensures res == Escaped(literal)
  {
    res := "";
    for i := 0 to |literal|
      invariant res + Escaped(literal[i..]) == Escaped(literal)
    {
      var ch := literal[i];
      if ch == '\\' || ch == '\'' {
        res := res + ['\\'];
      }
      res := res + [ch];
      assert literal[i..][1..] == literal[i + 1..];
    }
  }

  /** toSqlQueryValue */
  function SqlLiteral(value: string): string { "'" + Escaped(value) + "'" }

  lemma {:induction false} UnescapedEscaped(s: string)
    ensures Unescaped(Escaped(s)) == s
  {
    if s != "" {
      UnescapedEscaped(s[1..]);
      var rest := Escaped(s[1..]);
      if s[0] == '\\' || s[0] == '\'' {
        assert Escaped(s)[2..] == rest;
      } else {
        assert Escaped(s)[1..] == rest;
      }
    }
  }

  lemma {:induction false} StringEndOf(front: string, s: string, after: string)
    ensures StringEnd(front + Escaped(s) + "'" + after, |front|, false) == Some(|front| + |Escaped(s)| + 1)
    decreases |s|
  {
    var whole := front + Escaped(s) + "'" + after;
    if s != "" {
      var head := if s[0] == '\\' || s[0] == '\'' then ['\\', s[0]] else [s[0]];
      assert whole == front + head + Escaped(s[1..]) + "'" + after;
      StringEndOf(front + head, s[1..], after);
      assert whole[|front|] == head[0];
      if |head| == 2 {
        assert whole[|front| + 1] == head[1];
      }
    }
  }

  /** Whatever the value and whatever follows, its SQL literal is one STRING token, and its text stands for
      the value. */
  lemma LiteralIsOneToken(value: string, after: string, emit: bool)
    ensures Lex(SqlLiteral(value) + after, emit) == Lexed(Token(STRING, SqlLiteral(value)), |SqlLiteral(value)|)
    ensures Unescaped(SqlLiteral(value)[1..|SqlLiteral(value)| - 1]) == value
  {
    hide Escaped, Unescaped, StringEnd, Lex, Here;
    var s := SqlLiteral(value) + after;
    assert s == "'" + Escaped(value) + "'" + after;
    StringEndOf("'", value, after);
    StringHere(s, |SqlLiteral(value)|);
    LexHere(s, emit);
    assert s[..|SqlLiteral(value)|] == SqlLiteral(value);
    UnescapedEscaped(value);
    assert SqlLiteral(value)[1..|SqlLiteral(value)| - 1] == Escaped(value);
  }

  lemma StringHere(s: string, end: nat)
    requires s != "" && s[0] == '\'' && StringEnd(s, 1, false) == Some(end)
    ensures Here(s) == Lexed(Token(STRING, s[..end]), end) && !IsBlank(s[0])
  {
    hide StringEnd, Name, Number, OtherEnd;
  }

  // -------- the lexer object

  /** The text that is left, the tokens that were looked at and not consumed, and the blank mode. */
  datatype State = State(rest: string, queue: seq<Token>, emit: bool)
  {
    /** NextToken */
    function Read(): (Token, State) {
      var r := Lex(rest, emit);
      (r.token, this.(rest := rest[r.next..]))
    }

    /** LookAhead(n): at least n + 1 tokens are queued. */
    function LookingAhead(n: nat): (st: State)
      ensures |st.queue| > n && (|queue| > n ==> st == this)
      decreases n + 1 - |queue|
    {
      if |queue| > n then this
      else
        var (token, st) := Read();
        st.(queue := queue + [token]).LookingAhead(n)
    }

    function Peek(): Token { LookingAhead(0).queue[0] }

    function Consume(): (Token, State) {
      if queue != [] then (queue[0], this.(queue := queue[1..])) else Read()
    }

    /** Consume(expected): an invalid token, and nothing is consumed, when the next token is another one. */
    function Expect(typ: Type): (Token, State) {
      var st := LookingAhead(0);
      if st.queue[0].typ == typ then st.Consume() else (Token(INVALID, ""), st)
    }

    function Match(typ: Type): (bool, State) {
      var st := LookingAhead(0);
      if st.queue[0].typ == typ then (true, st.Consume().1) else (false, st)
    }
  }

  class Lexer {
    const text: string
    var cur: nat
    var readed: seq<Token>
    var emitSpace: bool

    ghost function View(): State
      reads this
    {
      State(if cur <= |text| then text[cur..] else "", readed, emitSpace)
    }

    ghost predicate Valid()
      reads this
    {
      cur <= |text|
    }

    constructor (text: string)
      ensures Valid() && this.text == text && View() == State(text, [], false)
    {
      this.text, cur, readed, emitSpace := text, 0, [], false;
    }

    method MakeToken(typ: Type, len: nat) returns (token: Token)
      requires Valid() && len <= |text| - cur
      modifies `cur
      ensures Valid() && cur == old(cur) + len && token == Token(typ, text[old(cur)..][..len])
    {
      token := Token(typ, text[cur..cur + len]);
      cur := cur + len;
    }

    /** NextToken */
    method NextToken() returns (token: Token)
      requires Valid()
      modifies `cur
      ensures Valid() && cur >= old(cur) && (token, View()) == old(View()).Read()
    {
      SkipBlanks();
      ReadHere(View());
      token := TokenHere();
    }

    static lemma ReadHere(st: State)
      requires st.rest == "" || !IsBlank(st.rest[0]) || st.emit
      ensures st.Read() == (Here(st.rest).token, st.(rest := st.rest[Here(st.rest).next..]))
    {
      hide Here, Lex;
      LexHere(st.rest, st.emit);
    }

    static lemma ReadBlank(st: State)
      requires st.rest != "" && IsBlank(st.rest[0]) && !st.emit
      ensures st.Read() == st.(rest := st.rest[1..]).Read()
    {
      hide Here, Lex;
      LexBlank(st.rest);
    }

    /** The blanks in front of a token, unless they are tokens. */
    method SkipBlanks()
      requires Valid()
      modifies `cur
      ensures Valid() && cur >= old(cur) && (cur < |text| && IsBlank(text[cur]) ==> emitSpace)
      ensures old(View()).Read() == View().Read()
    {
      hide State.Read;
      while cur < |text| && IsBlank(text[cur]) && !emitSpace
        invariant old(cur) <= cur <= |text| && old(View()).Read() == View().Read()
        decreases |text| - cur
      {
        ReadBlank(View());
        assert text[cur..][1..] == text[cur + 1..];
        cur := cur + 1;
      }
    }

    /** The token at a character that is not skipped. */
    method TokenHere() returns (token: Token)
      requires Valid()
      modifies `cur
      ensures Valid() && cur >= old(cur)
      ensures var st := old(View());
              token == Here(st.rest).token && View() == st.(rest := st.rest[Here(st.rest).next..])
    {
      hide Long;
      if cur == |text| {
        return Token(EOS, "");
      }
      var c := text[cur];
      if IsBlank(c) {
        token := MakeToken(SPACE, 1);
      } else if Delimiter(c).Some? {
        token := MakeToken(Delimiter(c).value, 1);
      } else {
        var r := LongToken(text[cur..]);
        token := r.token;
        cur := cur + r.next;
      }
    }

    static method LongToken(s: string) returns (r: Lexed)
      requires s != ""
      ensures r == Long(s)
    {
      hide IsFunction, TimeUnits, Name, Number, StringEnd, OtherEnd, LookupIdent;
      var c := s[0];
      if c == '\'' {
        var end := StringLength(s);
        r := if end.Some? then Lexed(Token(STRING, s[..end.value]), end.value) else Lexed(Token(INVALID, s), |s|);
      } else if IsIdentStart(c) || c == '`' {
        r := NameLength(s);
      } else if IsDigit(c) || c == '.' || c == '-' {
        r := NumberLength(s);
      } else {
        var end := OtherLength(s);
        r := Lexed(Token(OTHER, s[..end]), end);
      }
    }

    static method StringLength(s: string) returns (end: Option<nat>)
      requires s != ""
      ensures end == StringEnd(s, 1, false)
    {
      var i, slash := 1, false;
      while i < |s|
        invariant 1 <= i <= |s| && StringEnd(s, 1, false) == StringEnd(s, i, slash)
      {
        if s[i] == '\\' && !slash {
          slash := true;
        } else if s[i] == '\'' && !slash {
          return Some(i + 1);
        } else {
          slash := false;
        }
        i := i + 1;
      }
      return None;
    }

    /** The end of the word or of the quoted part at `i`, or None when the quotes are not closed. */
    static method PartLength(s: string, i: nat) returns (end: Option<nat>)
      requires i < |s| && (s[i] == '`' || IsIdentStart(s[i]))
      ensures end == if s[i] == '`' then BacktickEnd(s, i + 1) else Some(WordEnd(s, i + 1))
    {
      var k := i + 1;
      if s[i] == '`' {
        while k < |s| && s[k] != '`'
          invariant i < k <= |s| && BacktickEnd(s, i + 1) == BacktickEnd(s, k)
        {
          k := k + 1;
        }
        return if k == |s| then None else Some(k + 1);
      }
      while k < |s| && IsIdentPart(s[k])
        invariant i < k <= |s| && WordEnd(s, i + 1) == WordEnd(s, k)
      {
        k := k + 1;
      }
      return Some(k);
    }

    static method NameLength(s: string) returns (r: Lexed)
      ensures r == Name(s, 0, true)
    {
      hide IsFunction, TimeUnits, LookupIdent, WordEnd, BacktickEnd;
      var i, plain := 0, true;
      while i < |s|
        invariant i <= |s| && Name(s, 0, true) == Name(s, i, plain) && (i > 0 ==> !plain)
        decreases |s| - i
      {
        if s[i] != '`' && !IsIdentStart(s[i]) {
          return Lexed(Token(INVALID, s[..i]), i);
        }
        plain := plain && s[i] != '`';
        var end := PartLength(s, i);
        if end.None? {
          return Lexed(Token(INVALID, s), |s|);
        }
        i := end.value;
        if i < |s| && s[i] == '.' {
          plain := false;
          i := i + 1;
        } else {
          return Lexed(Token(if plain then LookupIdent(Upper(s[..i])) else IDENT, s[..i]), i);
        }
      }
      return Lexed(Token(IDENT, s[..i]), i);
    }

    static method NumberLength(s: string) returns (r: Lexed)
      requires s != ""
      ensures r == Number(s, 1, s[0] == '.', s[0] == '-')
    {
      var dot, minus := s[0] == '.', s[0] == '-';
      var i := 1;
      while i < |s|
        invariant 1 <= i <= |s| && Number(s, 1, s[0] == '.', minus) == Number(s, i, dot, minus)
      {
        if s[i] == '.' {
          if dot {
            return Lexed(Token(INVALID, s[..i]), i);
          }
          dot := true;
        } else if s[i] == '-' && minus {
          return Lexed(Token(INVALID, s[..i]), i);
        } else if !IsDigit(s[i]) {
          break;
        }
        i := i + 1;
      }
      return Lexed(Token(NUMBER, s[..i]), i);
    }

    static method OtherLength(s: string) returns (end: nat)
      ensures end == OtherEnd(s, 0)
    {
      end := 0;
      while end < |s| && !IsSpace(s[end])
        invariant end <= |s| && OtherEnd(s, 0) == OtherEnd(s, end)
      {
        end := end + 1;
      }
    }

    method LookAhead(n: nat) returns (token: Token)
      requires Valid()
      modifies `cur, `readed
      ensures Valid() && View() == old(View()).LookingAhead(n) && token == View().queue[n]
    {
      hide Lex;
      while |readed| < n + 1
        invariant Valid() && View().LookingAhead(n) == old(View()).LookingAhead(n)
      {
        var next := NextToken();
        readed := readed + [next];
      }
      return readed[n];
    }

    method Peek() returns (token: Token)
      requires Valid()
      modifies `cur, `readed
      ensures Valid() && View() == old(View()).LookingAhead(0) && token == old(View()).Peek()
    {
      token := LookAhead(0);
    }

    method Consume() returns (token: Token)
      requires Valid()
      modifies `cur, `readed
      ensures Valid() && (token, View()) == old(View()).Consume()
    {
      hide Lex;
      if readed != [] {
        token := readed[0];
        readed := readed[1..];
      } else {
        token := NextToken();
      }
    }

    method ConsumeExpected(expected: Type) returns (token: Token)
      requires Valid()
      modifies `cur, `readed
      ensures Valid() && (token, View()) == old(View()).Expect(expected)
    {
      hide Lex;
      token := LookAhead(0);
      if token.typ == expected {
        token := Consume();
      } else {
        token := Token(INVALID, "");
      }
    }

    method Match(expected: Type) returns (matched: bool)
      requires Valid()
      modifies `cur, `readed
      ensures Valid() && (matched, View()) == old(View()).Match(expected)
    {
      hide Lex;
      var token := LookAhead(0);
      matched := token.typ == expected;
      if matched {
        token := Consume();
      }
    }

    method SetEmitSpaces(value: bool)
      modifies `emitSpace
      ensures View() == old(View()).(emit := value)
    {
      emitSpace := value;
    }
  }
}
