/** Escape sequences and their arguments as trees, the text of a tree, and how the lexer reads it. */
module EscapeItems {
  import opened Text
  import opened Lexing
  import opened EscapeTranslation
  import opened EscapeProperties

  // -------- trees

  /** A part of an argument: a name, with dots and backticks or without, a number, a string in quotes, a blank, an
      operator with everything up to the next space, a sign, a list in parentheses, or an escape sequence. */
  datatype Item =
    | Ident(text: string) | Numeral(text: string) | Literal(text: string) | Blank(c: char) | Operator(text: string)
    | Sign(c: char) | List(items: Items) | Escape(call: Call)

  datatype Items = End | Then(head: Item, tail: Items)

  datatype Args = Last(items: Items) | More(items: Items, rest: Args)

  /** fn, d, t or ts in any case, with blanks around it. */
  datatype Head = Head(lead: string, word: string, gap: string)

  /** A function with its arguments, one without them, one that is copied up to the closing brace, a date or a time, and
      {name:type}; the texts are runs of blanks. */
  datatype Call =
    | Fn(head: Head, fn: string, open: string, args: Args, close: string)
    | Now(head: Head, fn: string, close: string)
    | Copied(head: Head, fn: string, rest: Items)
    | Date(head: Head, literal: string, close: string)
    | Variable(lead: string, name: string, gap: string, typeName: string)

  function Printed(i: Item): string
    decreases i
  {
    match i
    case Ident(text) => text
    case Numeral(text) => text
    case Literal(text) => text
    case Blank(c) => [c]
    case Operator(text) => text
    case Sign(c) => [c]
    case List(items) => ['('] + (PrintedAll(items) + [')'])
    case Escape(call) => ['{'] + PrintedCall(call)
  }

  function PrintedAll(items: Items): string
    decreases items
  {
    match items
    case End => ""
    case Then(head, tail) => Printed(head) + PrintedAll(tail)
  }

  /** The closing parenthesis included. */
  function PrintedArgs(args: Args): string
    decreases args
  {
    match args
    case Last(items) => PrintedAll(items) + [')']
    case More(items, rest) => PrintedAll(items) + ([','] + PrintedArgs(rest))
  }

  function PrintedHead(head: Head, behind: string): string { head.lead + (head.word + (head.gap + behind)) }

  /** What stands behind the opening brace. */
  function PrintedCall(c: Call): string
    decreases c
  {
    match c
    case Fn(head, fn, open, args, close) =>
      PrintedHead(head, fn + (open + (['('] + (PrintedArgs(args) + (close + ['}'])))))
    case Now(head, fn, close) => PrintedHead(head, fn + (close + ['}']))
    case Copied(head, fn, rest) => PrintedHead(head, fn + (PrintedAll(rest) + ['}']))
    case Date(head, literal, close) => PrintedHead(head, literal + (close + ['}']))
    case Variable(lead, name, gap, typeName) => lead + (name + (gap + ([':'] + (typeName + ['}']))))
  }

  // -------- what may stand where

  /** The loops that copy tokens. */
  datatype Kind = InArgument | InParentheses | InCopied

  predicate Blanks(s: string) { forall i :: 0 <= i < |s| ==> IsBlank(s[i]) }

  /** The end of the word or of the part in backticks at `i`. */
  function PartEnd(t: string, i: nat): (end: Option<nat>)
    requires i <= |t|
    ensures end.Some? ==> i < end.value <= |t|
  {
    if i == |t| then None
    else if t[i] == '`' then BacktickEnd(t, i + 1)
    else if IsIdentStart(t[i]) then Some(WordEnd(t, i + 1))
    else None
  }

  predicate IsNameFrom(t: string, i: nat)
    requires i <= |t|
    decreases |t| - i
  {
    PartEnd(t, i).Some?
    && var e := PartEnd(t, i).value; e == |t| || (t[e] == '.' && IsNameFrom(t, e + 1))
  }

  /** A word is a keyword, a function name, a time unit or none of these; any other name is an identifier. */
  function NameType(t: string): Type { if IsIdentifier(t) then LookupIdent(Upper(t)) else IDENT }

  predicate NumeralFrom(t: string, i: nat, dot: bool)
    decreases |t| - i
  {
    || i == |t|
    || (i < |t| && t[i] == '.' && !dot && NumeralFrom(t, i + 1, true))
    || (i < |t| && IsDigit(t[i]) && NumeralFrom(t, i + 1, dot))
  }

  /** Digits with at most one point; a minus may stand in front of them. */
  predicate IsNumeral(t: string) {
    t != "" && (IsDigit(t[0]) || t[0] == '.' || t[0] == '-') && NumeralFrom(t, 1, t[0] == '.')
  }

  /** Anything without spaces that does not begin like another token. */
  predicate IsOperator(t: string) {
    && t != "" && (forall k :: 0 <= k < |t| ==> !IsSpace(t[k]))
    && t[0] != '\0' && Delimiter(t[0]).None? && !IsIdentStart(t[0]) && !IsDigit(t[0]) && t[0] !in {'\'', '`', '.', '-'}
  }

  /** Quotes around a text in which each quote has a backslash in front of it, and each backslash is followed by another
      character. */
  predicate IsLiteral(t: string) { t != "" && t[0] == '\'' && StringEnd(t, 1, false) == Some(|t|) }

  predicate EndsQuoted(t: string) { t != "" && t[|t| - 1] == '`' }

  /** The lexer ends an item in front of this character; None is the end of the text. */
  predicate MayFollow(i: Item, next: Option<char>) {
    next.Some? ==>
      match i
      case Ident(text) => next.value != '.' && (EndsQuoted(text) || !IsIdentPart(next.value))
      case Numeral(text) =>
        !IsDigit(next.value) && next.value != '.' && (next.value == '-' ==> text != "" && text[0] != '-')
      case Operator(_) => IsSpace(next.value)
      case _ => true
  }

  /** The first character of a text. */
  function FirstOf(s: string): Option<char> { if s == "" then None else Some(s[0]) }

  /** The first character of the items, or the one behind them. */
  function FirstIn(items: Items, next: Option<char>): Option<char> {
    if PrintedAll(items) == "" then next else FirstOf(PrintedAll(items))
  }

  /** The signs that a loop copies. */
  predicate IsSign(c: char, k: Kind) {
    match k
    case InArgument => c in {'?', ':', '}'}
    case InParentheses => c in {'?', ':', '}', ','}
    case InCopied => c in {'?', ':', ',', '(', ')'}
  }

  /** A function that is copied up to its brace is read token by token: it has signs instead of lists. */
  predicate Fine(i: Item, k: Kind)
    decreases i
  {
    match i
    case Ident(text) => IsNameFrom(text, 0)
    case Numeral(text) => IsNumeral(text)
    case Literal(text) => IsLiteral(text)
    case Blank(c) => IsBlank(c)
    case Operator(text) => IsOperator(text)
    case Sign(c) => IsSign(c, k)
    case List(items) => k != InCopied && FineAll(items, Some(')'), InParentheses)
    case Escape(call) => FineCall(call)
  }

  predicate FineAll(items: Items, next: Option<char>, k: Kind)
    decreases items
  {
    items.Then? ==>
      Fine(items.head, k) && MayFollow(items.head, FirstIn(items.tail, next)) && FineAll(items.tail, next, k)
  }

  predicate FineArgs(args: Args)
    decreases args, 0
  {
    match args
    case Last(items) => FineAll(items, Some(')'), InArgument)
    case More(items, rest) => FineAll(items, Some(','), InArgument) && FineArgs(rest)
  }

  predicate IsCall(fn: string) {
    IsIdentifier(fn) && IsFunction(Upper(fn)) && Upper(fn) !in {"FN", "D", "T", "TS"}
  }

  predicate AllBlank(items: Items) {
    items.Then? ==> items.head.Blank? && IsBlank(items.head.c) && AllBlank(items.tail)
  }

  /** A single word with blanks around it. */
  function Word(items: Items): string {
    match items
    case Then(Blank(c), tail) => if IsBlank(c) then Word(tail) else ""
    case Then(Ident(text), tail) => if IsIdentifier(text) && AllBlank(tail) then text else ""
    case _ => ""
  }

  predicate IsCurrentTime(name: string) { name == "CURRENT_TIME" || name == "CURRENT_TIMESTAMP" }

  function Count(args: Args): (n: nat)
    ensures n > 0 && (n == 1 <==> args.Last?)
  {
    if args.Last? then 1 else 1 + Count(args.rest)
  }

  predicate FineFn(name: string, args: Args)
    decreases args, 1
  {
    if Arity(name) > 0 then Count(args) == Arity(name) && FineArgs(args)
    else if name == "CONVERT" then
      && args.More? && args.rest.Last? && FineAll(args.items, Some(','), InArgument)
      && ConvertType(Word(args.rest.items)).Some? && NameType(Word(args.rest.items)) == IDENT
    else if IsCurrentTime(name) then args.Last? && FineArgs(args)
    else if name == "TIMESTAMPADD" then
      Count(args) == 3 && NameType(Word(args.items)).TimeUnit? && FineArgs(args.rest)
    else name == "LOCATE" && 2 <= Count(args) <= 3 && FineArgs(args)
  }

  /** The functions that only get another name. */
  predicate IsCopied(name: string) {
    Arity(name) == 0 && name !in {"CONVERT", "TIMESTAMPADD", "LOCATE"} && !IsCurrentTime(name) && Target(name).Some?
  }

  predicate FineHead(head: Head) { Blanks(head.lead) && IsIdentifier(head.word) && Blanks(head.gap) }

  predicate FnHead(head: Head) { FineHead(head) && Upper(head.word) == "FN" && head.gap != "" }

  predicate FineCall(c: Call)
    decreases c
  {
    match c
    case Fn(head, fn, open, args, close) =>
      FnHead(head) && IsCall(fn) && Blanks(open) && Blanks(close) && FineFn(Upper(fn), args)
    case Now(head, fn, close) => FnHead(head) && IsCall(fn) && Blanks(close) && IsCurrentTime(Upper(fn))
    case Copied(head, fn, rest) =>
      && FnHead(head) && IsCall(fn) && IsCopied(Upper(fn))
      && MayFollow(Ident(fn), FirstIn(rest, Some('}'))) && FineAll(rest, Some('}'), InCopied)
    case Date(head, literal, close) =>
      FineHead(head) && Upper(head.word) in {"D", "T", "TS"} && IsLiteral(literal) && Blanks(close)
    case Variable(lead, name, gap, typeName) =>
      Blanks(lead) && IsParameterName(name) && Blanks(gap) && IsTypeText(typeName)
  }

  // -------- what a tree means

  function Known(o: Option<string>): string { if o.Some? then o.value else "" }

  predicate IsExtract(i: Item) { i.Ident? && NameType(i.text) == FunctionName("EXTRACT") }

  /** The text of an item in ClickHouse's terms. */
  function Shown(i: Item): string
    decreases i
  {
    match i
    case List(items) => ['('] + (ShownAll(items) + [')'])
    case Escape(call) => Meaning(call)
    case _ => Printed(i)
  }

  function ShownAll(items: Items): string
    decreases items
  {
    match items
    case End => ""
    case Then(head, tail) => Shown(head) + ShownAll(tail)
  }

  /** Behind the new name of a function time units become string literals, up to the first EXTRACT. */
  function ShownCopied(items: Items, name: string): string
    decreases items
  {
    match items
    case End => ""
    case Then(head, tail) =>
      if IsExtract(head) then "EXTRACT" + ShownCopied(tail, "EXTRACT")
      else
        var shown := if name != "EXTRACT" && head.Ident? && NameType(head.text).TimeUnit? then
                       UnitLiteral(NameType(head.text).name)
                     else Shown(head);
        shown + ShownCopied(tail, name)
  }

  function Texts(args: Args): (ts: seq<string>)
    ensures |ts| == Count(args)
    decreases args, 0
  {
    match args
    case Last(items) => [ShownAll(items)]
    case More(items, rest) => [ShownAll(items)] + Texts(rest)
  }

  function Position(haystack: string, needle: string, offset: string): string {
    "position(" + haystack + "," + needle + ",accurateCast(" + offset + ",'UInt64'))"
  }

  function DateText(word: string): (string, string) {
    if word == "D" then ("toDate32(", ")")
    else if word == "T" then ("cast(", " as Time)")
    else ("toDateTime64(", ", 9)")
  }

  /** What ClickHouse is told to do for an escape sequence. */
  function Meaning(c: Call): string
    decreases c
  {
    match c
    case Fn(_, fn, _, args, _) => FnMeaning(Upper(fn), args)
    case Now(_, _, _) => "now64()"
    case Copied(_, fn, rest) => Known(Target(Upper(fn))) + ShownCopied(rest, Upper(fn))
    case Date(head, literal, _) => var (before, behind) := DateText(Upper(head.word)); before + literal + behind
    case Variable(_, name, _, typeName) => "{" + name + ":" + typeName + "}"
  }

  function FnMeaning(name: string, args: Args): string
    decreases args, 1
  {
    var t := Texts(args);
    if Arity(name) > 0 then (if |t| == Arity(name) then Rewrite(name, t) else "")
    else if name == "CONVERT" then
      var typ := if args.More? then ConvertType(Word(args.rest.items)) else None;
      "CAST(" + t[0] + " AS " + Known(typ) + ")"
    else if IsCurrentTime(name) then "now64(" + t[0] + ")"
    else if name == "TIMESTAMPADD" then
      var unit := NameType(Word(args.items));
      if unit.TimeUnit? && |t| == 3 then AddFunction(unit.name) + "(" + t[2] + ", " + t[1] + ")" else ""
    else if |t| < 2 then ""
    else Position(t[1], t[0], if |t| == 2 then "1" else t[2])
  }

  // -------- the tokens of items

  predicate IsToken(i: Item) { !i.List? && !i.Escape? }

  function TypeOf(i: Item): Type
    requires IsToken(i)
  {
    match i
    case Ident(text) => NameType(text)
    case Numeral(_) => NUMBER
    case Literal(_) => STRING
    case Blank(_) => SPACE
    case Operator(_) => OTHER
    case Sign(c) => if Delimiter(c).Some? then Delimiter(c).value else OTHER
  }

  lemma {:induction false} WordEndInside(t: string, after: string, i: nat)
    requires i <= |t| && (WordEnd(t, i) < |t| || after == "" || !IsIdentPart(after[0]))
    ensures WordEnd(t + after, i) == WordEnd(t, i)
    decreases |t| - i
  {
    if i < |t| && IsIdentPart(t[i]) {
      WordEndInside(t, after, i + 1);
    }
  }

  lemma {:induction false} BacktickInside(t: string, after: string, i: nat)
    requires i <= |t| && BacktickEnd(t, i).Some?
    ensures BacktickEnd(t + after, i) == BacktickEnd(t, i)
    decreases |t| - i
  {
    if t[i] != '`' {
      BacktickInside(t, after, i + 1);
    }
  }

  lemma PartInside(t: string, after: string, i: nat)
    requires i <= |t| && PartEnd(t, i).Some? && MayFollow(Ident(t), FirstOf(after))
    ensures PartEnd(t + after, i) == PartEnd(t, i)
  {
    hide WordEnd, BacktickEnd;
    if t[i] == '`' {
      BacktickInside(t, after, i + 1);
    } else {
      WordEndInside(t, after, i + 1);
    }
  }

  /** One part of a name. */
  lemma NamePart(s: string, i: nat, plain: bool)
    requires i < |s| && PartEnd(s, i).Some?
    ensures Name(s, i, plain) == NameTail(s, PartEnd(s, i).value, plain && s[i] != '`')
  {
    hide NameTail, WordEnd, BacktickEnd;
  }

  lemma NamePoint(s: string, i: nat, plain: bool)
    requires i < |s| && s[i] == '.'
    ensures NameTail(s, i, plain) == Name(s, i + 1, false)
  {
    hide Name;
  }

  lemma NameStops(s: string, i: nat, plain: bool)
    requires i <= |s| && (i < |s| ==> s[i] != '.')
    ensures NameTail(s, i, plain) == Lexed(Token(if plain then LookupIdent(Upper(s[..i])) else IDENT, s[..i]), i)
  {
    hide Name, LookupIdent;
  }

  lemma {:induction false} NameRead(t: string, after: string, i: nat, plain: bool)
    requires i <= |t| && IsNameFrom(t, i) && MayFollow(Ident(t), FirstOf(after))
    ensures var whole := plain && t[i] != '`' && PartEnd(t, i) == Some(|t|);
            Name(t + after, i, plain) == Lexed(Token(if whole then LookupIdent(Upper(t)) else IDENT, t), |t|)
    decreases |t| - i
  {
    hide LookupIdent, Upper, PartEnd, NameTail, Name, EndsQuoted;
    var s, e := t + after, PartEnd(t, i).value;
    PartInside(t, after, i);
    assert s[..|t|] == t && s[i] == t[i];
    NamePart(s, i, plain);
    if e < |t| {
      assert s[e] == '.';
      NamePoint(s, e, plain && s[i] != '`');
      NameRead(t, after, e + 1, false);
    } else {
      NameStops(s, e, plain && s[i] != '`');
    }
  }

  lemma WholeWord(t: string)
    requires IsNameFrom(t, 0)
    ensures t[0] != '`' && PartEnd(t, 0) == Some(|t|) <==> IsIdentifier(t)
  {
  }

  lemma HereName(s: string)
    requires s != "" && (IsIdentStart(s[0]) || s[0] == '`')
    ensures Here(s) == Name(s, 0, true)
  {
    hide Name;
  }

  lemma IdentRead(t: string, after: string)
    requires IsNameFrom(t, 0) && MayFollow(Ident(t), FirstOf(after))
    ensures Here(t + after) == Lexed(Token(NameType(t), t), |t|)
  {
    hide LookupIdent, Upper, WordEnd, BacktickEnd, Name, Here, IsIdentifier, EndsQuoted;
    assert (t + after)[0] == t[0];
    HereName(t + after);
    NameRead(t, after, 0, true);
    WholeWord(t);
  }

  lemma {:induction false} NumberRead(t: string, after: string, i: nat, dot: bool, minus: bool)
    requires NumeralFrom(t, i, dot)
    requires after == "" || (!IsDigit(after[0]) && after[0] != '.' && (after[0] == '-' ==> !minus))
    ensures i <= |t| && Number(t + after, i, dot, minus) == Lexed(Token(NUMBER, t), |t|)
    decreases |t| - i
  {
    var s := t + after;
    assert s[..|t|] == t;
    if i < |t| {
      assert s[i] == t[i];
      NumberRead(t, after, i + 1, dot || t[i] == '.', minus);
    }
  }

  lemma NumeralRead(t: string, after: string)
    requires IsNumeral(t) && MayFollow(Numeral(t), FirstOf(after))
    ensures Here(t + after) == Lexed(Token(NUMBER, t), |t|)
  {
    hide Number, NumeralFrom, Here;
    var s := t + after;
    assert s[0] == t[0];
    HereNumber(s);
    NumberRead(t, after, 1, t[0] == '.', t[0] == '-');
  }

  lemma {:induction false} OtherRead(t: string, after: string, i: nat)
    requires i <= |t| && (forall k :: 0 <= k < |t| ==> !IsSpace(t[k])) && (after == "" || IsSpace(after[0]))
    ensures OtherEnd(t + after, i) == |t|
    decreases |t| - i
  {
    if i < |t| {
      OtherRead(t, after, i + 1);
    }
  }

  lemma OperatorRead(t: string, after: string)
    requires IsOperator(t) && MayFollow(Operator(t), FirstOf(after))
    ensures Here(t + after) == Lexed(Token(OTHER, t), |t|)
  {
    hide OtherEnd, Number, Name, StringEnd, Delimiter;
    var s := t + after;
    assert s[0] == t[0] && s[..|t|] == t;
    OtherRead(t, after, 0);
    assert !IsBlank(t[0]);
  }

  lemma {:induction false} StringInside(t: string, after: string, i: nat, slash: bool)
    requires i <= |t| && StringEnd(t, i, slash).Some?
    ensures StringEnd(t + after, i, slash) == StringEnd(t, i, slash)
    decreases |t| - i
  {
    if t[i] == '\\' && !slash {
      StringInside(t, after, i + 1, true);
    } else if t[i] != '\'' || slash {
      StringInside(t, after, i + 1, false);
    }
  }

  /** The SQL literal of any value is such a string. */
  lemma SqlLiteralIsLiteral(value: string)
    ensures IsLiteral(SqlLiteral(value))
  {
    hide Escaped, StringEnd;
    StringEndOf("'", value, "");
    assert SqlLiteral(value) == "'" + Escaped(value) + "'" + "";
  }

  lemma LiteralRead(t: string, after: string)
    requires IsLiteral(t)
    ensures Here(t + after) == Lexed(Token(STRING, t), |t|)
  {
    hide Here, StringEnd;
    StringInside(t, after, 1, false);
    assert (t + after)[0] == t[0] && (t + after)[..|t|] == t;
    StringHere(t + after, |t|);
  }

  lemma BlankRead(c: char, after: string)
    requires IsBlank(c)
    ensures Here([c] + after) == Lexed(Token(SPACE, [c]), 1)
  {
    hide Long;
    assert ([c] + after)[..1] == [c];
  }

  /** An item that is one token is read as that token, in front of anything that cannot be part of it. */
  lemma TokenRead(i: Item, k: Kind, after: string)
    requires IsToken(i) && Fine(i, k) && MayFollow(i, FirstOf(after))
    ensures Here(Printed(i) + after) == Lexed(Token(TypeOf(i), Printed(i)), |Printed(i)|)
  {
    hide Here, IsOperator, IsNumeral, IsNameFrom, NameType, Delimiter, IsLiteral, IsBlank, IsSpace, EndsQuoted;
    match i
    case Ident(text) => IdentRead(text, after);
    case Numeral(text) => NumeralRead(text, after);
    case Literal(text) => LiteralRead(text, after);
    case Blank(c) => BlankRead(c, after);
    case Operator(text) => OperatorRead(text, after);
    case Sign(c) =>
      Signs();
      HereDelimiter(c, after);
  }

  lemma Signs()
    ensures Delimiter('?') == Some(PARAM) && Delimiter(':') == Some(COLON) && Delimiter(',') == Some(COMMA)
    ensures Delimiter('(') == Some(LPARENT) && Delimiter(')') == Some(RPARENT)
    ensures Delimiter('{') == Some(LCURLY) && Delimiter('}') == Some(RCURLY)
  {
  }

  /** The type of a token that the loops copy. */
  lemma TokenType(i: Item, k: Kind)
    requires IsToken(i) && Fine(i, k)
    ensures var t := TypeOf(i);
            && t !in {LCURLY, EOS, INVALID} && (if k == InCopied then t != RCURLY else t !in {RPARENT, LPARENT})
            && (k == InArgument ==> t != COMMA) && Live(Token(t, Printed(i)))
  {
    hide IsOperator, IsNumeral, IsNameFrom, IsLiteral, IsIdentifier, Delimiter, LookupIdent;
    Signs();
    if i.Ident? {
      WordIsCopied(Upper(i.text));
    }
    if i.Operator? {
      OperatorIsThere(i.text);
    }
  }

  lemma OperatorIsThere(t: string)
    requires IsOperator(t)
    ensures t != ""
  {
  }

  lemma WordIsCopied(ident: string)
    ensures LookupIdent(ident) !in {RPARENT, COMMA, EOS, INVALID, LPARENT, LCURLY, RCURLY, OTHER}
  {
    hide IsFunction, TimeUnits;
  }

  lemma FirstCharacter(items: Items, behind: string)
    ensures FirstOf(PrintedAll(items) + behind) == FirstIn(items, FirstOf(behind))
  {
  }
}
