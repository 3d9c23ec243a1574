/** What the translation of escape sequences comes to: every well-formed tree is translated to its meaning. */
module EscapeResults {
  import opened Text
  import opened Lexing
  import opened EscapeTranslation
  import opened EscapeSequences
  import opened EscapeProperties
  import opened EscapeItems
  import opened QueryParameters

  // -------- looking at texts

  /** A text at which blanks are tokens. */
  function Open(s: string): State { State(s, [], true) }

  /** A text whose blanks are skipped. */
  function Shut(s: string): State { State(s, [], false) }

  /** A delimiter that was looked at. */
  function Queued(c: char, after: string): State {
    match Delimiter(c)
    case Some(typ) => State(after, [Token(typ, [c])], false)
    case None => Shut(after)
  }

  lemma LookHere(s: string)
    ensures var r := Here(s); Look(Open(s)) == Next(r.token, State(s[r.next..], [r.token], true), Open(s[r.next..]))
  {
    hide Look, Here, Lex;
    LexHere(s, true);
    LookAtText(s, true);
  }

  lemma WordBehind(w: string, after: string)
    ensures (w + after)[|w|..] == after
  {
  }

  lemma LookBlank(c: char, s: string)
    requires IsBlank(c)
    ensures Look(Shut([c] + s)) == Look(Shut(s))
  {
    hide Look, Lex, IsBlank;
    LexBlank([c] + s);
    DropFirst(c, s);
    LookAtText([c] + s, false);
    LookAtText(s, false);
    DropMore(c, s, Lex(s, false).next);
  }

  lemma DropMore(c: char, s: string, n: nat)
    requires n <= |s|
    ensures ([c] + s)[n + 1..] == s[n..]
  {
  }

  lemma {:induction false} LookBlanks(blanks: string, s: string)
    requires Blanks(blanks)
    ensures Look(Shut(blanks + s)) == Look(Shut(s))
    decreases |blanks|
  {
    hide Look, IsBlank;
    if blanks == "" {
      assert blanks + s == s;
    } else {
      assert blanks + s == [blanks[0]] + (blanks[1..] + s);
      LookBlank(blanks[0], blanks[1..] + s);
      LookBlanks(blanks[1..], s);
    }
  }

  /** A word behind blanks. */
  lemma LookAtWord(blanks: string, word: string, after: string)
    requires Blanks(blanks) && IsIdentifier(word) && after != "" && MayFollow(Ident(word), Some(after[0]))
    ensures var token := Token(LookupIdent(Upper(word)), word);
            Look(Shut(blanks + (word + after))) == Next(token, State(after, [token], false), Shut(after))
  {
    hide Look, LookupIdent, Blanks;
    NotQuoted(word);
    LookBlanks(blanks, word + after);
    LookWord(word, after, false);
  }

  lemma NotQuoted(word: string)
    requires IsIdentifier(word)
    ensures !EndsQuoted(word)
  {
    assert IsIdentPart(word[|word| - 1]);
  }

  lemma BlankFollows(word: string, gap: string, next: string)
    requires Blanks(gap) && IsIdentifier(word) && next != "" && (gap != "" || MayFollow(Ident(word), Some(next[0])))
    ensures gap + next != "" && MayFollow(Ident(word), Some((gap + next)[0]))
  {
    if gap != "" {
      assert IsBlank((gap + next)[0]);
    }
  }

  /** A delimiter behind blanks. */
  lemma LookAtSign(blanks: string, c: char, after: string)
    requires Blanks(blanks) && Delimiter(c).Some?
    ensures var token := Token(Delimiter(c).value, [c]);
            Look(Shut(blanks + ([c] + after))) == Next(token, Queued(c, after), Shut(after))
  {
    hide Look, Delimiter, Blanks;
    LookBlanks(blanks, [c] + after);
    LookDelimiter(c, after, false);
  }

  lemma MatchQueued(c: char, after: string, typ: Type)
    requires Delimiter(c).Some?
    ensures Matched(Queued(c, after), typ) == if typ == Delimiter(c).value then Some(Shut(after)) else None
    ensures Look(Queued(c, after)) == Next(Token(Delimiter(c).value, [c]), Queued(c, after), Shut(after))
    ensures SkipSpaces(Queued(c, after)) == Queued(c, after)
  {
    hide Look;
    LookAtQueue(Queued(c, after));
  }

  /** Whether or not the blanks in front of it are skipped first, a delimiter is matched. */
  lemma SignMatched(blanks: string, c: char, after: string)
    requires Blanks(blanks) && Delimiter(c).Some?
    ensures Matched(Shut(blanks + ([c] + after)), Delimiter(c).value) == Some(Shut(after))
    ensures Matched(SkipSpaces(Shut(blanks + ([c] + after))), Delimiter(c).value) == Some(Shut(after))
  {
    hide Look, Delimiter, Blanks, Queued;
    LookAtSign(blanks, c, after);
    MatchQueued(c, after, Delimiter(c).value);
    NoDelimiterIsSpace(c);
  }

  lemma NoDelimiterIsSpace(c: char)
    requires Delimiter(c).Some?
    ensures Delimiter(c).value != SPACE
  {
  }

  lemma OpenForArguments(s: string)
    ensures Shut(s).(emit := true) == Open(s)
  {
  }

  // -------- the loops that copy tokens

  ghost function Loop(k: Kind, seg: string, st: State, acc: string): (Outcome, State) {
    if k == InArgument then Argument(seg, st, acc) else Parentheses(seg, st, acc)
  }

  /** An item that is one token is copied. */
  lemma TokenCopied(k: Kind, seg: string, i: Item, after: string, acc: string)
    requires k != InCopied && IsToken(i) && Fine(i, k) && MayFollow(i, FirstOf(after))
    ensures Loop(k, seg, Open(Printed(i) + after), acc) == Loop(k, seg, Open(after), acc + Shown(i))
  {
    hide Look, Here, Argument, Parentheses, Live, Fine, TypeOf, Printed, Inner;
    var s := Printed(i) + after;
    TokenRead(i, k, after);
    TokenType(i, k);
    LookHere(s);
    WordBehind(Printed(i), after);
    if k == InArgument {
      ArgumentRound(seg, Open(s), acc);
    } else {
      ParenthesesStep(seg, Open(s), acc);
    }
  }

  lemma InnerIsNested(seg: string, n: Next)
    requires n.token.typ == LCURLY && n.peeked.queue != []
    ensures Inner(seg, n) == Nested(seg, n.peeked)
  {
    hide Nested, Parentheses;
  }

  lemma NestedRead(seg: string, rest: string)
    ensures var (o, s) := SequenceBody(seg, Shut(rest), "");
            Nested(seg, State(rest, [Token(LCURLY, "{")], true)) == (o, s.(emit := true))
  {
    hide Look, SequenceBody;
    LookAtQueue(State(rest, [Token(LCURLY, "{")], false));
  }

  lemma BraceHere(rest: string)
    ensures Look(Open(['{'] + rest)) == Next(Token(LCURLY, "{"), State(rest, [Token(LCURLY, "{")], true), Open(rest))
  {
    hide Look, Here, Delimiter;
    Signs();
    HereDelimiter('{', rest);
    LookHere(['{'] + rest);
    WordBehind(['{'], rest);
  }

  /** An escape sequence inside a loop. */
  lemma SequenceInside(k: Kind, seg: string, rest: string, acc: string)
    requires k != InCopied
    ensures var (o, s) := SequenceBody(seg, Shut(rest), "");
            Loop(k, seg, Open(['{'] + rest), acc)
            == if o.Done? then Loop(k, seg, s.(emit := true), acc + o.text) else (o, s.(emit := true))
  {
    hide Look, Argument, Parentheses, SequenceBody, Inner;
    BraceHere(rest);
    NestedRead(seg, rest);
    InnerIsNested(seg, Look(Open(['{'] + rest)));
    if k == InArgument {
      ArgumentRound(seg, Open(['{'] + rest), acc);
    } else {
      ParenthesesStep(seg, Open(['{'] + rest), acc);
    }
  }

  lemma ListHere(seg: string, inner: string)
    ensures Look(Open(['('] + inner)).token == Token(LPARENT, "(")
    ensures Inner(seg, Look(Open(['('] + inner))) == Parentheses(seg, Open(inner), "(")
  {
    hide Look, Here, Delimiter, Nested, Parentheses;
    Signs();
    HereDelimiter('(', inner);
    LookHere(['('] + inner);
    WordBehind(['('], inner);
  }

  /** A list in an argument, or in another list, behind its opening parenthesis. */
  lemma ListInside(k: Kind, seg: string, inner: string, acc: string)
    requires k != InCopied
    ensures var (o, s) := Parentheses(seg, Open(inner), "(");
            Loop(k, seg, Open(['('] + inner), acc) == if o.Done? then Loop(k, seg, s, acc + o.text) else (o, s)
  {
    hide Look, Argument, Parentheses, Inner;
    ListHere(seg, inner);
    if k == InArgument {
      ArgumentRound(seg, Open(['('] + inner), acc);
    } else {
      ParenthesesStep(seg, Open(['('] + inner), acc);
    }
  }

  lemma ParenthesesEnd(seg: string, after: string, acc: string)
    ensures Parentheses(seg, Open([')'] + after), acc) == (Done(acc + ")"), Open(after))
  {
    hide Look, Here, Parentheses, Delimiter, Inner;
    Signs();
    HereDelimiter(')', after);
    LookHere([')'] + after);
    WordBehind([')'], after);
    ParenthesesStep(seg, Open([')'] + after), acc);
  }

  lemma ArgumentEnds(seg: string, c: char, after: string, acc: string)
    requires c == ',' || c == ')'
    ensures Argument(seg, Open([c] + after), acc) == (Done(acc), Queued(c, after))
  {
    hide Look, Here, Argument, Delimiter, Inner;
    Signs();
    HereDelimiter(c, after);
    LookHere([c] + after);
    WordBehind([c], after);
    ArgumentRound(seg, Open([c] + after), acc);
  }

  // -------- items

  lemma ItemCopied(k: Kind, seg: string, i: Item, after: string, acc: string)
    requires k != InCopied && Fine(i, k) && MayFollow(i, FirstOf(after))
    ensures Loop(k, seg, Open(Printed(i) + after), acc) == Loop(k, seg, Open(after), acc + Shown(i))
    decreases i, 1
  {
    hide Loop, Parentheses, SequenceBody, FineCall, FineAll, MayFollow, Meaning;
    if i.List? {
      ListCopied(k, seg, i.items, after, acc);
    } else if i.Escape? {
      CallTranslated(seg, i.call, after);
      SequenceInside(k, seg, PrintedCall(i.call) + after, acc);
      assert Printed(i) + after == ['{'] + (PrintedCall(i.call) + after);
      OpenForArguments(after);
    } else {
      TokenCopied(k, seg, i, after, acc);
    }
  }

  lemma ListCopied(k: Kind, seg: string, items: Items, after: string, acc: string)
    requires k != InCopied && FineAll(items, Some(')'), InParentheses)
    ensures Loop(k, seg, Open(Printed(List(items)) + after), acc) == Loop(k, seg, Open(after), acc + Shown(List(items)))
    decreases items, 2
  {
    hide Loop, Parentheses, FineAll, PrintedAll, ShownAll;
    var inner := PrintedAll(items) + ([')'] + after);
    var shown := ShownAll(items);
    assert Printed(List(items)) + after == ['('] + inner;
    InnerCopied(seg, items, after);
    ListInside(k, seg, inner, acc);
    assert "(" + shown + ")" == ['('] + (shown + [')']);
  }

  lemma InnerCopied(seg: string, items: Items, after: string)
    requires FineAll(items, Some(')'), InParentheses)
    ensures Parentheses(seg, Open(PrintedAll(items) + ([')'] + after)), "(")
            == (Done("(" + ShownAll(items) + ")"), Open(after))
    decreases items, 1
  {
    hide Parentheses, FineAll, PrintedAll, ShownAll, Argument;
    ItemsCopied(InParentheses, seg, items, [')'] + after, "(");
    ParenthesesEnd(seg, after, "(" + ShownAll(items));
  }

  /** The loops for arguments and for parentheses turn items, whatever is nested in them, into their meaning. */
  lemma ItemsCopied(k: Kind, seg: string, items: Items, after: string, acc: string)
    requires k != InCopied && FineAll(items, FirstOf(after), k)
    ensures Loop(k, seg, Open(PrintedAll(items) + after), acc) == Loop(k, seg, Open(after), acc + ShownAll(items))
    decreases items, 0
  {
    hide Loop, Fine, MayFollow, Printed, Shown;
    if items == End {
      assert PrintedAll(items) + after == after && acc + ShownAll(items) == acc;
    } else {
      var behind := PrintedAll(items.tail) + after;
      FirstCharacter(items.tail, after);
      assert PrintedAll(items) + after == Printed(items.head) + behind;
      ItemCopied(k, seg, items.head, behind, acc);
      var shown, more := Shown(items.head), ShownAll(items.tail);
      ItemsCopied(k, seg, items.tail, after, acc + shown);
      assert acc + shown + more == acc + (shown + more);
    }
  }

  // -------- arguments

  /** An argument is read up to its comma or to the parenthesis behind it, and comes out in ClickHouse's terms. */
  lemma ArgumentTranslated(seg: string, items: Items, c: char, after: string)
    requires FineAll(items, Some(c), InArgument) && (c == ',' || c == ')')
    ensures Argument(seg, Open(PrintedAll(items) + ([c] + after)), "") == (Done(ShownAll(items)), Queued(c, after))
    decreases items, 2
  {
    hide Argument, PrintedAll, ShownAll, FineAll, Delimiter, Parentheses;
    ItemsCopied(InArgument, seg, items, [c] + after, "");
    assert "" + ShownAll(items) == ShownAll(items);
    ArgumentEnds(seg, c, after, ShownAll(items));
  }

  lemma FirstArgument(seg: string, args: Args, after: string)
    requires FineArgs(args)
    ensures Delimiter(',') == Some(COMMA) && Delimiter(')') == Some(RPARENT)
    ensures Argument(seg, Shut(PrintedArgs(args) + after).(emit := true), "")
            == (Done(Texts(args)[0]),
                if args.Last? then Queued(')', after) else Queued(',', PrintedArgs(args.rest) + after))
    decreases args, 0
  {
    hide Argument, Delimiter, FineAll, PrintedAll, ShownAll, Queued;
    Signs();
    var s := PrintedArgs(args) + after;
    OpenForArguments(s);
    if args.Last? {
      assert s == PrintedAll(args.items) + ([')'] + after);
      ArgumentTranslated(seg, args.items, ')', after);
    } else {
      var rest := PrintedArgs(args.rest) + after;
      assert s == PrintedAll(args.items) + ([','] + rest);
      ArgumentTranslated(seg, args.items, ',', rest);
    }
  }

  /** The arguments of a function that is rewritten from their texts: there must be as many as it takes. */
  lemma ArgumentsExactly(seg: string, args: Args, after: string, count: nat)
    requires FineArgs(args) && count > 0
    ensures var (a, s) := Arguments(seg, Shut(PrintedArgs(args) + after), count);
            if count == Count(args) then a == Args(Texts(args)) && s == Shut(after) else a == ArgsFailed
    decreases args, 1
  {
    hide Argument, Look, Matched, Delimiter, FineAll, PrintedArgs, ShownAll, Shrinks, NoVT, Queued;
    FirstArgument(seg, args, after);
    if args.Last? {
      MatchQueued(')', after, if count == 1 then RPARENT else COMMA);
    } else {
      MatchQueued(',', PrintedArgs(args.rest) + after, if count == 1 then RPARENT else COMMA);
      if count > 1 {
        ArgumentsExactly(seg, args.rest, after, count - 1);
      }
    }
  }

  // -------- single words among the arguments

  /** The blanks behind a word. */
  function Trail(items: Items): string {
    match items
    case Then(Blank(_), tail) => Trail(tail)
    case Then(Ident(_), tail) => PrintedAll(tail)
    case _ => ""
  }

  lemma {:induction false} BlanksPrinted(items: Items)
    requires AllBlank(items)
    ensures Blanks(PrintedAll(items))
    decreases items
  {
    hide IsBlank;
    if items.Then? {
      BlanksPrinted(items.tail);
    }
  }

  /** A word between blanks that are not tokens. */
  lemma WordRead(items: Items, c: char, after: string)
    requires Word(items) != "" && (c == ',' || c == ')')
    ensures var token := Token(NameType(Word(items)), Word(items));
            var behind := Trail(items) + ([c] + after);
            && Blanks(Trail(items))
            && Look(Shut(PrintedAll(items) + ([c] + after))) == Next(token, State(behind, [token], false), Shut(behind))
    decreases items
  {
    hide Look, IsBlank, LookupIdent, IsIdentifier, IsIdentPart;
    if items.head.Blank? {
      var more := PrintedAll(items.tail) + ([c] + after);
      assert PrintedAll(items) + ([c] + after) == [items.head.c] + more;
      LookBlank(items.head.c, more);
      WordRead(items.tail, c, after);
    } else {
      var word, behind := items.head.text, Trail(items) + ([c] + after);
      BlanksPrinted(items.tail);
      assert PrintedAll(items) + ([c] + after) == "" + (word + behind);
      SignFollows(word, c);
      BlankFollows(word, Trail(items), [c] + after);
      LookAtWord("", word, behind);
    }
  }

  lemma SignFollows(word: string, c: char)
    requires c in {',', ')', '(', '}', ':', '\''}
    ensures MayFollow(Ident(word), Some(c))
  {
  }

  lemma WordSkipped(items: Items, c: char, after: string)
    requires Word(items) != "" && (c == ',' || c == ')')
    ensures var token := Token(NameType(Word(items)), Word(items));
            var behind := Trail(items) + ([c] + after);
            Look(SkipSpaces(Shut(PrintedAll(items) + ([c] + after))))
                == Next(token, State(behind, [token], false), Shut(behind))
  {
    hide Look, Word, NameType, PrintedAll, Trail, Blanks;
    WordRead(items, c, after);
    NoSpace(items);
    LookAtQueue(State(Trail(items) + ([c] + after), [Token(NameType(Word(items)), Word(items))], false));
  }

  lemma NoSpace(items: Items)
    ensures NameType(Word(items)) != SPACE
  {
    hide IsFunction, TimeUnits;
  }

  // -------- functions

  lemma FunctionSequence(seg: string, head: Head, call: string)
    requires FnHead(head) && call != ""
    ensures var (o, s) := Function(seg, Shut(head.gap + call));
            SequenceBody(seg, Shut(PrintedHead(head, call)), "")
            == if o.Done? then SequenceBody(seg, s, "" + o.text) else (o, s)
  {
    hide Look, Function, IsIdentifier, LookupIdent, Delimiter, Quoted, Parameter, Blanks, MayFollow;
    BlankFollows(head.word, head.gap, call);
    LookAtWord(head.lead, head.word, head.gap + call);
    FnWord();
    LookAtQueue(State(head.gap + call, [Token(FN, head.word)], false));
  }

  lemma FnWord()
    ensures LookupIdent("FN") == FN
  {
  }

  lemma FunctionWord(gap: string, fn: string, after: string)
    requires Blanks(gap) && IsCall(fn) && after != "" && MayFollow(Ident(fn), Some(after[0]))
    ensures var token := Token(FunctionName(Upper(fn)), fn);
            Look(Shut(gap + (fn + after))) == Next(token, State(after, [token], false), Shut(after))
  {
    hide Look, IsIdentifier, IsFunction, TimeUnits, Blanks, MayFollow;
    LookAtWord(gap, fn, after);
  }

  lemma NotRewritten()
    ensures Arity("LOCATE") == 0 && Arity("TIMESTAMPADD") == 0 && Arity("CONVERT") == 0
    ensures Arity("CURRENT_TIME") == 0 && Arity("CURRENT_TIMESTAMP") == 0
  {
  }

  /** The function behind its name. */
  ghost function Behind(seg: string, name: string, st: State): (Outcome, State) {
    if Arity(name) > 0 then
      match Matched(st, LPARENT)
      case None => (if name == "INSERT" then Done(seg) else Failed, Look(st).peeked)
      case Some(s) =>
        var (args, next) := Arguments(seg, s, Arity(name));
        (Finish(name, args), next)
    else if name == "CONVERT" then Convert(seg, st)
    else if IsCurrentTime(name) then CurrentTime(seg, st)
    else if name == "TIMESTAMPADD" then TimestampAdd(seg, st)
    else if name == "LOCATE" then Locate(seg, st)
    else if Target(name).Some? then Renamed(seg, st.(emit := true), name, Target(name).value)
    else (Done(seg), st)
  }

  lemma FunctionBehind(seg: string, gap: string, fn: string, after: string)
    requires Blanks(gap) && IsCall(fn) && after != "" && MayFollow(Ident(fn), Some(after[0]))
    ensures Function(seg, Shut(gap + (fn + after))) == Behind(seg, Upper(fn), Shut(after))
  {
    hide Look, Matched, Arguments, IsCall, Arity, Target, Convert, CurrentTime, TimestampAdd, Locate, Renamed, Blanks,
         MayFollow;
    FunctionWord(gap, fn, after);
  }

  lemma BehindCases(seg: string, st: State)
    ensures Behind(seg, "CONVERT", st) == Convert(seg, st) && Behind(seg, "TIMESTAMPADD", st) == TimestampAdd(seg, st)
    ensures Behind(seg, "LOCATE", st) == Locate(seg, st)
    ensures Behind(seg, "CURRENT_TIME", st) == CurrentTime(seg, st)
            && Behind(seg, "CURRENT_TIMESTAMP", st) == CurrentTime(seg, st)
  {
    hide Look, Matched, Arguments, Convert, CurrentTime, TimestampAdd, Locate, Renamed, Target, Finish, Arity;
    NotRewritten();
  }

  /** The opening parenthesis of a function, with blanks in front of it. */
  function Bracket(open: string, rest: string): State { Shut(open + (['('] + rest)) }

  lemma BracketMatched(open: string, rest: string)
    requires Blanks(open)
    ensures Matched(Bracket(open, rest), LPARENT) == Some(Shut(rest))
  {
    hide Delimiter, Matched, Blanks;
    Signs();
    SignMatched(open, '(', rest);
  }

  /** A function that is rewritten becomes what its table entry says of the texts of its arguments, and fails if there
      are more or fewer of them than it takes. */
  lemma FunctionRewritten(seg: string, name: string, open: string, args: Args, after: string)
    requires Arity(name) > 0 && Blanks(open) && FineArgs(args)
    ensures var r := Behind(seg, name, Bracket(open, PrintedArgs(args) + after));
            if Count(args) == Arity(name) then r == (Done(Rewrite(name, Texts(args))), Shut(after)) else r.0 == Failed
    decreases args, 2
  {
    hide Look, Matched, Arguments, Rewrite, FineArgs, PrintedArgs, Arity, Bracket, Blanks;
    BracketMatched(open, PrintedArgs(args) + after);
    ArgumentsExactly(seg, args, after, Arity(name));
  }

  lemma ConvertSteps(seg: string, st: State, s: State, text: string, s1: State, s2: State, s3: State)
    requires Matched(st, LPARENT) == Some(s) && Argument(seg, s.(emit := true), "") == (Done(text), s1)
    requires Matched(SkipSpaces(s1), COMMA) == Some(s2)
    requires var n := Look(SkipSpaces(s2));
             n.token.typ == IDENT && ConvertType(n.token.literal).Some?
                 && Matched(SkipSpaces(n.after), RPARENT) == Some(s3)
    ensures Convert(seg, st)
            == (Done("CAST(" + text + " AS " + ConvertType(Look(SkipSpaces(s2)).token.literal).value + ")"), s3)
  {
    hide Look, Matched, Argument, SkipSpaces, ConvertType;
  }

  /** CONVERT becomes a CAST to the type of the table. */
  lemma ConvertTranslated(seg: string, open: string, value: Items, typ: Items, after: string)
    requires Blanks(open) && FineAll(value, Some(','), InArgument)
    requires ConvertType(Word(typ)).Some? && NameType(Word(typ)) == IDENT
    ensures Behind(seg, "CONVERT", Bracket(open, PrintedArgs(More(value, Last(typ))) + after))
            == (Done("CAST(" + ShownAll(value) + " AS " + ConvertType(Word(typ)).value + ")"), Shut(after))
    decreases value, 3
  {
    hide Behind, Look, Matched, Argument, SkipSpaces, Convert, FineAll, PrintedAll, ShownAll, ConvertType, Delimiter,
         Word, NameType, Bracket, Trail, Blanks;
    Signs();
    NoConvertType();
    var end := [')'] + after;
    var rest := PrintedAll(typ) + end;
    var s := PrintedAll(value) + ([','] + rest);
    assert PrintedArgs(More(value, Last(typ))) + after == s;
    BracketMatched(open, s);
    OpenForArguments(s);
    ArgumentTranslated(seg, value, ',', rest);
    MatchQueued(',', rest, COMMA);
    WordRead(typ, ')', after);
    WordSkipped(typ, ')', after);
    SignMatched(Trail(typ), ')', after);
    BehindCases(seg, Bracket(open, s));
    ConvertSteps(seg, Bracket(open, s), Shut(s), ShownAll(value), Queued(',', rest), Shut(rest), Shut(after));
  }

  lemma NoConvertType()
    ensures ConvertType("") == None
  {
  }

  /** CURRENT_TIME and CURRENT_TIMESTAMP become now64 with their precision. */
  lemma CurrentTimeTranslated(seg: string, name: string, open: string, precision: Items, after: string)
    requires Blanks(open) && FineAll(precision, Some(')'), InArgument) && IsCurrentTime(name)
    ensures Behind(seg, name, Bracket(open, PrintedArgs(Last(precision)) + after))
            == (Done("now64(" + ShownAll(precision) + ")"), Shut(after))
    decreases precision, 3
  {
    hide Behind, Look, Matched, Argument, FineAll, PrintedAll, ShownAll, Delimiter, Bracket, Blanks;
    Signs();
    var s := PrintedAll(precision) + ([')'] + after);
    assert PrintedArgs(Last(precision)) + after == s;
    BracketMatched(open, s);
    OpenForArguments(s);
    ArgumentTranslated(seg, precision, ')', after);
    MatchQueued(')', after, RPARENT);
    BehindCases(seg, Bracket(open, s));
  }

  lemma TimestampAddSteps(seg: string, st: State, s: State, s1: State, amount: string, s2: State, s3: State,
      date: string, s4: State, s5: State)
    requires Matched(st, LPARENT) == Some(s) && Look(s).token.typ.TimeUnit? && Matched(Look(s).after, COMMA) == Some(s1)
    requires Argument(seg, s1.(emit := true), "") == (Done(amount), s2) && Matched(SkipSpaces(s2), COMMA) == Some(s3)
    requires Argument(seg, s3.(emit := true), "") == (Done(date), s4) && Matched(SkipSpaces(s4), RPARENT) == Some(s5)
    ensures TimestampAdd(seg, st) == (Done(AddFunction(Look(s).token.typ.name) + "(" + date + ", " + amount + ")"), s5)
  {
    hide Look, Matched, Argument, SkipSpaces, AddFunction;
  }

  /** The unit of TIMESTAMPADD and the comma behind it. */
  lemma UnitRead(seg: string, open: string, args: Args, after: string)
    requires Blanks(open) && args.More? && NameType(Word(args.items)).TimeUnit?
    ensures var s1 := PrintedArgs(args.rest) + after;
            var s := PrintedAll(args.items) + ([','] + s1);
            && PrintedArgs(args) + after == s
            && Matched(Bracket(open, s), LPARENT) == Some(Shut(s))
            && Look(Shut(s)).token == Token(NameType(Word(args.items)), Word(args.items))
            && Matched(Look(Shut(s)).after, COMMA) == Some(Shut(s1))
  {
    hide Look, Matched, PrintedAll, Delimiter, Word, NameType, Bracket, Trail, Blanks;
    Signs();
    NoUnit();
    var s1 := PrintedArgs(args.rest) + after;
    var s := PrintedAll(args.items) + ([','] + s1);
    assert PrintedArgs(args) + after == s;
    BracketMatched(open, s);
    WordRead(args.items, ',', s1);
    SignMatched(Trail(args.items), ',', s1);
  }

  lemma NoUnit()
    ensures NameType("") == IDENT
  {
  }

  /** TIMESTAMPADD becomes the function of its unit, with the date in front of the amount. */
  lemma TimestampAddTranslated(seg: string, open: string, args: Args, after: string)
    requires Blanks(open) && Count(args) == 3 && NameType(Word(args.items)).TimeUnit? && FineArgs(args.rest)
    ensures var t := Texts(args);
            Behind(seg, "TIMESTAMPADD", Bracket(open, PrintedArgs(args) + after))
            == (Done(AddFunction(NameType(Word(args.items)).name) + "(" + t[2] + ", " + t[1] + ")"), Shut(after))
    decreases args, 2
  {
    hide Behind, Look, Matched, Argument, SkipSpaces, TimestampAdd, FineAll, PrintedArgs, ShownAll, Delimiter, Word,
         NameType, AddFunction, Queued, Bracket, Blanks;
    UnitRead(seg, open, args, after);
    var s, s1, s2 := PrintedArgs(args) + after, PrintedArgs(args.rest) + after, PrintedArgs(args.rest.rest) + after;
    FirstArgument(seg, args.rest, after);
    MatchQueued(',', s2, COMMA);
    FirstArgument(seg, args.rest.rest, after);
    MatchQueued(')', after, RPARENT);
    var st, t := Bracket(open, s), Texts(args);
    BehindCases(seg, st);
    TimestampAddSteps(seg, st, Shut(s), Shut(s1), t[1], Queued(',', s2), Shut(s2), t[2], Queued(')', after),
        Shut(after));
  }

  lemma LocateSteps(seg: string, st: State, s: State, needle: string, s1: State, s2: State, haystack: string, s3: State,
                    offset: string, s5: State, s6: State)
    requires Matched(st, LPARENT) == Some(s) && Argument(seg, s.(emit := true), "") == (Done(needle), s1)
    requires Matched(s1, COMMA) == Some(s2) && Argument(seg, s2.(emit := true), "") == (Done(haystack), s3)
    requires if Matched(s3, COMMA).Some? then
               Argument(seg, Matched(s3, COMMA).value.(emit := true), "") == (Done(offset), s5)
             else offset == "1" && s5 == Look(s3).peeked
    requires Matched(s5, RPARENT) == Some(s6)
    ensures Locate(seg, st) == (Done(Position(haystack, needle, offset)), s6)
  {
    hide Look, Matched, Argument;
  }

  /** The first two arguments, and what is behind them. */
  lemma LocateBegins(seg: string, open: string, args: Args, after: string)
    requires Blanks(open) && FineArgs(args) && 2 <= Count(args) <= 3
    ensures Delimiter(',') == Some(COMMA) && Delimiter(')') == Some(RPARENT)
    ensures var s, s1 := Shut(PrintedArgs(args) + after), Shut(PrintedArgs(args.rest) + after);
            && Matched(Bracket(open, s.rest), LPARENT) == Some(s)
            && Argument(seg, s.(emit := true), "") == (Done(Texts(args)[0]), Queued(',', s1.rest))
            && Matched(Queued(',', s1.rest), COMMA) == Some(s1)
            && Argument(seg, s1.(emit := true), "")
               == (Done(Texts(args)[1]),
                   if args.rest.Last? then Queued(')', after) else Queued(',', PrintedArgs(args.rest.rest) + after))
    decreases args, 1
  {
    hide Look, Matched, Argument, FineAll, PrintedArgs, ShownAll, Delimiter, Queued, Bracket, Blanks;
    Signs();
    BracketMatched(open, PrintedArgs(args) + after);
    FirstArgument(seg, args, after);
    MatchQueued(',', PrintedArgs(args.rest) + after, COMMA);
    FirstArgument(seg, args.rest, after);
  }

  lemma LocateTwo(seg: string, open: string, args: Args, after: string)
    requires Blanks(open) && FineArgs(args) && Count(args) == 2
    ensures Locate(seg, Bracket(open, PrintedArgs(args) + after))
            == (Done(Position(Texts(args)[1], Texts(args)[0], "1")), Shut(after))
    decreases args, 2
  {
    hide Look, Matched, Argument, Locate, FineArgs, PrintedArgs, Texts, Delimiter, Queued, Position, Bracket, Blanks;
    LocateBegins(seg, open, args, after);
    MatchQueued(')', after, RPARENT);
    MatchQueued(')', after, COMMA);
    var s, s1, t := PrintedArgs(args) + after, PrintedArgs(args.rest) + after, Texts(args);
    LocateSteps(seg, Bracket(open, s), Shut(s), t[0], Queued(',', s1), Shut(s1), t[1], Queued(')', after), "1",
                Queued(')', after), Shut(after));
  }

  lemma LocateThree(seg: string, open: string, args: Args, after: string)
    requires Blanks(open) && FineArgs(args) && Count(args) == 3
    ensures Locate(seg, Bracket(open, PrintedArgs(args) + after))
            == (Done(Position(Texts(args)[1], Texts(args)[0], Texts(args)[2])), Shut(after))
    decreases args, 2
  {
    hide Look, Matched, Argument, Locate, PrintedArgs, ShownAll, FineAll, Delimiter, Queued, Position, Bracket, Blanks;
    LocateBegins(seg, open, args, after);
    var s, s1, t := PrintedArgs(args) + after, PrintedArgs(args.rest) + after, Texts(args);
    var s2 := PrintedArgs(args.rest.rest) + after;
    MatchQueued(',', s2, COMMA);
    FirstArgument(seg, args.rest.rest, after);
    MatchQueued(')', after, RPARENT);
    LocateSteps(seg, Bracket(open, s), Shut(s), t[0], Queued(',', s1), Shut(s1), t[1], Queued(',', s2), t[2],
                Queued(')', after), Shut(after));
  }

  /** LOCATE takes the text to look for first, and position() takes it second; the offset is 1 when it is missing. */
  lemma LocateTranslated(seg: string, open: string, args: Args, after: string)
    requires Blanks(open) && FineArgs(args) && 2 <= Count(args) <= 3
    ensures var t := Texts(args);
            Behind(seg, "LOCATE", Bracket(open, PrintedArgs(args) + after))
            == (Done(Position(t[1], t[0], if |t| == 2 then "1" else t[2])), Shut(after))
    decreases args, 3
  {
    hide Behind, Locate, FineArgs, PrintedArgs, Texts, Position, Count, Bracket, Blanks;
    BehindCases(seg, Bracket(open, PrintedArgs(args) + after));
    if Count(args) == 2 {
      LocateTwo(seg, open, args, after);
    } else {
      LocateThree(seg, open, args, after);
    }
  }

  // -------- functions that are copied up to the closing brace

  /** An item that is one token. */
  lemma CopiedToken(seg: string, name: string, i: Item, after: string, acc: string)
    requires IsToken(i) && !IsExtract(i) && Fine(i, InCopied) && MayFollow(i, FirstOf(after))
    ensures Renamed(seg, Open(Printed(i) + after), name, acc)
            == Renamed(seg, Open(after), name, acc + CopiedText(name, Token(TypeOf(i), Printed(i))))
  {
    hide Look, Here, Renamed, Live, Fine, TypeOf, Printed, CopiedText;
    var s := Printed(i) + after;
    TokenRead(i, InCopied, after);
    TokenType(i, InCopied);
    OnlyNamesAreFunctions(i);
    LookHere(s);
    WordBehind(Printed(i), after);
    RenamedRound(seg, Open(s), name, acc);
  }

  lemma OnlyNamesAreFunctions(i: Item)
    requires IsToken(i)
    ensures TypeOf(i) == FunctionName("EXTRACT") <==> IsExtract(i)
  {
    hide NameType;
  }

  lemma CopiedSequence(seg: string, name: string, rest: string, acc: string)
    ensures var (o, s) := SequenceBody(seg, Shut(rest), "");
            Renamed(seg, Open(['{'] + rest), name, acc)
            == if o.Done? then Renamed(seg, s.(emit := true), name, acc + o.text) else (o, s.(emit := true))
  {
    hide Look, Renamed, SequenceBody;
    BraceHere(rest);
    NestedRead(seg, rest);
    RenamedRound(seg, Open(['{'] + rest), name, acc);
  }

  /** EXTRACT inside another function reads everything up to the closing brace. */
  lemma CopiedExtract(seg: string, name: string, i: Item, after: string, acc: string)
    requires IsExtract(i) && Fine(i, InCopied) && MayFollow(i, FirstOf(after))
    ensures var (o, s) := Renamed(seg, Open(after), "EXTRACT", "EXTRACT");
            Renamed(seg, Open(Printed(i) + after), name, acc)
            == if o.Done? then Renamed(seg, s, name, acc + o.text) else (o, s)
  {
    hide Look, Here, Renamed, Fine, NameType;
    var s := Printed(i) + after;
    TokenRead(i, InCopied, after);
    LookHere(s);
    WordBehind(Printed(i), after);
    ExtractFunction(seg, i.text, after);
    RenamedRound(seg, Open(s), name, acc);
  }

  lemma ExtractFunction(seg: string, text: string, after: string)
    ensures Function(seg, State(after, [Token(FunctionName("EXTRACT"), text)], true))
            == Renamed(seg, Open(after), "EXTRACT", "EXTRACT")
  {
    hide Look, Renamed, Arguments, Convert, CurrentTime, TimestampAdd, Locate, Target, Arity;
    LookAtQueue(State(after, [Token(FunctionName("EXTRACT"), text)], true));
    ExtractStays();
  }

  lemma ExtractStays()
    ensures Arity("EXTRACT") == 0 && Target("EXTRACT") == Some("EXTRACT")
  {
  }

  /** The closing brace, or the end of the text, is left for others. */
  function CopyEnd(rest: string): State {
    if rest == "" then State("", [Token(EOS, "")], false) else State(rest[1..], [Token(RCURLY, "}")], false)
  }

  predicate EndsCopy(rest: string) { rest == "" || rest[0] == '}' }

  lemma CopyStops(seg: string, name: string, rest: string, acc: string)
    requires EndsCopy(rest)
    ensures Renamed(seg, Open(rest), name, acc) == (Done(acc), CopyEnd(rest))
    ensures Renamed(seg, CopyEnd(rest), name, acc) == (Done(acc), CopyEnd(rest))
  {
    hide Look, Here, Renamed, Delimiter;
    Signs();
    EndHere();
    if rest != "" {
      HereDelimiter('}', rest[1..]);
      assert rest == ['}'] + rest[1..];
    }
    LookHere(rest);
    RenamedRound(seg, Open(rest), name, acc);
    LookAtQueue(CopyEnd(rest));
    RenamedRound(seg, CopyEnd(rest), name, acc);
  }

  lemma EndHere()
    ensures Here("") == Lexed(Token(EOS, ""), 0)
  {
  }

  /** Everything up to the closing brace, or to the end of the text, is copied. */
  lemma CopiedItems(seg: string, name: string, items: Items, rest: string, acc: string)
    requires EndsCopy(rest) && FineAll(items, FirstOf(rest), InCopied)
    ensures Renamed(seg, Open(PrintedAll(items) + rest), name, acc)
            == (Done(acc + ShownCopied(items, name)), CopyEnd(rest))
    decreases items, 0
  {
    hide Renamed, Fine, MayFollow, Printed, Shown, EndsCopy, CopyEnd, IsExtract, NameType;
    if items == End {
      assert PrintedAll(items) + rest == rest && acc + ShownCopied(items, name) == acc;
      CopyStops(seg, name, rest, acc);
    } else {
      var behind := PrintedAll(items.tail) + rest;
      FirstCharacter(items.tail, rest);
      assert PrintedAll(items) + rest == Printed(items.head) + behind;
      if IsExtract(items.head) {
        CopiedExtract(seg, name, items.head, behind, acc);
        CopiedItems(seg, "EXTRACT", items.tail, rest, "EXTRACT");
        CopyStops(seg, name, rest, acc + ("EXTRACT" + ShownCopied(items.tail, "EXTRACT")));
      } else {
        CopiedItem(seg, name, items.head, behind, acc);
        var shown, more := CopiedShown(items.head, name), ShownCopied(items.tail, name);
        CopiedItems(seg, name, items.tail, rest, acc + shown);
        assert acc + shown + more == acc + (shown + more);
      }
    }
  }

  /** What an item that is not EXTRACT becomes. */
  function CopiedShown(i: Item, name: string): string {
    if name != "EXTRACT" && i.Ident? && NameType(i.text).TimeUnit? then UnitLiteral(NameType(i.text).name) else Shown(i)
  }

  lemma CopiedItem(seg: string, name: string, i: Item, after: string, acc: string)
    requires Fine(i, InCopied) && MayFollow(i, FirstOf(after)) && !IsExtract(i)
    ensures Renamed(seg, Open(Printed(i) + after), name, acc)
            == Renamed(seg, Open(after), name, acc + CopiedShown(i, name))
    decreases i, 1
  {
    hide Renamed, SequenceBody, FineCall, MayFollow, Meaning, NameType, UnitLiteral, IsExtract, CopiedText;
    if i.Escape? {
      CallTranslated(seg, i.call, after);
      CopiedSequence(seg, name, PrintedCall(i.call) + after, acc);
      assert Printed(i) + after == ['{'] + (PrintedCall(i.call) + after);
      OpenForArguments(after);
    } else {
      CopiedToken(seg, name, i, after, acc);
      TokenShown(i, name);
    }
  }

  lemma TokenShown(i: Item, name: string)
    requires IsToken(i)
    ensures CopiedText(name, Token(TypeOf(i), Printed(i))) == CopiedShown(i, name)
  {
    hide NameType, UnitLiteral;
  }

  /** A function with another name in ClickHouse: behind its new name everything is copied as it is, up to the closing
      brace; time units become string literals, unless EXTRACT stands in front of them. */
  lemma RenamedTranslated(seg: string, name: string, rest: Items, after: string)
    requires IsCopied(name) && FineAll(rest, Some('}'), InCopied)
    ensures Behind(seg, name, Shut(PrintedAll(rest) + (['}'] + after)))
            == (Done(Target(name).value + ShownCopied(rest, name)), State(after, [Token(RCURLY, "}")], false))
    decreases rest, 1
  {
    hide Renamed, FineAll, PrintedAll, ShownCopied, Target, Arity, Arguments, Finish, Convert, CurrentTime,
         TimestampAdd, Locate, Matched, Look;
    OpenForArguments(PrintedAll(rest) + (['}'] + after));
    CopiedItems(seg, name, rest, ['}'] + after, Target(name).value);
    WordBehind(['}'], after);
  }

  // -------- whole sequences

  /** Blanks are skipped between the parts of a sequence. */
  lemma SequenceSkips(seg: string, blanks: string, s: string, acc: string)
    requires Blanks(blanks)
    ensures SequenceBody(seg, Shut(blanks + s), acc) == SequenceBody(seg, Shut(s), acc)
  {
    hide Look, Function, Quoted, Parameter, Blanks;
    LookBlanks(blanks, s);
  }

  /** The closing brace ends the sequence. */
  lemma BraceBehind(seg: string, acc: string, after: string)
    ensures SequenceBody(seg, Shut(['}'] + after), acc) == (Done(acc), Shut(after))
  {
    hide Look, Function, Quoted, Parameter, Delimiter;
    Signs();
    LookDelimiter('}', after, false);
    LookAtQueue(State(after, [Token(RCURLY, "}")], false));
    EndStep(seg, acc, after);
  }

  /** In front of the closing brace of a sequence, whether it was looked at or not. */
  ghost predicate AtBrace(st: State, after: string) {
    || st == State(after, [Token(RCURLY, "}")], false)
    || exists blanks :: Blanks(blanks) && st == Shut(blanks + (['}'] + after))
  }

  lemma SequenceEnds(seg: string, st: State, acc: string, after: string)
    requires AtBrace(st, after)
    ensures SequenceBody(seg, st, acc) == (Done(acc), Shut(after))
  {
    hide SequenceBody, Blanks;
    if st.queue == [] {
      var blanks :| Blanks(blanks) && st == Shut(blanks + (['}'] + after));
      SequenceSkips(seg, blanks, ['}'] + after, acc);
      BraceBehind(seg, acc, after);
    } else {
      EndStep(seg, acc, after);
    }
  }

  lemma MeaningCases(name: string, args: Args)
    requires FineFn(name, args)
    ensures var t, m := Texts(args), FnMeaning(name, args);
            if Arity(name) > 0 then m == Rewrite(name, t)
            else if name == "CONVERT" then
              m == "CAST(" + ShownAll(args.items) + " AS " + ConvertType(Word(args.rest.items)).value + ")"
            else if IsCurrentTime(name) then m == "now64(" + ShownAll(args.items) + ")"
            else if name == "TIMESTAMPADD" then
              m == AddFunction(NameType(Word(args.items)).name) + "(" + t[2] + ", " + t[1] + ")"
            else m == Position(t[1], t[0], if |t| == 2 then "1" else t[2])
  {
    hide FineAll, FineArgs, ShownAll, Word, Rewrite, Arity, ConvertType, NameType, Position, AddFunction;
  }

  /** A function and its arguments. */
  lemma FnTranslated(seg: string, name: string, open: string, args: Args, after: string)
    requires Blanks(open) && FineFn(name, args)
    ensures Behind(seg, name, Bracket(open, PrintedArgs(args) + after)) == (Done(FnMeaning(name, args)), Shut(after))
    decreases args, 4
  {
    hide Behind, FineAll, PrintedArgs, ShownAll, Word, Rewrite, Arity, ConvertType, NameType, FnMeaning, Texts,
         Position, AddFunction, Bracket, Blanks;
    MeaningCases(name, args);
    if Arity(name) > 0 {
      FunctionRewritten(seg, name, open, args, after);
    } else if name == "CONVERT" {
      ConvertTranslated(seg, open, args.items, args.rest.items, after);
    } else if IsCurrentTime(name) {
      CurrentTimeTranslated(seg, name, open, args.items, after);
    } else if name == "TIMESTAMPADD" {
      TimestampAddTranslated(seg, open, args, after);
    } else {
      LocateTranslated(seg, open, args, after);
    }
  }

  /** CURRENT_TIME and CURRENT_TIMESTAMP without parentheses. */
  lemma NowTranslated(seg: string, name: string, close: string, after: string)
    requires IsCurrentTime(name) && Blanks(close)
    ensures Behind(seg, name, Shut(close + (['}'] + after))) == (Done("now64()"), Queued('}', after))
  {
    hide Look, Matched, Argument, Behind, Delimiter, Blanks;
    Signs();
    BehindCases(seg, Shut(close + (['}'] + after)));
    BraceNotMatched(close, after);
  }

  lemma BraceNotMatched(close: string, after: string)
    requires Blanks(close)
    ensures Matched(Shut(close + (['}'] + after)), LPARENT) == None
    ensures Delimiter('}') == Some(RCURLY) && Look(Shut(close + (['}'] + after))).peeked == Queued('}', after)
  {
    hide Look, Delimiter, Blanks;
    Signs();
    LookAtSign(close, '}', after);
  }

  /** {d '...'}, {t '...'} and {ts '...'} become conversions of the literal, whatever it holds. */
  lemma DateTranslated(seg: string, head: Head, literal: string, close: string, after: string)
    requires FineHead(head) && Upper(head.word) in {"D", "T", "TS"} && IsLiteral(literal) && Blanks(close)
    ensures var (before, behind) := DateText(Upper(head.word));
            SequenceBody(seg, Shut(PrintedCall(Date(head, literal, close)) + after), "")
            == (Done(before + literal + behind), Shut(after))
  {
    hide Look, SequenceBody, IsIdentifier, IsLiteral, Quoted, Blanks;
    var end := close + (['}'] + after);
    var rest := literal + end;
    assert PrintedCall(Date(head, literal, close)) + after == PrintedHead(head, rest);
    var (before, behind) := DateText(Upper(head.word));
    DateBody(seg, head, literal, end);
    LiteralConverted(seg, head.gap, literal, before, behind, end);
    var text := before + literal + behind;
    assert "" + text == text;
    assert AtBrace(Shut(end), after);
    SequenceEnds(seg, Shut(end), text, after);
  }

  lemma DateBody(seg: string, head: Head, literal: string, end: string)
    requires IsLiteral(literal) && FineHead(head) && Upper(head.word) in {"D", "T", "TS"}
    ensures var (before, behind) := DateText(Upper(head.word));
            var rest := literal + end;
            SequenceBody(seg, Shut(PrintedHead(head, rest)), "")
                == Quoted(seg, Shut(head.gap + rest), "", before, behind)
  {
    hide Look, IsIdentifier, LookupIdent, Quoted, Function, Parameter, Blanks, Escaped, MayFollow;
    var rest := literal + end;
    SignFollows(head.word, '\'');
    BlankFollows(head.word, head.gap, rest);
    LookAtWord(head.lead, head.word, head.gap + rest);
    DateWords();
    LookAtQueue(State(head.gap + rest, [Token(LookupIdent(Upper(head.word)), head.word)], false));
  }

  lemma DateWords()
    ensures LookupIdent("D") == D && LookupIdent("T") == T && LookupIdent("TS") == TS
  {
  }

  lemma LiteralConverted(seg: string, gap: string, literal: string, before: string, behind: string, end: string)
    requires Blanks(gap) && IsLiteral(literal)
    ensures Quoted(seg, Shut(gap + (literal + end)), "", before, behind)
            == SequenceBody(seg, Shut(end), "" + (before + literal + behind))
  {
    hide Look, Lex, Here, IsLiteral, SequenceBody, Blanks;
    LookBlanks(gap, literal + end);
    LiteralRead(literal, end);
    LexHere(literal + end, false);
    LookAtText(literal + end, false);
    WordBehind(literal, end);
  }

  /** {name:type} is kept. */
  lemma VariableTranslated(seg: string, lead: string, name: string, gap: string, typeName: string, after: string)
    requires Blanks(lead) && IsParameterName(name) && Blanks(gap) && IsTypeText(typeName)
    ensures SequenceBody(seg, Shut(PrintedCall(Variable(lead, name, gap, typeName)) + after), "")
            == (Done(FinalText(name, typeName)), Shut(after))
  {
    hide SequenceBody, IsParameterName, IsTypeText, Parameter, PrintedCall, Blanks;
    var text := ":" + (typeName + ("}" + after));
    VariablePrinted(lead, name, gap, typeName, after);
    NameBody(seg, lead, name, gap, text);
    ParameterSkips(seg, gap, text, name);
    TypeStep(seg, name, typeName, after);
    EndStep(seg, FinalText(name, typeName), after);
  }

  lemma VariablePrinted(lead: string, name: string, gap: string, typeName: string, after: string)
    ensures PrintedCall(Variable(lead, name, gap, typeName)) + after
            == lead + (name + (gap + (":" + (typeName + ("}" + after)))))
  {
  }

  lemma NameBody(seg: string, lead: string, name: string, gap: string, text: string)
    requires Blanks(lead) && IsParameterName(name) && Blanks(gap) && text != "" && text[0] == ':'
    ensures SequenceBody(seg, Shut(lead + (name + (gap + text))), "") == Parameter(seg, Shut(gap + text), "", name)
  {
    hide Look, LookupIdent, Function, Quoted, Parameter, IsIdentifier, Blanks, MayFollow;
    PlainWord(name);
    SignFollows(name, ':');
    BlankFollows(name, gap, text);
    LookAtWord(lead, name, gap + text);
    LookAtQueue(State(gap + text, [Token(LookupIdent(Upper(name)), name)], false));
  }

  lemma ParameterSkips(seg: string, gap: string, text: string, name: string)
    requires Blanks(gap)
    ensures Parameter(seg, Shut(gap + text), "", name) == Parameter(seg, Shut(text), "", name)
  {
    hide Look, SequenceBody, QueryParameter, Blanks;
    LookBlanks(gap, text);
  }

  /** Every well-formed escape sequence, whatever is nested in it, is translated to its meaning, and what stands behind
      it is left. */
  lemma CallTranslated(seg: string, c: Call, after: string)
    requires FineCall(c)
    ensures SequenceBody(seg, Shut(PrintedCall(c) + after), "") == (Done(Meaning(c)), Shut(after))
    decreases c
  {
    hide SequenceBody, FineFn, PrintedCall, FnMeaning, IsIdentifier, IsCall, IsLiteral, Target, FnHead, FineHead,
         Blanks, ShownCopied;
    match c
    case Fn(head, fn, open, args, close) => FnCall(seg, head, fn, open, args, close, after);
    case Now(head, fn, close) => NowCall(seg, head, fn, close, after);
    case Copied(head, fn, rest) => CopiedCall(seg, head, fn, rest, after);
    case Date(head, literal, close) => DateTranslated(seg, head, literal, close, after);
    case Variable(lead, name, gap, typeName) => VariableTranslated(seg, lead, name, gap, typeName, after);
  }

  /** A sequence of a function, once its reader is known to stop at the closing brace. */
  lemma FunctionDone(seg: string, head: Head, fn: string, rest: string, text: string, after: string)
    requires FnHead(head) && IsCall(fn) && rest != "" && MayFollow(Ident(fn), Some(rest[0]))
    requires var (o, s) := Behind(seg, Upper(fn), Shut(rest)); o == Done(text) && AtBrace(s, after)
    ensures SequenceBody(seg, Shut(PrintedHead(head, fn + rest)), "") == (Done(text), Shut(after))
  {
    hide SequenceBody, Function, Behind, IsIdentifier, IsCall, AtBrace, Upper, Blanks, MayFollow;
    FunctionSequence(seg, head, fn + rest);
    HeadGap(head);
    FunctionBehind(seg, head.gap, fn, rest);
    var s := Behind(seg, Upper(fn), Shut(rest)).1;
    assert "" + text == text;
    SequenceEnds(seg, s, text, after);
  }

  lemma HeadGap(head: Head)
    requires FnHead(head)
    ensures Blanks(head.gap)
  {
  }

  lemma FnCall(seg: string, head: Head, fn: string, open: string, args: Args, close: string, after: string)
    requires FineCall(Fn(head, fn, open, args, close))
    ensures SequenceBody(seg, Shut(PrintedCall(Fn(head, fn, open, args, close)) + after), "")
            == (Done(FnMeaning(Upper(fn), args)), Shut(after))
    decreases args, 5
  {
    hide SequenceBody, Behind, FineFn, PrintedArgs, FnMeaning, IsIdentifier, IsCall, Upper, Blanks, FnHead, MayFollow,
         PrintedHead;
    var end := close + (['}'] + after);
    var rest := open + (['('] + (PrintedArgs(args) + end));
    FnPrinted(head, fn, open, args, close, after);
    FnTranslated(seg, Upper(fn), open, args, end);
    assert AtBrace(Shut(end), after);
    CallFollows(fn, open, PrintedArgs(args) + end);
    FunctionDone(seg, head, fn, rest, FnMeaning(Upper(fn), args), after);
  }

  lemma FnPrinted(head: Head, fn: string, open: string, args: Args, close: string, after: string)
    ensures PrintedCall(Fn(head, fn, open, args, close)) + after
            == PrintedHead(head, fn + (open + (['('] + (PrintedArgs(args) + (close + (['}'] + after))))))
  {
    hide PrintedArgs;
    var list := PrintedArgs(args);
    assert fn + (open + (['('] + (list + (close + ['}'])))) + after
           == fn + (open + (['('] + (list + (close + (['}'] + after)))));
    HeadBehind(head, fn + (open + (['('] + (list + (close + ['}'])))), after);
  }

  lemma HeadBehind(head: Head, call: string, after: string)
    ensures PrintedHead(head, call) + after == PrintedHead(head, call + after)
  {
  }

  lemma CallFollows(fn: string, open: string, rest: string)
    requires IsCall(fn) && Blanks(open)
    ensures var s := open + (['('] + rest); s != "" && MayFollow(Ident(fn), Some(s[0]))
  {
    hide MayFollow, IsFunction, IsIdentifier, Blanks;
    SignFollows(fn, '(');
    BlankFollows(fn, open, ['('] + rest);
  }

  lemma NowCall(seg: string, head: Head, fn: string, close: string, after: string)
    requires FineCall(Now(head, fn, close))
    ensures SequenceBody(seg, Shut(PrintedCall(Now(head, fn, close)) + after), "") == (Done("now64()"), Shut(after))
  {
    hide SequenceBody, Behind, IsIdentifier, IsCall, Upper, Blanks, FnHead, MayFollow, PrintedHead, IsCurrentTime,
         Delimiter;
    Signs();
    var end := close + (['}'] + after);
    assert fn + (close + ['}']) + after == fn + end;
    HeadBehind(head, fn + (close + ['}']), after);
    NowTranslated(seg, Upper(fn), close, after);
    CallIsWord(fn);
    SignFollows(fn, '}');
    BlankFollows(fn, close, ['}'] + after);
    FunctionDone(seg, head, fn, end, "now64()", after);
  }

  lemma CallIsWord(fn: string)
    requires IsCall(fn)
    ensures IsIdentifier(fn)
  {
  }

  lemma CopiedCall(seg: string, head: Head, fn: string, rest: Items, after: string)
    requires FineCall(Copied(head, fn, rest))
    ensures SequenceBody(seg, Shut(PrintedCall(Copied(head, fn, rest)) + after), "")
            == (Done(Known(Target(Upper(fn))) + ShownCopied(rest, Upper(fn))), Shut(after))
    decreases rest, 2
  {
    hide SequenceBody, Behind, IsIdentifier, IsCall, Upper, Blanks, FnHead, MayFollow, PrintedHead, FineAll, PrintedAll,
         ShownCopied, Target, Arity;
    var end := PrintedAll(rest) + (['}'] + after);
    assert fn + (PrintedAll(rest) + ['}']) + after == fn + end;
    HeadBehind(head, fn + (PrintedAll(rest) + ['}']), after);
    RenamedTranslated(seg, Upper(fn), rest, after);
    FirstCharacter(rest, ['}'] + after);
    FunctionDone(seg, head, fn, end, Target(Upper(fn)).value + ShownCopied(rest, Upper(fn)), after);
  }

  /** The text of an escape sequence is translated to what it means. */
  lemma TranslatesToMeaning(c: Call)
    requires FineCall(c)
    ensures Translate(['{'] + PrintedCall(c)) == Done(Meaning(c))
  {
    hide Look, SequenceBody, FineCall, PrintedCall, Meaning, Delimiter;
    TranslateBody(PrintedCall(c));
    CallTranslated(['{'] + PrintedCall(c), c, "");
    assert PrintedCall(c) + "" == PrintedCall(c);
  }

  lemma TranslateBody(text: string)
    ensures Translate(['{'] + text) == SequenceBody(['{'] + text, Shut(text), "").0
  {
    hide Look, SequenceBody, Delimiter;
    Signs();
    LookDelimiter('{', text, false);
  }
}
