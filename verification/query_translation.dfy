/** Queries made of plain text and escape sequences. */
module QueryTranslation {
  import opened Text
  import opened Lexing
  import opened EscapeTranslation
  import opened EscapeProperties
  import opened EscapeItems
  import opened EscapeResults
  import opened EscapeReplacement

  /** Text, and the escape sequence or the parameter behind it. */
  datatype Part = Part(plain: string, call: Call)

  function Written(parts: seq<Part>, last: string): string {
    if parts == [] then last else parts[0].plain + (['{'] + PrintedCall(parts[0].call) + Written(parts[1..], last))
  }

  /** The query in ClickHouse's terms. */
  function Answer(parts: seq<Part>, last: string): string {
    if parts == [] then last else parts[0].plain + (Meaning(parts[0].call) + Answer(parts[1..], last))
  }

  // -------- no braces but those of escape sequences

  /** No token holds a brace. */
  predicate Braceless(i: Item)
    decreases i
  {
    match i
    case List(items) => AllBraceless(items)
    case Escape(call) => CallBraceless(call)
    case _ => Plain(Printed(i))
  }

  predicate AllBraceless(items: Items)
    decreases items
  {
    items.Then? ==> Braceless(items.head) && AllBraceless(items.tail)
  }

  predicate ArgsBraceless(args: Args)
    decreases args
  {
    AllBraceless(args.items) && (args.More? ==> ArgsBraceless(args.rest))
  }

  predicate CallBraceless(c: Call)
    decreases c
  {
    match c
    case Fn(_, _, _, args, _) => ArgsBraceless(args)
    case Copied(_, _, rest) => AllBraceless(rest)
    case Date(_, literal, _) => Plain(literal)
    case _ => true
  }

  predicate FineQuery(parts: seq<Part>, last: string) {
    && Plain(last)
    && forall i :: 0 <= i < |parts| ==> Plain(parts[i].plain) && FineCall(parts[i].call) && CallBraceless(parts[i].call)
  }

  /** Braces are closed behind their opening ones, and no others are closed. */
  ghost predicate Level(s: string) { Depth(s) == 0 && NeverNegative(s) }

  lemma LevelAppend(a: string, b: string)
    requires Level(a) && Level(b)
    ensures Level(a + b)
  {
    hide Depth, NeverNegative;
    NeverNegativeAppend(a, b);
  }

  lemma LevelPlain(s: string)
    requires Plain(s)
    ensures Level(s)
  {
    hide Depth, NeverNegative, Plain;
    PlainDepth(s);
  }

  lemma LevelBraced(s: string)
    requires Level(s)
    ensures Level(['{'] + (s + ['}'])) && Balanced(['{'] + (s + ['}']))
  {
    hide Depth;
    var front := ['{'] + s;
    var t := front + ['}'];
    assert ['{'] + (s + ['}']) == t;
    forall k | 0 < k <= |front| ensures Depth(front[..k]) == 1 + Depth(s[..k - 1]) {
      assert front[..k] == ['{'] + s[..k - 1];
      DepthAppend(['{'], s[..k - 1]);
      OneBrace();
    }
    assert front[..|front|] == front && s[..|s|] == s;
    DepthNext(t, |front|);
    assert t[..|front|] == front && t[..|front| + 1] == t && t[..|t| - 1] == front;
    EmptyDepth();
    forall k | 0 <= k <= |t| ensures Depth(t[..k]) >= 0 {
      if k == 0 {
        assert t[..0] == "";
      } else if k <= |front| {
        assert t[..k] == front[..k];
      } else {
        assert t[..k] == t;
      }
    }
  }

  lemma OneBrace()
    ensures Depth(['{']) == 1
  {
    assert ['{'][..0] == "";
  }

  lemma BlanksPlain(s: string)
    requires Blanks(s)
    ensures Plain(s)
  {
    forall i | 0 <= i < |s| ensures !IsBrace(s[i]) {
      assert IsBlank(s[i]);
    }
  }

  /** Text without braces in front of a level text. */
  lemma LevelBehind(plain: string, rest: string)
    requires Plain(plain) && Level(rest)
    ensures Level(plain + rest)
  {
    hide Level, Plain;
    LevelPlain(plain);
    LevelAppend(plain, rest);
  }

  lemma MarksPlain()
    ensures Plain("(") && Plain(")") && Plain(",") && Plain(":") && Plain("")
  {
  }

  lemma ItemLevel(i: Item, k: Kind)
    requires Fine(i, k) && Braceless(i)
    ensures Level(Printed(i))
    decreases i
  {
    hide Level, Plain, FineCall, FineAll;
    if i.List? {
      MarksPlain();
      AllLevel(i.items, Some(')'), InParentheses);
      LevelPlain(")");
      LevelAppend(PrintedAll(i.items), [')']);
      LevelBehind("(", PrintedAll(i.items) + [')']);
    } else if i.Escape? {
      CallLevel(i.call);
    } else {
      LevelPlain(Printed(i));
    }
  }

  lemma AllLevel(items: Items, next: Option<char>, k: Kind)
    requires FineAll(items, next, k) && AllBraceless(items)
    ensures Level(PrintedAll(items))
    decreases items
  {
    hide Level, Plain, Fine, MayFollow, Braceless, Printed;
    if items == End {
      MarksPlain();
      LevelPlain("");
    } else {
      ItemLevel(items.head, k);
      AllLevel(items.tail, next, k);
      LevelAppend(Printed(items.head), PrintedAll(items.tail));
    }
  }

  lemma ArgsLevel(args: Args)
    requires FineArgs(args) && ArgsBraceless(args)
    ensures Level(PrintedArgs(args))
    decreases args, 0
  {
    hide Level, Plain, FineAll, AllBraceless, PrintedAll;
    MarksPlain();
    if args.Last? {
      AllLevel(args.items, Some(')'), InArgument);
      LevelPlain(")");
      LevelAppend(PrintedAll(args.items), [')']);
    } else {
      AllLevel(args.items, Some(','), InArgument);
      ArgsLevel(args.rest);
      ListLevel(PrintedAll(args.items), PrintedArgs(args.rest));
    }
  }

  lemma ListLevel(first: string, rest: string)
    requires Level(first) && Level(rest)
    ensures Level(first + ([','] + rest))
  {
    hide Level, Plain;
    MarksPlain();
    LevelBehind(",", rest);
    LevelAppend(first, [','] + rest);
  }

  lemma {:induction false} WordLevel(items: Items)
    requires Word(items) != "" && AllBraceless(items)
    ensures Level(PrintedAll(items))
    decreases items
  {
    hide Level, Plain, IsIdentifier;
    if items.head.Blank? {
      WordLevel(items.tail);
    } else {
      BlanksPrinted(items.tail);
      BlanksPlain(PrintedAll(items.tail));
      LevelPlain(PrintedAll(items.tail));
    }
    LevelBehind(Printed(items.head), PrintedAll(items.tail));
  }

  /** The arguments of a well-formed function. */
  lemma FnLevel(name: string, args: Args)
    requires FineFn(name, args) && ArgsBraceless(args)
    ensures Level(PrintedArgs(args))
    decreases args, 1
  {
    hide Level, Plain, FineAll, AllBraceless, PrintedAll, Word, Arity, ConvertType, NameType;
    if name == "CONVERT" && Arity(name) == 0 {
      NoConvertType();
      MarksPlain();
      AllLevel(args.items, Some(','), InArgument);
      WordLevel(args.rest.items);
      LevelPlain(")");
      LevelAppend(PrintedAll(args.rest.items), [')']);
      ListLevel(PrintedAll(args.items), PrintedAll(args.rest.items) + [')']);
    } else if name == "TIMESTAMPADD" && Arity(name) == 0 && !IsCurrentTime(name) {
      NoUnit();
      WordLevel(args.items);
      ArgsLevel(args.rest);
      ListLevel(PrintedAll(args.items), PrintedArgs(args.rest));
    } else {
      ArgsLevel(args);
    }
  }

  /** What stands between the braces. */
  function Between(c: Call): string {
    match c
    case Fn(head, fn, open, args, close) => PrintedHead(head, fn + (open + (['('] + (PrintedArgs(args) + close))))
    case Now(head, fn, close) => PrintedHead(head, fn + close)
    case Copied(head, fn, rest) => PrintedHead(head, fn + PrintedAll(rest))
    case Date(head, literal, close) => PrintedHead(head, literal + close)
    case Variable(lead, name, gap, typeName) => lead + (name + (gap + ([':'] + typeName)))
  }

  lemma PrintedBetween(c: Call)
    ensures PrintedCall(c) == Between(c) + ['}']
  {
    hide PrintedArgs, PrintedAll, PrintedHead;
    match c {
      case Fn(head, fn, open, args, close) =>
        var list := PrintedArgs(args);
        assert fn + (open + (['('] + (list + (close + ['}'])))) == fn + (open + (['('] + (list + close))) + ['}'];
        HeadBehind(head, fn + (open + (['('] + (list + close))), ['}']);
      case Now(head, fn, close) =>
        assert fn + (close + ['}']) == fn + close + ['}'];
        HeadBehind(head, fn + close, ['}']);
      case Copied(head, fn, rest) =>
        assert fn + (PrintedAll(rest) + ['}']) == fn + PrintedAll(rest) + ['}'];
        HeadBehind(head, fn + PrintedAll(rest), ['}']);
      case Date(head, literal, close) =>
        assert literal + (close + ['}']) == literal + close + ['}'];
        HeadBehind(head, literal + close, ['}']);
      case Variable(lead, name, gap, typeName) =>
        assert lead + (name + (gap + ([':'] + (typeName + ['}']))))
               == lead + (name + (gap + ([':'] + typeName))) + ['}'];
    }
  }

  lemma HeadLevel(head: Head, rest: string)
    requires FineHead(head) && Level(rest)
    ensures Level(PrintedHead(head, rest))
  {
    hide Level, Plain, IsIdentifier, Blanks;
    BlanksPlain(head.lead);
    BlanksPlain(head.gap);
    WordPlain(head.word);
    LevelBehind(head.gap, rest);
    LevelBehind(head.word, head.gap + rest);
    LevelBehind(head.lead, head.word + (head.gap + rest));
  }

  lemma WordPlain(s: string)
    requires IsIdentifier(s)
    ensures Plain(s)
  {
    forall i | 0 <= i < |s| ensures !IsBrace(s[i]) {
      assert IsIdentPart(s[i]);
    }
  }

  /** A word, blanks, and a level text. */
  lemma WordedLevel(word: string, blanks: string, rest: string)
    requires IsIdentifier(word) && Blanks(blanks) && Level(rest)
    ensures Level(word + (blanks + rest))
  {
    hide Level, Plain, IsIdentifier, Blanks;
    WordPlain(word);
    BlanksPlain(blanks);
    LevelBehind(blanks, rest);
    LevelBehind(word, blanks + rest);
  }

  lemma FnBetween(fn: string, open: string, args: Args, close: string)
    requires IsIdentifier(fn) && Blanks(open) && Blanks(close) && FineFn(Upper(fn), args) && ArgsBraceless(args)
    ensures Level(fn + (open + (['('] + (PrintedArgs(args) + close))))
    decreases args, 2
  {
    hide Level, Plain, IsIdentifier, Blanks, FineFn, ArgsBraceless, PrintedArgs;
    FnLevel(Upper(fn), args);
    BlanksPlain(close);
    LevelPlain(close);
    LevelAppend(PrintedArgs(args), close);
    MarksPlain();
    LevelBehind("(", PrintedArgs(args) + close);
    WordedLevel(fn, open, ['('] + (PrintedArgs(args) + close));
  }

  lemma VariableBetween(lead: string, name: string, gap: string, typeName: string)
    requires Blanks(lead) && IsIdentifier(name) && Blanks(gap) && IsTypeText(typeName)
    ensures Level(lead + (name + (gap + ([':'] + typeName))))
  {
    hide Level, Plain, IsIdentifier, Blanks, IsTypeText;
    TypeTextIsPlain(typeName);
    LevelPlain(typeName);
    MarksPlain();
    LevelBehind(":", typeName);
    WordedLevel(name, gap, [':'] + typeName);
    BlanksPlain(lead);
    LevelBehind(lead, name + (gap + ([':'] + typeName)));
  }

  lemma TypeTextIsPlain(s: string)
    requires IsTypeText(s)
    ensures Plain(s)
  {
    forall i | 0 <= i < |s| ensures !IsBrace(s[i]) {
      assert IsTypeChar(s[i]);
    }
  }

  lemma CallWords(c: Call)
    requires FineCall(c)
    ensures match c
            case Fn(head, fn, _, _, _) => FineHead(head) && IsIdentifier(fn)
            case Now(head, fn, _) => FineHead(head) && IsIdentifier(fn)
            case Copied(head, fn, _) => FineHead(head) && IsIdentifier(fn)
            case Date(head, _, _) => FineHead(head)
            case Variable(_, name, _, _) => IsIdentifier(name)
  {
    hide Plain, IsIdentifier, FineFn, IsFunction, IsTypeText, Blanks, FineAll, Arity, Target;
  }

  /** An escape sequence with its braces is a segment of its own. */
  lemma CallLevel(c: Call)
    requires FineCall(c) && CallBraceless(c)
    ensures Level(['{'] + PrintedCall(c)) && Balanced(['{'] + PrintedCall(c))
    decreases c
  {
    hide Level, Plain, IsIdentifier, IsCall, FineFn, ArgsBraceless, PrintedArgs, IsLiteral, IsTypeText, Balanced,
         IsParameterName, Blanks, PrintedHead, PrintedCall, FineHead, FnHead, FineAll, AllBraceless, PrintedAll,
         MayFollow, Arity, Target;
    CallWords(c);
    match c {
      case Fn(head, fn, open, args, close) =>
        FnBetween(fn, open, args, close);
        HeadLevel(head, fn + (open + (['('] + (PrintedArgs(args) + close))));
      case Now(head, fn, close) =>
        BlanksPlain(close);
        LevelPlain(close);
        WordPlain(fn);
        LevelBehind(fn, close);
        HeadLevel(head, fn + close);
      case Copied(head, fn, rest) =>
        AllLevel(rest, Some('}'), InCopied);
        WordPlain(fn);
        LevelBehind(fn, PrintedAll(rest));
        HeadLevel(head, fn + PrintedAll(rest));
      case Date(head, literal, close) =>
        BlanksPlain(close);
        LevelPlain(close);
        LevelBehind(literal, close);
        HeadLevel(head, literal + close);
      case Variable(lead, name, gap, typeName) => VariableBetween(lead, name, gap, typeName);
    }
    PrintedBetween(c);
    LevelBraced(Between(c));
  }

  // -------- queries

  function PiecesOf(parts: seq<Part>): (pieces: seq<Piece>)
    ensures |pieces| == |parts|
    ensures forall i :: 0 <= i < |parts| ==> pieces[i] == Piece(parts[i].plain, ['{'] + PrintedCall(parts[i].call))
  {
    seq(|parts|, i requires 0 <= i < |parts| => Piece(parts[i].plain, ['{'] + PrintedCall(parts[i].call)))
  }

  lemma {:induction false} WrittenContent(parts: seq<Part>, last: string)
    ensures Written(parts, last) == Content(PiecesOf(parts)) + last
  {
    hide PrintedCall;
    if parts == [] {
      assert "" + last == last;
    } else {
      WrittenContent(parts[1..], last);
      assert PiecesOf(parts)[1..] == PiecesOf(parts[1..]);
      var p, s, more := parts[0].plain, ['{'] + PrintedCall(parts[0].call), Content(PiecesOf(parts[1..]));
      assert p + (s + (more + last)) == p + (s + more) + last;
    }
  }

  lemma {:induction false} AllTranslated(parts: seq<Part>, last: string)
    requires FineQuery(parts, last)
    ensures Translated(PiecesOf(parts)).Done? && Answer(parts, last) == Translated(PiecesOf(parts)).text + last
  {
    hide Plain, FineCall, CallBraceless, PrintedCall, Meaning, Translate;
    if parts == [] {
      assert "" + last == last;
    } else {
      AllTranslated(parts[1..], last);
      TranslatesToMeaning(parts[0].call);
      assert PiecesOf(parts)[1..] == PiecesOf(parts[1..]);
      var p, m, more := parts[0].plain, Meaning(parts[0].call), Translated(PiecesOf(parts[1..])).text;
      assert p + (m + (more + last)) == p + (m + more) + last;
    }
  }

  /** A query of plain text and well-formed escape sequences, in which no literal holds a brace: each sequence is
      replaced by its meaning, whatever is nested in it, and the text around them is copied. */
  lemma QueryTranslated(parts: seq<Part>, last: string)
    requires FineQuery(parts, last)
    ensures var q := Written(parts, last); Replaced(q, CutOf(q)) == Done(Answer(parts, last))
  {
    hide Plain, FineCall, CallBraceless, PrintedCall, Meaning, Translated, CutOf, Balanced, Content, Level;
    var q, c := Written(parts, last), Cut(PiecesOf(parts), last, "");
    WrittenContent(parts, last);
    forall i | 0 <= i < |parts| ensures Balanced(PiecesOf(parts)[i].segment) {
      CallLevel(parts[i].call);
    }
    assert last + "" == last;
    AllTranslated(parts, last);
    AnyCutDecides(q, c);
  }
}
