/** The query that is sent: markers replaced by {name:type}, then escape sequences translated. */
module RequestQuery {
  import opened Text
  import opened Lexing
  import opened EscapeTranslation
  import opened EscapeProperties
  import opened EscapeReplacement
  import opened QueryParameters
  import opened ParameterTypes
  import opened QueryTranslation

  // -------- one {name:type}

  /** A name that an escape sequence begins with makes the translation fail. */
  lemma ReservedNameFails(name: string, typeName: string)
    requires IsIdentifier(name) && !IsParameterName(name) && IsTypeName(typeName)
    ensures Translate(FinalText(name, typeName)) == Failed
  {
    hide Look, SequenceBody, IsIdentifier, IsParameterName, IsTypeName, LookupIdent;
    var seg, text := FinalText(name, typeName), ":" + (typeName + "}");
    assert seg == ['{'] + (name + text);
    LookDelimiter('{', name + text, false);
    ReservedBody(seg, name, typeName);
  }

  lemma ReservedBody(seg: string, name: string, typeName: string)
    requires IsIdentifier(name) && !IsParameterName(name) && IsTypeName(typeName)
    ensures SequenceBody(seg, State(name + (":" + (typeName + "}")), [], false), "").0 == Failed
  {
    hide Look, IsIdentifier, IsTypeName, Function, Parameter, Quoted, LookupIdent;
    var text := typeName + "}";
    ReservedWord(name);
    LookWord(name, ":" + text, false);
    LookAtQueue(State(":" + text, [Token(LookupIdent(Upper(name)), name)], false));
    QuotedAtColon(seg, text, "cast(", " as Time)");
    QuotedAtColon(seg, text, "toDate32(", ")");
    QuotedAtColon(seg, text, "toDateTime64(", ", 9)");
    FunctionAtColon(seg, text);
    TypeIsNoSequence(seg, typeName, "" + seg);
  }

  lemma QuotedAtColon(seg: string, text: string, before: string, behind: string)
    ensures Quoted(seg, State(":" + text, [], false), "", before, behind).0 == Failed
  {
    hide Look, SequenceBody;
    assert ":" + text == [':'] + text;
    LookDelimiter(':', text, false);
  }

  lemma ReservedWord(name: string)
    requires IsIdentifier(name) && !IsParameterName(name)
    ensures Upper(name) in {"FN", "D", "T", "TS"}
    ensures var t := LookupIdent(Upper(name)); if Upper(name) == "FN" then t == FN else t == D || t == T || t == TS
  {
    hide IsIdentifier;
  }

  lemma FunctionAtColon(seg: string, text: string)
    ensures Function(seg, State(":" + text, [], false)) == (Done(seg), State(text, [], false))
  {
    hide Look;
    assert ":" + text == [':'] + text;
    LookDelimiter(':', text, false);
  }

  /** The text of a type cannot be the rest of an escape sequence. */
  lemma TypeIsNoSequence(seg: string, typeName: string, acc: string)
    requires IsTypeName(typeName)
    ensures SequenceBody(seg, State(typeName + "}", [], false), acc).0 == Failed
  {
    hide Look, Function, Parameter, LookupIdent, IsTypeText, IsParameterName;
    var k :| 0 < k <= |typeName| && TypeHead(typeName, k);
    var word, after := typeName[..k], typeName[k..] + "}";
    assert typeName + "}" == word + after;
    IdentifierOf(word);
    assert after[0] == if k == |typeName| then '}' else '(';
    PlainWord(word);
    LookWord(word, after, false);
    LookAtQueue(State(after, [Token(LookupIdent(Upper(word)), word)], false));
    assert after == [after[0]] + after[1..];
    NotAColon(seg, after[0], after[1..], acc, word);
  }

  lemma IdentifierOf(word: string)
    requires IsParameterName(word)
    ensures IsIdentifier(word)
  {
  }

  lemma NotAColon(seg: string, c: char, after: string, acc: string, name: string)
    requires c == '}' || c == '('
    ensures Parameter(seg, State([c] + after, [], false), acc, name).0 == Failed
  {
    hide Look, SequenceBody, QueryParameter;
    LookDelimiter(c, after, false);
  }

  /** A {name:type} of the driver is translated to itself exactly when no escape sequence begins with the
      name; otherwise its translation fails. */
  lemma ParameterTranslation(name: string, typeName: string)
    requires IsIdentifier(name) && IsTypeName(typeName)
    ensures Translate(FinalText(name, typeName)) == if IsParameterName(name) then Done(FinalText(name, typeName))
            else Failed
  {
    hide Translate, IsIdentifier, IsParameterName, IsTypeName;
    if IsParameterName(name) {
      TextOf(typeName);
      ParameterUnchanged(name, typeName);
    } else {
      ReservedNameFails(name, typeName);
    }
  }

  // -------- a query whose only braces are those of its parameters

  ghost predicate AreParameters(names: seq<string>, types: seq<string>) {
    |names| == |types| && forall k :: 0 <= k < |names| ==> IsIdentifier(names[k]) && IsTypeName(types[k])
  }

  function FinalTexts(names: seq<string>, types: seq<string>): seq<string>
    requires |names| == |types|
  {
    seq(|names|, k requires 0 <= k < |names| => FinalText(names[k], types[k]))
  }

  function Pieces(texts: seq<string>, subs: seq<string>): seq<Piece>
    requires |texts| == |subs| + 1
  {
    seq(|subs|, k requires 0 <= k < |subs| => Piece(texts[k], subs[k]))
  }

  lemma {:induction false} WeaveIsContent(texts: seq<string>, subs: seq<string>)
    requires |texts| == |subs| + 1
    ensures Weave(texts, subs) == Content(Pieces(texts, subs)) + texts[|subs|]
  {
    if subs == [] {
      assert "" + texts[0] == texts[0];
    } else {
      WeaveIsContent(texts[1..], subs[1..]);
      var pieces := Pieces(texts, subs);
      assert pieces[1..] == Pieces(texts[1..], subs[1..]);
      var more, last := Content(pieces[1..]), texts[|subs|];
      assert texts[0] + (subs[0] + (more + last)) == texts[0] + (subs[0] + more) + last;
    }
  }

  lemma ParameterIsBalanced(name: string, typeName: string)
    requires IsIdentifier(name) && IsTypeName(typeName)
    ensures Balanced(FinalText(name, typeName))
  {
    hide IsIdentifier, IsTypeText, IsTypeName, Depth;
    TextOf(typeName);
    TypeTextIsPlain(typeName);
    WordPlain(name);
    var inner := name + ":" + typeName;
    assert FinalText(name, typeName) == "{" + inner + "}";
    BracedIsBalanced(inner);
  }

  lemma BracedIsBalanced(inner: string)
    requires Plain(inner)
    ensures Balanced("{" + inner + "}")
  {
    hide Depth, Plain;
    var s := "{" + inner + "}";
    var front := s[..|s| - 1];
    OpeningBrace("{");
    assert "{"[..1] == "{";
    forall k | 0 < k <= |front| ensures Depth(front[..k]) == 1 {
      assert front[..k] == "{" + inner[..k - 1];
      DepthAppend("{", inner[..k - 1]);
      PlainPrefix(inner, k - 1);
    }
    assert front[..|front|] == front && s[..|front|] == front && s[..|s|] == s;
    DepthNext(s, |front|);
  }

  lemma PlainPrefix(s: string, k: nat)
    requires Plain(s) && k <= |s|
    ensures Depth(s[..k]) == 0
  {
    PlainDepth(s[..k]);
  }

  /** A query whose only braces are those of its parameters is not changed by the translation of escape
      sequences, whatever the parameters are called. */
  lemma OnlyParametersUnchanged(texts: seq<string>, names: seq<string>, types: seq<string>)
    requires AreParameters(names, types) && |texts| == |names| + 1
    requires forall k :: 0 <= k < |texts| ==> Plain(texts[k])
    ensures var q := Weave(texts, FinalTexts(names, types)); Replaced(q, CutOf(q)) == Done(q)
  {
    hide Plain, Balanced, Translate, CutOf, IsIdentifier, IsTypeName, IsParameterName, Weave;
    var finals := FinalTexts(names, types);
    var pieces, last := Pieces(texts, finals), texts[|finals|];
    var q := Weave(texts, finals);
    WeaveIsContent(texts, finals);
    forall k | 0 <= k < |names| ensures Balanced(finals[k]) && (Translate(finals[k]) in {Done(finals[k]), Failed}) {
      ParameterIsBalanced(names[k], types[k]);
      ParameterTranslation(names[k], types[k]);
    }
    assert last + "" == last;
    AnyCutDecides(q, Cut(pieces, last, ""));
    SameOrFailed(pieces);
  }

  lemma {:induction false} SameOrFailed(pieces: seq<Piece>)
    requires forall i :: 0 <= i < |pieces| ==> Translate(pieces[i].segment) in {Done(pieces[i].segment), Failed}
    ensures Translated(pieces) in {Done(Content(pieces)), Failed}
  {
    hide Translate;
    if pieces != [] {
      SameOrFailed(pieces[1..]);
    }
  }

  /** A parameter with a name like "d" or "Fn" keeps every escape sequence of its query from being translated. */
  lemma ReservedNameBlocks(q: string, c: Cut, i: nat, name: string, typeName: string)
    requires VT !in q && IsCut(q, c) && i < |c.pieces| && c.pieces[i].segment == FinalText(name, typeName)
    requires IsIdentifier(name) && !IsParameterName(name) && IsTypeName(typeName)
    ensures Replaced(q, CutOf(q)) == Done(q)
  {
    hide IsIdentifier, IsParameterName, IsTypeName, CutOf, WellFormed, Plain, IsTail, Translate, Content;
    Returns(q);
    AnyCutDecides(q, c);
    ReservedNameFails(name, typeName);
    OneFailure(c.pieces, i);
  }

  lemma {:induction false} OneFailure(pieces: seq<Piece>, i: nat)
    requires i < |pieces| && Translate(pieces[i].segment) == Failed
    ensures !Translated(pieces).Done?
  {
    hide Translate;
    if i > 0 {
      OneFailure(pieces[1..], i - 1);
    }
  }

  // -------- the query of a statement

  predicate AreMarks(marks: seq<string>) { forall k :: 0 <= k < |marks| ==> IsMark(marks[k]) }

  lemma {:induction false} MarksAreNames(q: string, quoted: char)
    requires Scan(q, quoted).Some?
    ensures AreMarks(Scan(q, quoted).value.marks)
    decreases |q|
  {
    hide Weave, IsMark, NameEnd;
    if q != "" {
      var mark := MarkAt(q, quoted);
      if mark == "" {
        MarksAreNames(q[Step(q, quoted)..], NextQuote(q, quoted));
      } else {
        MarkIsName(q, quoted);
        MarksAreNames(q[|mark|..], quoted);
      }
    }
  }

  predicate IsMark(mark: string) { mark == "?" || (mark != "" && mark[0] == '@' && IsIdentifier(mark[1..])) }

  lemma MarkIsName(q: string, quoted: char)
    requires q != "" && MarkAt(q, quoted) != "" && MarkAt(q, quoted) != "@"
    ensures IsMark(MarkAt(q, quoted))
  {
    if q[0] == '@' {
      NameIsIdentifier(q, 1);
    }
  }

  lemma {:induction false} NameIsIdentifier(q: string, j: nat)
    requires 1 <= j <= |q|
    ensures forall k :: j <= k < NameEnd(q, j) ==> IsIdentPart(q[k]) && (k == 1 ==> IsIdentStart(q[k]))
    decreases |q| - j
  {
    if j < |q| {
      NameIsIdentifier(q, j + 1);
    }
  }

  /** The final name is an identifier, unless the application has set another name in the IPD. */
  lemma FinalNameIsIdentifier(i: nat, given: Option<string>, mark: string)
    requires IsMark(mark)
    ensures IsIdentifier(FinalName(i, given, NameOf(mark))) <==> (given.Some? ==> IsIdentifier(Strip(given.value)))
  {
    hide Decimal;
    var number := Decimal(i + 1);
    if given.None? && mark == "?" {
      PositionalName(number);
    }
  }

  lemma PositionalName(number: string)
    requires AllDigits(number)
    ensures IsIdentifier("odbc_positional_" + number)
  {
    var name := "odbc_positional_" + number;
    assert forall k :: 16 <= k < |name| ==> name[k] == number[k - 16];
  }

  lemma NoAtSign(name: string, typeName: string)
    requires '@' !in name && IsTypeName(typeName)
    ensures '@' !in FinalText(name, typeName)
  {
    hide IsTypeName;
    TextOf(typeName);
    assert forall c :: c in typeName ==> IsTypeChar(c);
  }

  lemma IdentifierHasNoAtSign(name: string)
    requires IsIdentifier(name)
    ensures '@' !in name
  {
    assert forall c :: c in name ==> IsIdentPart(c);
  }

  function FinalNames(parameters: seq<Param>, given: seq<Option<string>>): seq<string>
    requires |given| == |parameters|
  {
    seq(|parameters|, k requires 0 <= k < |parameters| => FinalName(k, given[k], parameters[k].name))
  }

  /** The names that the application has set in the IPD are identifiers, a leading '@' left out. */
  predicate GivenIdentifiers(given: seq<Option<string>>) {
    forall k :: 0 <= k < |given| ==> given[k].Some? ==> IsIdentifier(Strip(given[k].value))
  }

  predicate WithoutAtSign(names: seq<string>) { forall k :: 0 <= k < |names| ==> '@' !in names[k] }

  predicate AllTyped(bindings: seq<Bound>, n: nat) { forall k :: 0 <= k < n ==> ParameterType(bindings, k).Some? }

  function ParameterTypeNames(bindings: seq<Bound>, n: nat): seq<string>
    requires AllTyped(bindings, n)
  {
    seq(n, k requires 0 <= k < n => ParameterType(bindings, k).value)
  }

  /** The prepared query with its markers replaced. */
  function Built(split: Split, names: seq<string>, types: seq<string>): string
    requires |names| == |types| && WellCut(split.texts, names)
  {
    Weave(split.texts, FinalTexts(names, types))
  }

  lemma FinalsAreTexts(parameters: seq<Param>, given: seq<Option<string>>, types: seq<string>)
    requires |given| == |types| == |parameters|
    ensures Finals(parameters, given, types) == FinalTexts(FinalNames(parameters, given), types)
  {
    hide FinalName;
  }

  lemma NoAtSigns(names: seq<string>, types: seq<string>)
    requires |names| == |types| && WithoutAtSign(names) && forall k :: 0 <= k < |types| ==> IsTypeName(types[k])
    ensures forall final :: final in FinalTexts(names, types) ==> '@' !in final
  {
    hide IsTypeName;
    forall k | 0 <= k < |names| ensures '@' !in FinalTexts(names, types)[k] {
      NoAtSign(names[k], types[k]);
    }
  }

  lemma TypesAreNames(bindings: seq<Bound>, n: nat)
    requires AllTyped(bindings, n)
    ensures forall k :: 0 <= k < n ==> IsTypeName(ParameterTypeNames(bindings, n)[k])
  {
    hide IsTypeName, ParameterType;
    forall k | 0 <= k < n ensures IsTypeName(ParameterTypeNames(bindings, n)[k]) {
      ParameterTypesAreNames(bindings, k);
    }
  }

  lemma NamesAreIdentifiers(parameters: seq<Param>, given: seq<Option<string>>, marks: seq<string>)
    requires |given| == |parameters| == |marks| && AreMarks(marks) && GivenIdentifiers(given)
    requires forall k :: 0 <= k < |parameters| ==> parameters[k].name == NameOf(marks[k])
    ensures forall k :: 0 <= k < |parameters| ==> IsIdentifier(FinalNames(parameters, given)[k])
    ensures WithoutAtSign(FinalNames(parameters, given))
  {
    hide FinalName, IsIdentifier, IsMark, Strip;
    forall k | 0 <= k < |parameters|
      ensures IsIdentifier(FinalNames(parameters, given)[k]) && '@' !in FinalNames(parameters, given)[k]
    {
      FinalNameIsIdentifier(k, given[k], marks[k]);
      IdentifierHasNoAtSign(FinalNames(parameters, given)[k]);
    }
  }

  /** The query of prepareHttpRequest: buildFinalQuery, and the translation of escape sequences unless
      SQL_ATTR_NOSCAN is on. It fails when a parameter has no type. For names without '@', the query that is sent is
      the prepared one with its k-th marker replaced by the k-th {name:type}, and with its escape sequences translated:
      - when it consists of text and well-formed escape sequences, parameters being some of them or parts of their
        arguments, each of them becomes its meaning;
      - when the text around the markers has no braces, nothing else is changed. */
  method FinalQuery(statement: Statement, bindings: seq<Bound>, given: seq<Option<string>>, noscan: bool,
      ghost q0: string, ghost split: Split)
    returns (r: Outcome)
    requires ExtractedAs(q0, split, statement.query, statement.parameters) && |given| == |statement.parameters|
    ensures !AllTyped(bindings, |statement.parameters|) ==> r == Failed
    ensures AllTyped(bindings, |statement.parameters|) && WithoutAtSign(FinalNames(statement.parameters, given)) ==>
              var q := Built(split, FinalNames(statement.parameters, given),
                  ParameterTypeNames(bindings, |statement.parameters|));
              && r == (if noscan then Done(q) else Replaced(q, CutOf(q)))
              && (!noscan ==> forall parts, last ::
                    FineQuery(parts, last) && q == Written(parts, last) ==> r == Done(Answer(parts, last)))
    ensures AllTyped(bindings, |statement.parameters|) && GivenIdentifiers(given)
            && (forall text :: text in split.texts ==> Plain(text)) ==>
              r == Done(Built(split, FinalNames(statement.parameters, given),
                  ParameterTypeNames(bindings, |statement.parameters|)))
  {
    hide Weave, CutOf, Replaced, Plain, IsTypeName, FinalName, IsIdentifier, Scan, ParameterType, FineQuery, Written,
         Answer, IsMark, Strip;
    var n := |statement.parameters|;
    if !AllTyped(bindings, n) {
      return Failed;
    }
    var types := ParameterTypeNames(bindings, n);
    ghost var names := FinalNames(statement.parameters, given);
    FinalsAreTexts(statement.parameters, given, types);
    TypesAreNames(bindings, n);
    if WithoutAtSign(names) {
      NoAtSigns(names, types);
    }
    MarksAreNames(q0, NONE);
    if GivenIdentifiers(given) {
      NamesAreIdentifiers(statement.parameters, given, split.marks);
      NoAtSigns(names, types);
    }
    var built := statement.BuildFinalQuery(given, types, q0, split);
    if built.None? {
      return Failed;
    }
    var query := built.value;
    if noscan {
      return Done(query);
    }
    r := ReplaceEscapeSequences(query);
    ReplacedAnswers(query);
    if GivenIdentifiers(given) && forall text :: text in split.texts ==> Plain(text) {
      OnlyParametersUnchanged(split.texts, names, types);
    }
  }

  lemma ReplacedAnswers(q: string)
    ensures forall parts, last ::
              FineQuery(parts, last) && q == Written(parts, last) ==> Replaced(q, CutOf(q)) == Done(Answer(parts, last))
  {
    hide Replaced, CutOf, FineQuery, Written, Answer;
    forall parts, last | FineQuery(parts, last) && q == Written(parts, last)
      ensures Replaced(q, CutOf(q)) == Done(Answer(parts, last))
    {
      QueryTranslated(parts, last);
    }
  }

  // -------- the values of the parameters

  // what is sent for NULL
  const NULL_VALUE: string := "\\N"

  predicate NeedsEscape(c: char) { c == '\\' || c == '\n' || c == '\t' }

  function EscapedParameter(s: string): string {
    if s == "" then "" else (if NeedsEscape(s[0]) then ['\\', s[0]] else [s[0]]) + EscapedParameter(s[1..])
  }

  method EscapeParameterString(s: string) returns (out: string)
    ensures out == EscapedParameter(s)
  {
    out := "";
    for i := 0 to |s|
      invariant out + EscapedParameter(s[i..]) == EscapedParameter(s)
    {
      assert s[i..][1..] == s[i + 1..];
      if NeedsEscape(s[i]) {
        out := out + ['\\'];
      }
      out := out + [s[i]];
    }
  }

  /** The value can be read back: a backslash stands for the character behind it. */
  lemma {:induction false} ParameterReadBack(s: string)
    ensures Unescaped(EscapedParameter(s)) == s
  {
    if s != "" {
      ParameterReadBack(s[1..]);
      var rest := EscapedParameter(s[1..]);
      if NeedsEscape(s[0]) {
        assert EscapedParameter(s)[2..] == rest;
      } else {
        assert EscapedParameter(s)[1..] == rest;
      }
    }
  }

  /** No backslash, tab or line feed stands for itself: a tab or a line feed would end the value. */
  predicate IsEscaped(text: string)
    decreases |text|
  {
    || text == ""
    || (text[0] == '\\' && |text| > 1 && IsEscaped(text[2..]))
    || (text[0] !in {'\\', '\t', '\n'} && IsEscaped(text[1..]))
  }

  /** Exactly the backslashes, tabs and line feeds get another character. */
  function Escapes(s: string): nat { if s == "" then 0
      else (if s[0] in {'\\', '\t', '\n'} then 1 else 0) + Escapes(s[1..]) }

  lemma {:induction false} ParameterIsEscaped(s: string)
    ensures IsEscaped(EscapedParameter(s)) && |EscapedParameter(s)| == |s| + Escapes(s)
  {
    if s != "" {
      ParameterIsEscaped(s[1..]);
      var rest := EscapedParameter(s[1..]);
      if NeedsEscape(s[0]) {
        assert EscapedParameter(s)[2..] == rest;
      } else {
        assert EscapedParameter(s)[1..] == rest;
      }
    }
  }

  /** No value is taken for NULL. */
  lemma NoValueIsNull(s: string)
    ensures EscapedParameter(s) != NULL_VALUE
  {
    var e := EscapedParameter(s);
    assert NULL_VALUE[0] == '\\' && NULL_VALUE[1] == 'N';
    if s != "" {
      assert if NeedsEscape(s[0]) then e[1] == s[0] else e[0] == s[0];
    }
  }
}
