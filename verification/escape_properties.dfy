/** What the translation of escape sequences does not touch. */
module EscapeProperties {
  import opened Text
  import opened Lexing
  import opened EscapeTranslation
  import opened EscapeSequences
  import opened QueryParameters

  // -------- arguments are copied

  /** The text that a state stands for when the blanks are tokens. */
  function Unread(st: State): string { Flatten(Literals(st.queue)) + st.rest }

  predicate NoBrace(st: State) { '{' !in st.rest && forall t :: t in st.queue ==> t.typ != LCURLY }

  /** Looking at the head of a text with nothing in the queue. */
  lemma LookAtText(s: string, emit: bool)
    ensures var n, r := Look(State(s, [], emit)), Lex(s, emit);
            n == Next(r.token, State(s[r.next..], [r.token], emit), State(s[r.next..], [], emit))
  {
    hide Lex;
  }

  lemma LookAtQueue(st: State)
    requires st.queue != []
    ensures Look(st) == Next(st.queue[0], st, st.(queue := st.queue[1..]))
  {
    hide Lex;
  }

  lemma UnreadQueued(st: State)
    requires st.queue != []
    ensures Unread(st) == st.queue[0].literal + Unread(st.(queue := st.queue[1..]))
  {
    assert Literals(st.queue)[1..] == Literals(st.queue[1..]);
    var more := Flatten(Literals(st.queue[1..]));
    assert st.queue[0].literal + more + st.rest == st.queue[0].literal + (more + st.rest);
  }

  lemma UnreadText(s: string, emit: bool)
    ensures Unread(State(s, [], emit)) == s
  {
    assert "" + s == s;
  }

  lemma LookKeepsText(st: State)
    requires st.emit
    ensures var n := Look(st);
            && Unread(n.peeked) == Unread(st) == n.token.literal + Unread(n.after)
            && n.peeked.emit && n.after.emit
            && (NoBrace(st) ==> n.token.typ != LCURLY && NoBrace(n.peeked) && NoBrace(n.after))
  {
    hide Lex, Look, Unread;
    if st.queue == [] {
      var r := Lex(st.rest, true);
      LookAtText(st.rest, true);
      assert st == State(st.rest, [], true);
      BraceToken(st.rest);
      UnreadQueued(Look(st).peeked);
      UnreadText(st.rest, true);
      UnreadText(st.rest[r.next..], true);
      assert st.rest == r.token.literal + st.rest[r.next..];
    } else {
      LookAtQueue(st);
      UnreadQueued(st);
    }
  }

  lemma BraceToken(s: string)
    ensures Lex(s, true).token.typ == LCURLY ==> s != "" && s[0] == '{'
  {
    hide Name, Number, StringEnd, OtherEnd;
  }

  /** What is nested in a text without braces is in parentheses. */
  lemma InnerParentheses(seg: string, n: Next)
    requires n.token.typ == LPARENT && n.after.emit
    ensures Inner(seg, n) == Parentheses(seg, n.after, n.token.literal)
  {
    hide Parentheses, Nested;
    assert n.after.(emit := true) == n.after;
  }

  /** Parentheses are copied character by character, up to their closing one. */
  lemma {:induction false} ParenthesesCopy(seg: string, st: State, acc: string)
    requires st.emit && NoBrace(st)
    ensures var (o, s) := Parentheses(seg, st, acc);
            o != Failed && (o.Done? ==> s.emit && NoBrace(s) && o.text + Unread(s) == acc + Unread(st))
    decreases Size(st)
  {
    hide NoBrace, Unread, Look, Parentheses, Inner, LiveCount;
    LookFacts(st);
    LookKeepsText(st);
    ParenthesesStep(seg, st, acc);
    var n := Look(st);
    if n.token.typ == LPARENT {
      InnerParentheses(seg, n);
      ParenthesesCopy(seg, n.after, n.token.literal);
      var (inner, next) := Parentheses(seg, n.after, n.token.literal);
      if inner.Done? {
        ParenthesesCopy(seg, next, acc + inner.text);
        Regroup(acc, inner.text, Unread(next));
      }
    } else {
      if n.token.typ != RPARENT && n.token.typ != EOS && n.token.typ != INVALID && Live(n.token) {
        ParenthesesCopy(seg, n.after, acc + n.token.literal);
      }
      Regroup(acc, n.token.literal, Unread(n.after));
    }
  }

  lemma Regroup(a: string, b: string, c: string)
    ensures a + b + c == a + (b + c)
  {
  }

  lemma UnreadAnyway(st: State)
    ensures Unread(st.(emit := false)) == Unread(st)
  {
  }

  lemma LookFacts(st: State)
    ensures var n := Look(st); Size(n.after) <= Size(st) && (Live(n.token) ==> Size(n.after) < Size(st))
  {
  }

  /** An argument without braces is copied character by character, up to the comma or the closing
      parenthesis that ends it. */
  lemma {:induction false} ArgumentCopies(seg: string, st: State, acc: string)
    requires st.emit && NoBrace(st)
    ensures var (o, s) := Argument(seg, st, acc);
            o != Failed && (o.Done? ==> o.text + Unread(s) == acc + Unread(st))
    decreases Size(st)
  {
    hide NoBrace, Unread, Look, Parentheses, Argument, Inner, LiveCount;
    LookFacts(st);
    LookKeepsText(st);
    ArgumentRound(seg, st, acc);
    var n := Look(st);
    if n.token.typ in {RPARENT, COMMA, EOS, INVALID} {
      UnreadAnyway(n.peeked);
    } else if n.token.typ == LPARENT {
      InnerParentheses(seg, n);
      ParenthesesCopy(seg, n.after, n.token.literal);
      var (inner, next) := Parentheses(seg, n.after, n.token.literal);
      if inner.Done? {
        ArgumentCopies(seg, next, acc + inner.text);
        Regroup(acc, inner.text, Unread(next));
      }
    } else if Live(n.token) {
      ArgumentCopies(seg, n.after, acc + n.token.literal);
      Regroup(acc, n.token.literal, Unread(n.after));
    }
  }

  // -------- query parameters translate to themselves

  /** The characters of the type names that the driver writes into a query. */
  predicate IsTypeChar(c: char) { IsIdentPart(c) || c == '(' || c == ')' || c == ',' || c == ' ' || c == '-' }

  predicate IsTypeText(s: string) { forall i :: 0 <= i < |s| ==> IsTypeChar(s[i]) }

  predicate IsIdentifier(s: string) { s != "" && IsIdentStart(s[0]) && forall i :: 0 <= i < |s| ==> IsIdentPart(s[i]) }

  /** A parameter name that is not taken for the beginning of an ODBC escape sequence. */
  predicate IsParameterName(s: string) {
    IsIdentifier(s) && Upper(s) != "FN" && Upper(s) != "D" && Upper(s) != "T" && Upper(s) != "TS"
  }

  lemma {:induction false} NumberStops(s: string, i: nat, stop: nat, dot: bool, minus: bool)
    requires i <= stop < |s| && !IsDigit(s[stop]) && s[stop] != '.'
    ensures Number(s, i, dot, minus).next <= stop
    decreases |s| - i
  {
    if i < stop {
      NumberStops(s, i + 1, stop, true, minus);
      NumberStops(s, i + 1, stop, dot, minus);
    }
  }

  lemma {:induction false} WordEndAt(s: string, i: nat, stop: nat)
    requires i <= stop < |s| && !IsIdentPart(s[stop])
    ensures WordEnd(s, i) <= stop
    ensures (forall k :: i <= k < stop ==> IsIdentPart(s[k])) ==> WordEnd(s, i) == stop
  {
  }

  lemma WordToken(word: string, after: string)
    requires IsIdentifier(word) && after != "" && !IsIdentPart(after[0]) && after[0] != '.'
    ensures Here(word + after) == Lexed(Token(LookupIdent(Upper(word)), word), |word|) && !IsBlank(word[0])
  {
    hide LookupIdent, WordEnd, Name, NameTail, Upper;
    var s := word + after;
    assert s[0] == word[0] && s[|word|] == after[0];
    assert forall k :: 1 <= k < |word| ==> s[k] == word[k];
    WordEndAt(s, 1, |word|);
    assert s[..|word|] == word;
    HereWord(s);
    NameEndsAt(s, |word|);
  }

  lemma NameEndsAt(s: string, i: nat)
    requires i < |s| && s[i] != '.'
    ensures NameTail(s, i, true) == Lexed(Token(LookupIdent(Upper(s[..i])), s[..i]), i)
  {
  }

  lemma HereWord(s: string)
    requires s != "" && IsIdentStart(s[0])
    ensures Here(s) == NameTail(s, WordEnd(s, 1), true)
  {
    hide NameTail, WordEnd;
  }

  lemma HereNumber(s: string)
    requires s != "" && (IsDigit(s[0]) || s[0] == '.' || s[0] == '-')
    ensures Here(s) == Number(s, 1, s[0] == '.', s[0] == '-')
  {
    hide Number, Name, StringEnd, OtherEnd, Upper;
  }

  lemma HereMark(s: string)
    requires s != "" && (s[0] == '(' || s[0] == ')' || s[0] == ',' || s[0] == ' ')
    ensures var r := Here(s); r.next == 1 && r.token.typ in {LPARENT, RPARENT, COMMA, SPACE}
  {
    hide Long;
  }

  lemma TypeWord(s: string, stop: nat)
    requires 0 < stop < |s| && (s[stop] == '}' || s[stop] == VT) && IsIdentStart(s[0])
    requires forall i :: 0 <= i < stop ==> IsTypeChar(s[i])
    ensures var r := Here(s); r.next <= stop && IsWordType(r.token.typ)
  {
    hide Here, Name, WordEnd, LookupIdent;
    HereWord(s);
    WordEndAt(s, 1, stop);
    assert s[WordEnd(s, 1)] != '.';
  }

  /** The first token of a text that begins with a type name and a closing brace or a vertical tab ends inside the
      name. */
  lemma FirstTypeToken(s: string, stop: nat)
    requires 0 < stop < |s| && (s[stop] == '}' || s[stop] == VT) && forall i :: 0 <= i < stop ==> IsTypeChar(s[i])
    ensures var r := Here(s); 1 <= r.next <= stop && Live(r.token) && r.token.typ != RCURLY
  {
    hide Here, Name, WordEnd, Number, LookupIdent;
    LiveToken(s);
    assert IsTypeChar(s[0]);
    if IsIdentStart(s[0]) {
      TypeWord(s, stop);
    } else if IsDigit(s[0]) || s[0] == '-' {
      HereNumber(s);
      NumberStops(s, 1, stop, false, s[0] == '-');
    } else {
      HereMark(s);
    }
  }

  /** A token of a type name ends inside it. */
  lemma TypeToken(w: string, c: char, tail: string)
    requires w != "" && IsTypeText(w) && (c == '}' || c == VT)
    ensures var r := Here(w + ([c] + tail));
            && 1 <= r.next <= |w| && r.token.literal == w[..r.next]
            && Live(r.token) && r.token.typ != RCURLY
  {
    hide Here, Live;
    var s := w + ([c] + tail);
    assert s[|w|] == c && forall i :: 0 <= i < |w| ==> s[i] == w[i];
    FirstTypeToken(s, |w|);
    assert s[..Here(s).next] == w[..Here(s).next];
  }

  /** One round of the loop in processClickHouseQueryParameter, at a text. */
  lemma ParameterRound(s: string, acc: string)
    ensures var r, spec := Here(s), QueryParameter(State(s, [], true), acc);
            if r.token.typ == RCURLY then spec == (Done(acc + "}"), State(s[r.next..], [r.token], true))
            else if Live(r.token) then spec == QueryParameter(State(s[r.next..], [], true), acc + r.token.literal)
            else !spec.0.Done?
  {
    hide Lex, Look, Here;
    LexHere(s, true);
    LookAtText(s, true);
  }

  lemma ParameterEnds(tail: string, acc: string)
    ensures QueryParameter(State(['}'] + tail, [], true), acc)
            == (Done(acc + "}"), State(tail, [Token(RCURLY, "}")], true))
  {
    hide Here, QueryParameter, Live, Flatten, Look, Lex, Long, Name, Number, IsBlank;
    var s := ['}'] + tail;
    HereDelimiter('}', tail);
    assert Here(s) == Lexed(Token(RCURLY, "}"), 1);
    DropFirst('}', tail);
    ParameterRound(s, acc);
  }

  lemma DropFirst(c: char, tail: string)
    ensures ([c] + tail)[1..] == tail
  {
  }

  lemma {:induction false} ParameterCopies(w: string, tail: string, acc: string)
    requires IsTypeText(w)
    ensures QueryParameter(State(w + ("}" + tail), [], true), acc)
            == (Done(acc + w + "}"), State(tail, [Token(RCURLY, "}")], true))
    decreases |w|
  {
    hide Here, QueryParameter, Live, IsTypeChar;
    if w == "" {
      ParameterEnds(tail, acc);
      assert w + ("}" + tail) == ['}'] + tail && acc + w == acc;
    } else {
      var s := w + ("}" + tail);
      ParameterRound(s, acc);
      TypeToken(w, '}', tail);
      var k := Here(s).next;
      DropWord(w, "}" + tail, k);
      ParameterCopies(w[k..], tail, acc + w[..k]);
      assert acc + w[..k] + w[k..] == acc + w;
    }
  }

  lemma DropWord(w: string, more: string, k: nat)
    requires k <= |w|
    ensures (w + more)[k..] == w[k..] + more
  {
  }

  lemma HereDelimiter(c: char, after: string)
    requires Delimiter(c).Some?
    ensures Here([c] + after) == Lexed(Token(Delimiter(c).value, [c]), 1) && !IsBlank(c)
  {
    hide Long;
    assert ([c] + after)[..1] == [c];
  }

  lemma LookDelimiter(c: char, after: string, emit: bool)
    requires Delimiter(c).Some?
    ensures var token := Token(Delimiter(c).value, [c]);
            Look(State([c] + after, [], emit)) == Next(token, State(after, [token], emit), State(after, [], emit))
  {
    hide Look, Lex, Here, Delimiter, IsBlank;
    HereDelimiter(c, after);
    LexHere([c] + after, emit);
    LookAtText([c] + after, emit);
    assert ([c] + after)[1..] == after;
  }

  lemma LookWord(word: string, after: string, emit: bool)
    requires IsIdentifier(word) && after != "" && !IsIdentPart(after[0]) && after[0] != '.'
    ensures var token := Token(LookupIdent(Upper(word)), word);
            Look(State(word + after, [], emit)) == Next(token, State(after, [token], emit), State(after, [], emit))
  {
    hide Look, Lex, Here, LookupIdent, IsBlank;
    WordToken(word, after);
    LexHere(word + after, emit);
    LookAtText(word + after, emit);
    assert (word + after)[|word|..] == after;
  }

  lemma NameStep(seg: string, name: string, after: string)
    requires IsParameterName(name) && after != "" && !IsIdentPart(after[0]) && after[0] != '.'
    ensures SequenceBody(seg, State(name + after, [], false), "") == Parameter(seg, State(after, [], false), "", name)
  {
    hide Look, LookupIdent, Function, Quoted, Parameter, IsIdentifier;
    PlainWord(name);
    LookWord(name, after, false);
    LookAtQueue(State(after, [Token(LookupIdent(Upper(name)), name)], false));
  }

  lemma PlainWord(name: string)
    requires IsParameterName(name)
    ensures var t := LookupIdent(Upper(name)); t != SPACE && t != RCURLY && t != FN && t != T && t != D && t != TS
  {
  }

  lemma ColonStep(seg: string, name: string, text: string)
    ensures Parameter(seg, State(":" + text, [], false), "", name)
            == var (o, s) := QueryParameter(State(text, [Token(COLON, ":")], true), "{" + name);
               if o.Done? then SequenceBody(seg, s.(emit := false), "" + o.text) else (o, s)
  {
    hide Look, SequenceBody, QueryParameter;
    assert ":" + text == [':'] + text;
    LookDelimiter(':', text, false);
  }

  lemma TypeStep(seg: string, name: string, typeName: string, after: string)
    requires IsTypeText(typeName)
    ensures Parameter(seg, State(":" + (typeName + ("}" + after)), [], false), "", name)
            == SequenceBody(seg, State(after, [Token(RCURLY, "}")], false), FinalText(name, typeName))
  {
    hide Look, SequenceBody, QueryParameter, Parameter, IsTypeText;
    ColonStep(seg, name, typeName + ("}" + after));
    ColonCopied(typeName + ("}" + after), name);
    ParameterCopies(typeName, after, "{" + name + ":");
    assert "" + FinalText(name, typeName) == FinalText(name, typeName);
  }

  lemma ColonCopied(text: string, name: string)
    ensures QueryParameter(State(text, [Token(COLON, ":")], true), "{" + name)
            == QueryParameter(State(text, [], true), "{" + name + ":")
  {
    hide Look;
    LookAtQueue(State(text, [Token(COLON, ":")], true));
  }

  lemma EndStep(seg: string, acc: string, after: string)
    ensures SequenceBody(seg, State(after, [Token(RCURLY, "}")], false), acc) == (Done(acc), State(after, [], false))
  {
    hide Look, Function, Quoted, Parameter;
    LookAtQueue(State(after, [Token(RCURLY, "}")], false));
  }

  /** A query parameter is translated to itself. */
  lemma ParameterUnchanged(name: string, typeName: string)
    requires IsParameterName(name) && IsTypeText(typeName)
    ensures Translate(FinalText(name, typeName)) == Done(FinalText(name, typeName))
  {
    hide Look, SequenceBody, Parameter, IsTypeText, IsParameterName, LookupIdent;
    var seg := FinalText(name, typeName);
    var text := ":" + (typeName + "}");
    assert seg == ['{'] + (name + text);
    LookDelimiter('{', name + text, false);
    NameStep(seg, name, text);
    assert text == ":" + (typeName + ("}" + ""));
    TypeStep(seg, name, typeName, "");
    EndStep(seg, seg, "");
  }
}
