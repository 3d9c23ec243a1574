/** The procedures that translate escape sequences: they share a lexer and move it forward. */
module EscapeSequences {
  import opened Lexing
  import opened EscapeTranslation

  /** Peeking at the lexer and consuming from it are the two steps of Look. */
  lemma PeekIsLook(st: State)
    ensures var n := Look(st);
            && st.LookingAhead(0) == n.peeked && st.Peek() == n.token && n.peeked.Consume() == (n.token, n.after)
            && Look(n.peeked) == n && n.peeked.emit == st.emit
  {
    hide Lex;
  }

  lemma ConsumeIsLook(st: State)
    ensures st.Consume() == (Look(st).token, Look(st).after)
  {
    hide Lex;
    if st.queue == [] {
      var (token, next) := st.Read();
      assert next == Look(st).after;
    }
  }

  lemma MatchIsMatched(st: State, typ: Type)
    ensures var (matched, next) := st.Match(typ);
            matched == Matched(st, typ).Some? && next == if matched then Matched(st, typ).value else Look(st).peeked
  {
    hide Lex;
    PeekIsLook(st);
  }

  /** What a procedure returned, and where it left the lexer unless it failed. */
  ghost predicate Agrees(o: Outcome, st: State, spec: (Outcome, State)) { o == spec.0 && (o.Done? ==> st == spec.1) }

  method Peek(lex: Lexer) returns (token: Token)
    requires lex.Valid()
    modifies lex
    ensures lex.Valid()
    ensures token == Look(old(lex.View())).token && lex.View() == Look(old(lex.View())).peeked
  {
    hide Look;
    PeekIsLook(lex.View());
    token := lex.Peek();
  }

  method Consume(lex: Lexer) returns (token: Token)
    requires lex.Valid()
    modifies lex
    ensures lex.Valid()
    ensures token == Look(old(lex.View())).token && lex.View() == Look(old(lex.View())).after
  {
    hide Look;
    ConsumeIsLook(lex.View());
    token := lex.Consume();
  }

  method Match(lex: Lexer, typ: Type) returns (matched: bool)
    requires lex.Valid()
    modifies lex
    ensures lex.Valid() && matched == Matched(old(lex.View()), typ).Some?
    ensures lex.View() == if matched then Matched(old(lex.View()), typ).value else Look(old(lex.View())).peeked
  {
    hide Look, Matched;
    MatchIsMatched(lex.View(), typ);
    matched := lex.Match(typ);
  }

  /** while (lex.Match(Token::SPACE)) */
  method MatchSpaces(lex: Lexer)
    requires lex.Valid()
    modifies lex
    ensures lex.Valid() && lex.View() == SkipSpaces(old(lex.View()))
  {
    hide Look;
    var matched := Match(lex, SPACE);
    while matched
      invariant lex.Valid()
      invariant SkipSpaces(old(lex.View())) == if matched then SkipSpaces(lex.View()) else lex.View()
      decreases matched, Size(lex.View())
    {
      matched := Match(lex, SPACE);
    }
  }

  /** The spaces are skipped before the token is matched. */
  method MatchBehindSpaces(lex: Lexer, typ: Type) returns (matched: bool)
    requires lex.Valid()
    modifies lex
    ensures lex.Valid() && matched == Matched(SkipSpaces(old(lex.View())), typ).Some?
    ensures matched ==> lex.View() == Matched(SkipSpaces(old(lex.View())), typ).value
    ensures Size(lex.View()) <= Size(old(lex.View()))
  {
    hide Look, Matched, Size, SkipSpaces;
    SpacesDecrease(lex.View());
    MatchSpaces(lex);
    MatchDecreases(lex.View(), typ);
    matched := Match(lex, typ);
  }

  /** What begins with a parenthesis or a brace inside another procedure. */
  ghost function Inner(seg: string, n: Next): (Outcome, State) {
    if n.token.typ == LPARENT || n.peeked.queue == [] then Parentheses(seg, n.after.(emit := true), n.token.literal)
    else Nested(seg, n.peeked)
  }

  predicate OpensInner(t: Type) { t == LPARENT || t == LCURLY }

  lemma InnerDecreases(seg: string, n: Next)
    requires n.peeked.queue != [] && n == Look(n.peeked) && OpensInner(n.token.typ)
    ensures Size(Inner(seg, n).1) < Size(n.peeked)
  {
    hide Look, Nested, Parentheses, LiveCount;
  }

  /** One round of the loop in processParentheses. */
  lemma ParenthesesStep(seg: string, st: State, acc: string)
    ensures var n, r := Look(st), Parentheses(seg, st, acc);
            if n.token.typ == RPARENT then r == (Done(acc + n.token.literal), n.after)
            else if OpensInner(n.token.typ) then
              var (o, s) := Inner(seg, n);
              r == if o.Done? then Parentheses(seg, s, acc + o.text) else (o, s)
            else if n.token.typ == EOS || n.token.typ == INVALID then r == (Done(acc), n.peeked)
            else if Live(n.token) then r == Parentheses(seg, n.after, acc + n.token.literal)
            else r.0 == Endless
  {
    hide Look, Nested, NoVT, Size;
  }

  /** The two calls that every loop makes for what is nested in it. */
  method ProcessInner(seg: string, lex: Lexer) returns (o: Outcome)
    requires lex.Valid() && lex.readed != [] && OpensInner(Look(lex.View()).token.typ)
    modifies lex
    ensures lex.Valid() && Agrees(o, lex.View(), Inner(seg, Look(old(lex.View()))))
    decreases Size(Look(lex.View()).after), 6
  {
    hide Look, Nested, Parentheses, Size;
    PeekIsLook(lex.View());
    if lex.readed[0].typ == LPARENT {
      o := ProcessParentheses(seg, lex);
    } else {
      o := ProcessNested(seg, lex);
    }
  }

  method ProcessParentheses(seg: string, lex: Lexer) returns (o: Outcome)
    requires lex.Valid() && lex.readed != []
    modifies lex
    ensures lex.Valid()
    ensures var n := Look(old(lex.View()));
            Agrees(o, lex.View(), Parentheses(seg, n.after.(emit := true), n.token.literal))
    decreases Size(Look(lex.View()).after), 0
  {
    hide Look, Inner, Live, Size, Shrinks, NoVT, Parentheses;
    ghost var n := Look(lex.View());
    LookQueued(lex.View(), true);
    lex.SetEmitSpaces(true);
    var token := Consume(lex);
    var result := token.literal;
    ghost var spec := Parentheses(seg, n.after.(emit := true), n.token.literal);
    while true
      invariant lex.Valid() && Parentheses(seg, lex.View(), result) == spec && Size(lex.View()) <= Size(n.after)
      decreases Size(lex.View())
    {
      ghost var st := lex.View();
      LookDecreases(st);
      ParenthesesStep(seg, st, result);
      token := Peek(lex);
      if token.typ == RPARENT {
        result := result + token.literal;
        token := Consume(lex);
        return Done(result);
      } else if OpensInner(token.typ) {
        InnerDecreases(seg, Look(st));
        var processed := ProcessInner(seg, lex);
        if !processed.Done? {
          return processed;
        }
        result := result + processed.text;
      } else if token.typ == EOS || token.typ == INVALID {
        return Done(result);
      } else if !Live(token) {
        return Endless;
      } else {
        result := result + token.literal;
        token := Consume(lex);
      }
    }
  }

  lemma LookQueued(st: State, emit: bool)
    requires st.queue != []
    ensures Look(st.(emit := emit)).token == Look(st).token
            && Look(st.(emit := emit)).after == Look(st).after.(emit := emit)
    ensures Size(Look(st).after.(emit := emit)) == Size(Look(st).after)
  {
    hide Lex;
  }

  lemma LookDecreases(st: State)
    ensures var n := Look(st);
            && Size(n.after) <= Size(n.peeked) <= Size(st) && (Live(n.token) ==> Size(n.after) < Size(st))
            && (n.token.typ != EOS && n.token.typ != OTHER ==> Live(n.token))
            && Look(n.peeked) == n && n.peeked.emit == st.emit
            && forall e :: Size(n.after.(emit := e)) == Size(n.after)
  {
    hide Lex;
  }

  /** lex.SetEmitSpaces(false), processEscapeSequencesImpl and lex.SetEmitSpaces(true), where a brace was seen. */
  method ProcessNested(seg: string, lex: Lexer) returns (o: Outcome)
    requires lex.Valid() && lex.readed != []
    modifies lex
    ensures lex.Valid() && Agrees(o, lex.View(), Nested(seg, old(lex.View())))
    decreases Size(Look(lex.View()).after), 5
  {
    hide Look, Sequence, Size, NoVT;
    LookDecreases(lex.View());
    LookQueued(lex.View(), false);
    lex.SetEmitSpaces(false);
    o := ProcessEscapeSequencesImpl(seg, lex);
    lex.SetEmitSpaces(true);
  }

  /** One round of the loop in processFunctionArgument. */
  lemma ArgumentRound(seg: string, st: State, acc: string)
    ensures var n, r := Look(st), Argument(seg, st, acc);
            if n.token.typ in {RPARENT, COMMA, EOS, INVALID} then r == (Done(acc), n.peeked.(emit := false))
            else if OpensInner(n.token.typ) then
              var (o, s) := Inner(seg, n);
              r == if o.Done? then Argument(seg, s, acc + o.text) else (o, s)
            else if Live(n.token) then r == Argument(seg, n.after, acc + n.token.literal)
            else r.0 == Endless
  {
    hide Look, Nested, NoVT, Size, Parentheses;
  }

  method ProcessFunctionArgument(seg: string, lex: Lexer) returns (o: Outcome)
    requires lex.Valid()
    modifies lex
    ensures lex.Valid() && Agrees(o, lex.View(), Argument(seg, old(lex.View()).(emit := true), ""))
    decreases Size(lex.View()), 0
  {
    hide Look, Inner, Live, Size, Shrinks, NoVT, Argument;
    ghost var start := lex.View().(emit := true);
    SizeEmit(lex.View(), true);
    lex.SetEmitSpaces(true);
    var result := "";
    while true
      invariant lex.Valid() && Argument(seg, lex.View(), result) == Argument(seg, start, "")
      invariant Size(lex.View()) <= Size(start)
      decreases Size(lex.View())
    {
      ghost var st := lex.View();
      LookDecreases(st);
      ArgumentRound(seg, st, result);
      var token := Peek(lex);
      if token.typ == RPARENT || token.typ == COMMA || token.typ == EOS || token.typ == INVALID {
        lex.SetEmitSpaces(false);
        return Done(result);
      } else if OpensInner(token.typ) {
        InnerDecreases(seg, Look(st));
        var processed := ProcessInner(seg, lex);
        if !processed.Done? {
          return processed;
        }
        result := result + processed.text;
      } else if !Live(token) {
        return Endless;
      } else {
        result := result + token.literal;
        token := Consume(lex);
      }
    }
  }

  lemma SizeEmit(st: State, emit: bool)
    ensures Size(st.(emit := emit)) == Size(st)
  {
  }

  function QuotedSpec(st: State, before: string, behind: string): (Outcome, State) {
    var n := Look(st);
    if n.token.typ == STRING then (Done(before + n.token.literal + behind), n.after) else (Failed, n.peeked)
  }

  /** processTime, processDate and processDateTime */
  method ProcessQuoted(lex: Lexer, before: string, behind: string) returns (o: Outcome)
    requires lex.Valid()
    modifies lex
    ensures lex.Valid() && Agrees(o, lex.View(), QuotedSpec(old(lex.View()), before, behind))
  {
    hide Look;
    PeekIsLook(lex.View());
    var data := lex.ConsumeExpected(STRING);
    if data.typ == INVALID {
      return Failed;
    }
    return Done(before + data.literal + behind);
  }

  method ProcessClickHouseQueryParameter(name: Token, lex: Lexer) returns (o: Outcome)
    requires lex.Valid()
    modifies lex
    ensures lex.Valid()
    ensures var (spec, s) := QueryParameter(old(lex.View()).(emit := true), "{" + name.literal);
            Agrees(o, lex.View(), (spec, s.(emit := old(lex.View()).emit)))
    ensures o.Done? ==> Size(lex.View()) <= Size(old(lex.View()))
  {
    hide Look, Live, Size, NoVT;
    var emitSpace := lex.emitSpace;
    ghost var start := lex.View().(emit := true);
    SizeEmit(lex.View(), true);
    lex.SetEmitSpaces(true);
    var result := "{" + name.literal;
    while true
      invariant lex.Valid() && QueryParameter(lex.View(), result) == QueryParameter(start, "{" + name.literal)
      invariant Size(lex.View()) <= Size(start)
      decreases Size(lex.View())
    {
      ghost var st := lex.View();
      LookDecreases(st);
      PeekIsLook(st);
      var token := Peek(lex);
      if token.typ == RCURLY {
        break;
      }
      token := Consume(lex);
      if token.typ == EOS {
        return Failed;
      }
      if !Live(token) {
        return Endless;
      }
      result := result + token.literal;
    }
    SizeEmit(lex.View(), emitSpace);
    result := result + "}";
    lex.SetEmitSpaces(emitSpace);
    return Done(result);
  }

  function ParameterSpec(token: Token, st: State): (Outcome, State) {
    var n := Look(st);
    if n.token.typ != COLON then (Failed, n.peeked)
    else
      var (o, s) := QueryParameter(n.peeked.(emit := true), "{" + token.literal);
      (o, s.(emit := st.emit))
  }

  /** What follows the first token of a part of an escape sequence. */
  function PartSpec(seg: string, token: Token, st: State): (Outcome, State) {
    if token.typ == FN then Function(seg, st)
    else if token.typ == T then QuotedSpec(st, "cast(", " as Time)")
    else if token.typ == D then QuotedSpec(st, "toDate32(", ")")
    else if token.typ == TS then QuotedSpec(st, "toDateTime64(", ", 9)")
    else ParameterSpec(token, st)
  }

  lemma QuotedStep(seg: string, st: State, acc: string, before: string, behind: string)
    ensures var (o, s) := QuotedSpec(st, before, behind);
            var spec := Quoted(seg, st, acc, before, behind);
            if o.Done? then spec == SequenceBody(seg, s, acc + o.text) else spec.0 == o
  {
    hide Look, SequenceBody;
  }

  lemma ParameterStep(seg: string, st: State, acc: string, token: Token)
    ensures var (o, s) := ParameterSpec(token, st);
            var spec := Parameter(seg, st, acc, token.literal);
            if o.Done? then spec == SequenceBody(seg, s, acc + o.text) else spec.0 == o
  {
    hide Look, SequenceBody, QueryParameter;
  }

  /** One round of the loop in processEscapeSequencesImpl. */
  lemma BodyStep(seg: string, st: State, acc: string)
    ensures var n := Look(SkipSpaces(st));
            var (o, s) := PartSpec(seg, n.token, n.after);
            var spec := SequenceBody(seg, st, acc);
            if n.token.typ == RCURLY then spec == (Done(acc), n.after)
            else if o.Done? then spec == SequenceBody(seg, s, acc + o.text)
            else spec.0 == o
  {
    hide Look, SkipSpaces, Function, Quoted, QuotedSpec, Parameter, ParameterSpec, Shrinks, Size, NoVT;
    var n := Look(SkipSpaces(st));
    QuotedStep(seg, n.after, acc, "cast(", " as Time)");
    QuotedStep(seg, n.after, acc, "toDate32(", ")");
    QuotedStep(seg, n.after, acc, "toDateTime64(", ", 9)");
    ParameterStep(seg, n.after, acc, n.token);
  }

  lemma ParameterDecreases(token: Token, st: State)
    ensures var (o, s) := ParameterSpec(token, st); o.Done? ==> Size(s) < Size(st)
  {
    hide QueryParameter, Look, LiveCount;
    LookDecreases(st);
    var p := Look(st).peeked;
    LookQueued(p, true);
    SizeEmit(p, true);
  }

  lemma PartDecreases(seg: string, token: Token, st: State)
    ensures var (o, s) := PartSpec(seg, token, st);
            o.Done? ==> Size(s) <= Size(st) && (Live(token) || Size(s) < Size(st))
  {
    hide Function, Look, LiveCount, ParameterSpec;
    LookDecreases(st);
    ParameterDecreases(token, st);
  }

  /** A name, and a query parameter if a colon follows it. */
  method ProcessName(token: Token, lex: Lexer) returns (o: Outcome)
    requires lex.Valid()
    modifies lex
    ensures lex.Valid() && Agrees(o, lex.View(), ParameterSpec(token, old(lex.View())))
  {
    hide Look, Size, QueryParameter;
    LookDecreases(lex.View());
    var colon := Peek(lex);
    if colon.typ != COLON {
      return Failed;
    }
    o := ProcessClickHouseQueryParameter(token, lex);
  }

  method ProcessPart(seg: string, token: Token, lex: Lexer) returns (o: Outcome)
    requires lex.Valid()
    modifies lex
    ensures lex.Valid() && Agrees(o, lex.View(), PartSpec(seg, token, old(lex.View())))
    decreases Size(lex.View()), 3
  {
    hide Look, Size, Function, QuotedSpec, ParameterSpec;
    LookDecreases(lex.View());
    match token.typ
    case FN => o := ProcessFunction(seg, lex);
    case T => o := ProcessQuoted(lex, "cast(", " as Time)");
    case D => o := ProcessQuoted(lex, "toDate32(", ")");
    case TS => o := ProcessQuoted(lex, "toDateTime64(", ", 9)");
    case _ => o := ProcessName(token, lex);
  }

  method ProcessEscapeSequencesImpl(seg: string, lex: Lexer) returns (o: Outcome)
    requires lex.Valid()
    modifies lex
    ensures lex.Valid() && Agrees(o, lex.View(), Sequence(seg, old(lex.View())))
    decreases Size(Look(lex.View()).after), 4
  {
    hide Look, Size, NoVT, Live, SequenceBody, PartSpec, SkipSpaces;
    var matched := Match(lex, LCURLY);
    if !matched {
      return Done(seg);
    }
    ghost var start := lex.View();
    var result := "";
    while true
      invariant lex.Valid() && SequenceBody(seg, lex.View(), result) == SequenceBody(seg, start, "")
      invariant Size(lex.View()) <= Size(start)
      decreases Size(lex.View())
    {
      BodyStep(seg, lex.View(), result);
      SpacesDecrease(lex.View());
      MatchSpaces(lex);
      LookDecreases(lex.View());
      var token := Consume(lex);
      if token.typ == RCURLY {
        return Done(result);
      }
      PartDecreases(seg, token, lex.View());
      var processed := ProcessPart(seg, token, lex);
      if !processed.Done? {
        return processed;
      }
      result := result + processed.text;
    }
  }

  lemma SpacesDecrease(st: State)
    ensures Size(SkipSpaces(st)) <= Size(st)
  {
  }

  ghost predicate ArgsAgree(a: ArgsOutcome, st: State, spec: (ArgsOutcome, State)) {
    a == spec.0 && (a.Args? ==> st == spec.1)
  }

  /** The arguments of a function that is rewritten from their texts. */
  method ProcessArguments(seg: string, lex: Lexer, count: nat) returns (a: ArgsOutcome)
    requires lex.Valid() && count > 0
    modifies lex
    ensures lex.Valid() && ArgsAgree(a, lex.View(), Arguments(seg, old(lex.View()), count))
    ensures a.Args? ==> |a.texts| == count
    decreases Size(lex.View()), 1, count
  {
    hide Look, Matched, Argument, Size, Shrinks, NoVT;
    ArgumentDecreases(seg, lex.View());
    var o := ProcessFunctionArgument(seg, lex);
    if !o.Done? {
      return if o.Failed? then ArgsFailed else ArgsEndless;
    }
    MatchDecreases(lex.View(), if count == 1 then RPARENT else COMMA);
    var matched := Match(lex, if count == 1 then RPARENT else COMMA);
    if !matched {
      return ArgsFailed;
    }
    if count == 1 {
      return Args([o.text]);
    }
    var rest := ProcessArguments(seg, lex, count - 1);
    return if rest.Args? then Args([o.text] + rest.texts) else rest;
  }

  lemma ArgumentDecreases(seg: string, st: State)
    ensures Size(Argument(seg, st.(emit := true), "").1) <= Size(st)
  {
    SizeEmit(st, true);
  }

  lemma MatchDecreases(st: State, typ: Type)
    ensures Size(Look(st).peeked) <= Size(st)
    ensures Matched(st, typ).Some? ==> Size(Matched(st, typ).value) <= Size(st)
  {
  }

  method ProcessFunction(seg: string, lex: Lexer) returns (o: Outcome)
    requires lex.Valid()
    modifies lex
    ensures lex.Valid() && Agrees(o, lex.View(), Function(seg, old(lex.View())))
    decreases Size(Look(lex.View()).after), 2
  {
    hide Look, Matched, Size, NoVT, Arguments, Target, Rewrite, Convert, CurrentTime, TimestampAdd, Locate, Renamed;
    ghost var st := lex.View();
    var fn := Consume(lex);
    if !fn.typ.FunctionName? {
      return Done(seg);
    }
    var name := fn.typ.name;
    if Arity(name) > 0 {
      MatchDecreases(lex.View(), LPARENT);
      var matched := Match(lex, LPARENT);
      if !matched {
        return if name == "INSERT" then Done(seg) else Failed;
      }
      var args := ProcessArguments(seg, lex, Arity(name));
      return Finish(name, args);
    } else if name == "CONVERT" {
      o := ProcessConvert(seg, lex);
    } else if name == "CURRENT_TIME" || name == "CURRENT_TIMESTAMP" {
      o := ProcessCurrentTime(seg, lex);
    } else if name == "TIMESTAMPADD" {
      o := ProcessTimestampAdd(seg, lex);
    } else if name == "LOCATE" {
      o := ProcessLocate(seg, lex);
    } else if Target(name).Some? {
      SizeEmit(lex.View(), true);
      o := ProcessRenamed(seg, lex, name);
    } else {
      return Done(seg);
    }
  }

  method ProcessConvert(seg: string, lex: Lexer) returns (o: Outcome)
    requires lex.Valid()
    modifies lex
    ensures lex.Valid() && Agrees(o, lex.View(), Convert(seg, old(lex.View())))
    decreases Size(lex.View()), 1
  {
    hide Look, Matched, Argument, Size, Shrinks, Live, NoVT, ConvertType, SkipSpaces;
    MatchDecreases(lex.View(), LPARENT);
    var matched := Match(lex, LPARENT);
    if !matched {
      return Failed;
    }
    var num := ProcessFunctionArgument(seg, lex);
    if !num.Done? {
      return num;
    }
    matched := MatchBehindSpaces(lex, COMMA);
    if !matched {
      return Failed;
    }
    MatchSpaces(lex);
    var typ := Consume(lex);
    if typ.typ != IDENT || ConvertType(typ.literal).None? {
      return Failed;
    }
    matched := MatchBehindSpaces(lex, RPARENT);
    if !matched {
      return Failed;
    }
    return Done("CAST(" + num.text + " AS " + ConvertType(typ.literal).value + ")");
  }

  method ProcessCurrentTime(seg: string, lex: Lexer) returns (o: Outcome)
    requires lex.Valid()
    modifies lex
    ensures lex.Valid() && Agrees(o, lex.View(), CurrentTime(seg, old(lex.View())))
    decreases Size(lex.View()), 1
  {
    hide Look, Matched, Argument, Size;
    MatchDecreases(lex.View(), LPARENT);
    var matched := Match(lex, LPARENT);
    if !matched {
      return Done("now64()");
    }
    var precision := ProcessFunctionArgument(seg, lex);
    if !precision.Done? {
      return precision;
    }
    matched := Match(lex, RPARENT);
    if !matched {
      return Failed;
    }
    return Done("now64(" + precision.text + ")");
  }

  method ProcessTimestampAdd(seg: string, lex: Lexer) returns (o: Outcome)
    requires lex.Valid()
    modifies lex
    ensures lex.Valid() && Agrees(o, lex.View(), TimestampAdd(seg, old(lex.View())))
    decreases Size(lex.View()), 1
  {
    hide Look, Matched, Argument, Size, AddFunction, SkipSpaces;
    MatchDecreases(lex.View(), LPARENT);
    var matched := Match(lex, LPARENT);
    if !matched {
      return Failed;
    }
    LookDecreases(lex.View());
    var unit := Consume(lex);
    if !unit.typ.TimeUnit? {
      return Failed;
    }
    MatchDecreases(lex.View(), COMMA);
    matched := Match(lex, COMMA);
    if !matched {
      return Failed;
    }
    ArgumentDecreases(seg, lex.View());
    var amount := ProcessFunctionArgument(seg, lex);
    if !amount.Done? {
      return amount;
    }
    matched := MatchBehindSpaces(lex, COMMA);
    if !matched {
      return Failed;
    }
    var date := ProcessFunctionArgument(seg, lex);
    if !date.Done? {
      return date;
    }
    matched := MatchBehindSpaces(lex, RPARENT);
    if !matched {
      return Failed;
    }
    return Done(AddFunction(unit.typ.name) + "(" + date.text + ", " + amount.text + ")");
  }

  method ProcessLocate(seg: string, lex: Lexer) returns (o: Outcome)
    requires lex.Valid()
    modifies lex
    ensures lex.Valid() && Agrees(o, lex.View(), Locate(seg, old(lex.View())))
    decreases Size(lex.View()), 1
  {
    hide Look, Matched, Argument, Size;
    MatchDecreases(lex.View(), LPARENT);
    var matched := Match(lex, LPARENT);
    if !matched {
      return Failed;
    }
    ArgumentDecreases(seg, lex.View());
    var needle := ProcessFunctionArgument(seg, lex);
    if !needle.Done? {
      return needle;
    }
    MatchDecreases(lex.View(), COMMA);
    matched := Match(lex, COMMA);
    if !matched {
      return Failed;
    }
    ArgumentDecreases(seg, lex.View());
    var haystack := ProcessFunctionArgument(seg, lex);
    if !haystack.Done? {
      return haystack;
    }
    var offset := Done("1");
    MatchDecreases(lex.View(), COMMA);
    matched := Match(lex, COMMA);
    if matched {
      offset := ProcessFunctionArgument(seg, lex);
      if !offset.Done? {
        return offset;
      }
    }
    matched := Match(lex, RPARENT);
    if !matched {
      return Failed;
    }
    return Done("position(" + haystack.text + "," + needle.text + ",accurateCast(" + offset.text + ",'UInt64'))");
  }

  /** One round of the loop for the functions of function_map. */
  lemma RenamedRound(seg: string, st: State, name: string, acc: string)
    ensures var n, r := Look(st), Renamed(seg, st, name, acc);
            if n.token.typ in {RCURLY, EOS, INVALID} then r == (Done(acc), n.peeked.(emit := false))
            else if n.token.typ == LCURLY then
              var (o, s) := Nested(seg, n.peeked);
              r == if o.Done? then Renamed(seg, s, name, acc + o.text) else (o, s)
            else if n.token.typ == FunctionName("EXTRACT") then
              var (o, s) := Function(seg, n.peeked);
              Size(s) < Size(n.peeked) && r == if o.Done? then Renamed(seg, s, name, acc + o.text) else (o, s)
            else if Live(n.token) then
              r == Renamed(seg, n.after, name, acc + CopiedText(name, n.token))
            else r.0 == Endless
  {
    hide Look, Nested, NoVT, LiveCount, Function, UnitLiteral;
    LookDecreases(st);
  }

  function CopiedText(name: string, token: Token): string {
    if name != "EXTRACT" && token.typ.TimeUnit? then UnitLiteral(token.typ.name) else token.literal
  }

  lemma NestedDecreases(seg: string, st: State)
    requires st.queue != [] && Look(st).token.typ == LCURLY
    ensures Size(Nested(seg, st).1) < Size(st)
  {
    hide Look, Nested;
  }

  /** The functions of function_map, behind their names. */
  method ProcessRenamed(seg: string, lex: Lexer, name: string) returns (o: Outcome)
    requires lex.Valid() && Target(name).Some?
    modifies lex
    ensures lex.Valid()
    ensures Agrees(o, lex.View(), Renamed(seg, old(lex.View()).(emit := true), name, Target(name).value))
    decreases Size(lex.View()), 1
  {
    hide Look, Nested, Live, Size, Shrinks, NoVT, Function, Target, CopiedText, Renamed;
    var result := Target(name).value;
    ghost var start := lex.View().(emit := true);
    SizeEmit(lex.View(), true);
    lex.SetEmitSpaces(true);
    while true
      invariant lex.Valid() && Renamed(seg, lex.View(), name, result) == Renamed(seg, start, name, Target(name).value)
      invariant Size(lex.View()) <= Size(start)
      decreases Size(lex.View())
    {
      ghost var st := lex.View();
      LookDecreases(st);
      RenamedRound(seg, st, name, result);
      var token := Peek(lex);
      if token.typ == RCURLY || token.typ == EOS || token.typ == INVALID {
        lex.SetEmitSpaces(false);
        return Done(result);
      } else if token.typ == LCURLY {
        NestedDecreases(seg, lex.View());
        var processed := ProcessNested(seg, lex);
        if !processed.Done? {
          return processed;
        }
        result := result + processed.text;
      } else if token.typ == FunctionName("EXTRACT") {
        var processed := ProcessFunction(seg, lex);
        if !processed.Done? {
          return processed;
        }
        result := result + processed.text;
      } else if !Live(token) {
        return Endless;
      } else {
        result := result + CopiedText(name, token);
        token := Consume(lex);
      }
    }
  }

  /** processEscapeSequences */
  method ProcessEscapeSequences(seg: string) returns (o: Outcome)
    ensures o == Translate(seg)
    ensures VT !in seg ==> o != Endless
  {
    hide Sequence;
    var lex := new Lexer(seg);
    assert VT !in seg ==> NoVT(lex.View());
    o := ProcessEscapeSequencesImpl(seg, lex);
  }
}
