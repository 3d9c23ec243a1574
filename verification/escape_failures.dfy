/** Escape sequences whose translation fails or does not come to an end. */
module EscapeFailures {
  import opened Text
  import opened Lexing
  import opened EscapeTranslation
  import opened EscapeSequences
  import opened EscapeProperties
  import opened EscapeItems
  import opened EscapeResults
  import opened EscapeReplacement
  import opened QueryParameters

  // -------- delimiters that are not the ones that are awaited

  /** The delimiters behind the arguments are those that the function waits for. */
  predicate Awaited(name: string, args: Args) {
    if Arity(name) > 0 then Count(args) == Arity(name)
    else if name == "CONVERT" then args.More?
    else if IsCurrentTime(name) then args.Last?
    else if name == "TIMESTAMPADD" then Count(args) == 3
    else 2 <= Count(args) <= 3
  }

  /** The arguments of a function, and for TIMESTAMPADD the unit. */
  predicate FineTexts(name: string, args: Args) {
    if Arity(name) == 0 && name == "TIMESTAMPADD" then
      args.More? && NameType(Word(args.items)).TimeUnit? && FineArgs(args.rest)
    else FineArgs(args) && (Arity(name) > 0 || name == "CONVERT" || name == "LOCATE" || IsCurrentTime(name))
  }

  lemma NotMatched(c: char, after: string, typ: Type)
    requires Delimiter(c).Some? && typ != Delimiter(c).value
    ensures Matched(Queued(c, after), typ) == None && Matched(SkipSpaces(Queued(c, after)), typ) == None
    ensures Look(Queued(c, after)).peeked == Queued(c, after)
  {
    hide Look, Delimiter, Queued;
    MatchQueued(c, after, typ);
  }

  lemma ConvertFails(seg: string, open: string, args: Args, after: string)
    requires Blanks(open) && FineArgs(args) && args.Last?
    ensures Convert(seg, Bracket(open, PrintedArgs(args) + after)).0 == Failed
  {
    hide Look, Matched, Argument, SkipSpaces, FineArgs, PrintedArgs, Texts, Delimiter, Queued, Bracket, Blanks,
         Shrinks, NoVT;
    FirstArgument(seg, args, after);
    BracketMatched(open, PrintedArgs(args) + after);
    NotMatched(')', after, COMMA);
  }

  lemma CurrentTimeFails(seg: string, open: string, args: Args, after: string)
    requires Blanks(open) && FineArgs(args) && args.More?
    ensures CurrentTime(seg, Bracket(open, PrintedArgs(args) + after)).0 == Failed
  {
    hide Look, Matched, Argument, FineArgs, PrintedArgs, Texts, Delimiter, Queued, Bracket, Blanks, Shrinks, NoVT;
    FirstArgument(seg, args, after);
    BracketMatched(open, PrintedArgs(args) + after);
    NotMatched(',', PrintedArgs(args.rest) + after, RPARENT);
  }

  lemma LocateFails(seg: string, open: string, args: Args, after: string)
    requires Blanks(open) && FineArgs(args) && (Count(args) == 1 || Count(args) > 3)
    ensures Locate(seg, Bracket(open, PrintedArgs(args) + after)).0 == Failed
  {
    hide Look, Matched, Argument, PrintedArgs, ShownAll, FineAll, Delimiter, Queued, Bracket, Blanks, Shrinks, NoVT;
    FirstArgument(seg, args, after);
    BracketMatched(open, PrintedArgs(args) + after);
    if args.Last? {
      NotMatched(')', after, COMMA);
    } else {
      var s1, s2, s3 := PrintedArgs(args.rest) + after, PrintedArgs(args.rest.rest) + after,
          PrintedArgs(args.rest.rest.rest) + after;
      MatchQueued(',', s1, COMMA);
      FirstArgument(seg, args.rest, after);
      MatchQueued(',', s2, COMMA);
      FirstArgument(seg, args.rest.rest, after);
      NotMatched(',', s3, RPARENT);
    }
  }

  lemma TimestampAddFails(seg: string, open: string, args: Args, after: string)
    requires Blanks(open) && args.More? && NameType(Word(args.items)).TimeUnit? && FineArgs(args.rest)
             && Count(args) != 3
    ensures TimestampAdd(seg, Bracket(open, PrintedArgs(args) + after)).0 == Failed
  {
    hide Look, Matched, Argument, SkipSpaces, PrintedArgs, ShownAll, FineAll, Delimiter, Queued, Bracket, Blanks,
         Shrinks, NoVT, Word, NameType;
    UnitRead(seg, open, args, after);
    FirstArgument(seg, args.rest, after);
    if args.rest.Last? {
      NotMatched(')', after, COMMA);
    } else {
      var s2, s3 := PrintedArgs(args.rest.rest) + after, PrintedArgs(args.rest.rest.rest) + after;
      MatchQueued(',', s2, COMMA);
      FirstArgument(seg, args.rest.rest, after);
      NotMatched(',', s3, RPARENT);
    }
  }

  /** A function fails when a delimiter behind its arguments is not the one that it waits for. */
  lemma FnFails(seg: string, name: string, open: string, args: Args, after: string)
    requires Blanks(open) && FineTexts(name, args) && !Awaited(name, args)
    ensures Behind(seg, name, Bracket(open, PrintedArgs(args) + after)).0 == Failed
  {
    hide Behind, Convert, CurrentTime, Locate, TimestampAdd, FineArgs, PrintedArgs, Arity, Bracket, Blanks, Word,
         NameType;
    BehindCases(seg, Bracket(open, PrintedArgs(args) + after));
    if Arity(name) > 0 {
      FunctionRewritten(seg, name, open, args, after);
    } else if name == "CONVERT" {
      ConvertFails(seg, open, args, after);
    } else if IsCurrentTime(name) {
      CurrentTimeFails(seg, open, args, after);
    } else if name == "TIMESTAMPADD" {
      TimestampAddFails(seg, open, args, after);
    } else {
      LocateFails(seg, open, args, after);
    }
  }

  /** A sequence whose function fails is not translated. */
  lemma FunctionFails(seg: string, head: Head, fn: string, rest: string)
    requires FnHead(head) && IsCall(fn) && rest != "" && MayFollow(Ident(fn), Some(rest[0]))
    requires !Behind(seg, Upper(fn), Shut(rest)).0.Done?
    ensures SequenceBody(seg, Shut(PrintedHead(head, fn + rest)), "").0 == Behind(seg, Upper(fn), Shut(rest)).0
  {
    hide SequenceBody, Function, Behind, IsIdentifier, IsCall, Upper, Blanks, MayFollow;
    FunctionSequence(seg, head, fn + rest);
    HeadGap(head);
    FunctionBehind(seg, head.gap, fn, rest);
  }

  /** Arguments that are not the expected ones, as the lexer sees them, make the translation fail. */
  lemma CallFails(head: Head, fn: string, open: string, args: Args, after: string)
    requires FnHead(head) && IsCall(fn) && Blanks(open) && FineTexts(Upper(fn), args) && !Awaited(Upper(fn), args)
    ensures Translate(['{'] + PrintedHead(head, fn + (open + (['('] + (PrintedArgs(args) + after))))) == Failed
  {
    hide SequenceBody, Behind, IsIdentifier, IsCall, Upper, Blanks, FnHead, MayFollow, PrintedHead, FineTexts, Awaited,
         PrintedArgs, Translate;
    var rest := open + (['('] + (PrintedArgs(args) + after));
    var text := PrintedHead(head, fn + rest);
    TranslateBody(text);
    CallFollows(fn, open, PrintedArgs(args) + after);
    FnFails(['{'] + text, Upper(fn), open, args, after);
    FunctionFails(['{'] + text, head, fn, rest);
  }

  // -------- texts that are cut off

  /** A place inside nested lists and escape sequences: the items in front of it, and where it is. */
  datatype Spot = Spot(items: Items, inner: Place)

  datatype Place = Stop | InList(spot: Spot) | InCall(call: Cutoff)

  /** Arguments with their commas. */
  datatype Front = NoFront | Arg(items: Items, rest: Front)

  /** An escape sequence that is cut off. */
  datatype Cutoff =
    | FnCut(head: Head, fn: string, open: string, front: Front, spot: Spot)
    | CopiedCut(head: Head, fn: string, spot: Spot)
    | TypeCut(lead: string, name: string, gap: string, typeName: string)

  /** The text, with `rest` at the place. */
  function SpotText(spot: Spot, rest: string): string
    decreases spot, 1
  {
    PrintedAll(spot.items) + PlaceText(spot.inner, rest)
  }

  function PlaceText(inner: Place, rest: string): string
    decreases inner
  {
    match inner
    case Stop => rest
    case InList(spot) => ['('] + SpotText(spot, rest)
    case InCall(call) => ['{'] + CutText(call, rest)
  }

  function FrontText(front: Front, behind: string): string {
    match front
    case NoFront => behind
    case Arg(items, more) => PrintedAll(items) + ([','] + FrontText(more, behind))
  }

  function CutText(call: Cutoff, rest: string): string
    decreases call
  {
    match call
    case FnCut(head, fn, open, front, spot) =>
      PrintedHead(head, fn + (open + (['('] + FrontText(front, SpotText(spot, rest)))))
    case CopiedCut(head, fn, spot) => PrintedHead(head, fn + SpotText(spot, rest))
    case TypeCut(lead, name, gap, typeName) => lead + (name + (gap + (":" + (typeName + rest))))
  }

  function Length(front: Front): nat { if front == NoFront then 0 else 1 + Length(front.rest) }

  predicate FineFront(front: Front) {
    front.Arg? ==> FineAll(front.items, Some(','), InArgument) && FineFront(front.rest)
  }

  /** Behind these arguments the function reads another one. */
  predicate ReadsOn(name: string, front: Front) {
    if Arity(name) > 0 then Length(front) < Arity(name) && FineFront(front)
    else if name == "CONVERT" || IsCurrentTime(name) then front == NoFront
    else if name == "TIMESTAMPADD" then
      front.Arg? && NameType(Word(front.items)).TimeUnit? && Length(front.rest) < 2 && FineFront(front.rest)
    else name == "LOCATE" && Length(front) < 3 && FineFront(front)
  }

  /** At the place there is a vertical tab, the end of the text, or a token that the lexer does not know. */
  predicate Halts(rest: string) { rest == "" || rest[0] == VT || Here(rest).token.typ == INVALID }

  predicate FineSpot(spot: Spot, k: Kind, rest: string)
    decreases spot, 1
  {
    FineAll(spot.items, FirstOf(PlaceText(spot.inner, rest)), k) && FinePlace(spot.inner, k, rest)
  }

  /** Functions that are copied up to the closing brace go on behind a token that the lexer does not know. */
  predicate FinePlace(inner: Place, k: Kind, rest: string)
    decreases inner
  {
    match inner
    case Stop => k == InCopied ==> rest == "" || rest[0] == VT
    case InList(spot) => k != InCopied && FineSpot(spot, InParentheses, rest)
    case InCall(call) => FineCut(call, rest)
  }

  predicate FineCut(call: Cutoff, rest: string)
    decreases call
  {
    match call
    case FnCut(head, fn, open, front, spot) =>
      && FnHead(head) && IsCall(fn) && Blanks(open) && ReadsOn(Upper(fn), front) && FineSpot(spot, InArgument, rest)
    case CopiedCut(head, fn, spot) =>
      && FnHead(head) && IsCall(fn) && IsCopied(Upper(fn)) && FineSpot(spot, InCopied, rest)
      && SpotText(spot, rest) != "" && MayFollow(Ident(fn), FirstOf(SpotText(spot, rest)))
    case TypeCut(lead, name, gap, typeName) =>
      Blanks(lead) && IsParameterName(name) && Blanks(gap) && IsTypeText(typeName) && (rest == "" || rest[0] == VT)
  }

  predicate AtTab(rest: string) { rest != "" && rest[0] == VT }

  predicate Stopped(st: State) { st.queue != [] && st.queue[0].typ in {EOS, INVALID} }

  /** A loop does not come to an end at a vertical tab; otherwise it fails, or it leaves the end of the text, or the
      unknown token, to others. */
  ghost predicate Halted(rest: string, r: (Outcome, State)) {
    if AtTab(rest) then r.0 == Endless else r.0 == Failed || (r.0.Done? && Stopped(r.1))
  }

  function Verdict(rest: string): Outcome { if AtTab(rest) then Endless else Failed }

  lemma StopHere(rest: string)
    requires Halts(rest)
    ensures var t := Here(rest).token;
            if AtTab(rest) then t.typ == OTHER && !Live(t) else t.typ in {EOS, INVALID}
  {
    hide Here;
    FirstToken(rest);
    EndHere();
  }

  lemma LoopStops(k: Kind, seg: string, rest: string, acc: string)
    requires k != InCopied && Halts(rest)
    ensures Halted(rest, Loop(k, seg, Open(rest), acc))
  {
    hide Look, Here, Argument, Parentheses, Inner, Halts, AtTab, Live;
    StopHere(rest);
    LookHere(rest);
    if k == InArgument {
      ArgumentRound(seg, Open(rest), acc);
    } else {
      ParenthesesStep(seg, Open(rest), acc);
    }
  }

  lemma LoopStopsAgain(k: Kind, seg: string, st: State, acc: string)
    requires k != InCopied && Stopped(st)
    ensures var (o, s) := Loop(k, seg, st, acc); o.Done? && Stopped(s)
  {
    hide Look, Argument, Parentheses, Inner;
    LookAtQueue(st);
    if k == InArgument {
      ArgumentRound(seg, st, acc);
    } else {
      ParenthesesStep(seg, st, acc);
    }
  }

  lemma SpotHalts(k: Kind, seg: string, spot: Spot, rest: string, acc: string)
    requires k != InCopied && Halts(rest) && FineSpot(spot, k, rest)
    ensures Halted(rest, Loop(k, seg, Open(SpotText(spot, rest)), acc))
    decreases spot, 0
  {
    hide Loop, SequenceBody, FineAll, FineCut, PrintedAll, ShownAll, CutText, Halts, Parentheses, Stopped, AtTab;
    var more := acc + ShownAll(spot.items);
    ItemsCopied(k, seg, spot.items, PlaceText(spot.inner, rest), acc);
    match spot.inner
    case Stop => LoopStops(k, seg, rest, more);
    case InList(inner) =>
      ListHalts(seg, inner, rest);
      ListInside(k, seg, SpotText(inner, rest), more);
      var (o, s) := Parentheses(seg, Open(SpotText(inner, rest)), "(");
      if o.Done? {
        LoopStopsAgain(k, seg, s, more + o.text);
      }
    case InCall(call) =>
      CutHalts(seg, call, rest);
      SequenceInside(k, seg, CutText(call, rest), more);
  }

  lemma ListHalts(seg: string, spot: Spot, rest: string)
    requires Halts(rest) && FineSpot(spot, InParentheses, rest)
    ensures Halted(rest, Parentheses(seg, Open(SpotText(spot, rest)), "("))
    decreases spot, 1
  {
    hide Argument, Parentheses, FineSpot, SpotText, Halts, Halted;
    SpotHalts(InParentheses, seg, spot, rest, "(");
  }

  lemma ArgumentHalts(seg: string, spot: Spot, rest: string)
    requires Halts(rest) && FineSpot(spot, InArgument, rest)
    ensures Halted(rest, Argument(seg, Shut(SpotText(spot, rest)).(emit := true), ""))
    decreases spot, 1, 0
  {
    hide Argument, Parentheses, FineSpot, SpotText, Halts, Halted;
    OpenForArguments(SpotText(spot, rest));
    SpotHalts(InArgument, seg, spot, rest, "");
  }

  /** An argument with its comma, and the others behind it. */
  lemma FrontArgument(seg: string, front: Front, behind: string)
    requires front.Arg? && FineAll(front.items, Some(','), InArgument)
    ensures Delimiter(',') == Some(COMMA)
    ensures var next := FrontText(front.rest, behind);
            && Argument(seg, Shut(FrontText(front, behind)).(emit := true), "")
                == (Done(ShownAll(front.items)), Queued(',', next))
            && Matched(Queued(',', next), COMMA) == Some(Shut(next))
            && Matched(SkipSpaces(Queued(',', next)), COMMA) == Some(Shut(next))
  {
    hide Argument, Matched, FineAll, PrintedAll, ShownAll, Delimiter, SkipSpaces;
    Signs();
    var next := FrontText(front.rest, behind);
    OpenForArguments(FrontText(front, behind));
    ArgumentTranslated(seg, front.items, ',', next);
    MatchQueued(',', next, COMMA);
  }

  lemma StopMatches(st: State, typ: Type)
    requires Stopped(st) && typ !in {EOS, INVALID}
    ensures Matched(st, typ) == None && Matched(SkipSpaces(st), typ) == None && Stopped(Look(st).peeked)
  {
    hide Look;
    LookAtQueue(st);
  }

  lemma ArgumentsHalt(seg: string, front: Front, spot: Spot, rest: string, count: nat)
    requires Halts(rest) && FineFront(front) && FineSpot(spot, InArgument, rest) && count > Length(front)
    ensures Arguments(seg, Shut(FrontText(front, SpotText(spot, rest))), count).0
            == if AtTab(rest) then ArgsEndless else ArgsFailed
    decreases spot, 2, front
  {
    hide Argument, Look, Matched, FineAll, FineSpot, SpotText, ShownAll, Shrinks, NoVT, Queued, Halts, Stopped,
         Delimiter;
    if front == NoFront {
      ArgumentHalts(seg, spot, rest);
      var (o, s) := Argument(seg, Shut(SpotText(spot, rest)).(emit := true), "");
      if o.Done? {
        StopMatches(s, if count == 1 then RPARENT else COMMA);
      }
    } else {
      FrontArgument(seg, front, SpotText(spot, rest));
      ArgumentsHalt(seg, front.rest, spot, rest, count - 1);
    }
  }

  lemma FirstHalts(seg: string, name: string, open: string, spot: Spot, rest: string)
    requires Blanks(open) && Halts(rest) && FineSpot(spot, InArgument, rest)
    requires name == "CONVERT" || IsCurrentTime(name)
    ensures Behind(seg, name, Bracket(open, SpotText(spot, rest))).0 == Verdict(rest)
    decreases spot, 2
  {
    hide Behind, Argument, Look, Matched, SkipSpaces, FineSpot, SpotText, Shrinks, NoVT, Halts, Stopped, Bracket,
         Blanks;
    BehindCases(seg, Bracket(open, SpotText(spot, rest)));
    BracketMatched(open, SpotText(spot, rest));
    ArgumentHalts(seg, spot, rest);
    var (o, s) := Argument(seg, Shut(SpotText(spot, rest)).(emit := true), "");
    if o.Done? {
      StopMatches(s, COMMA);
      StopMatches(s, RPARENT);
    }
  }

  lemma TimestampAddHalts(seg: string, open: string, front: Front, spot: Spot, rest: string)
    requires Blanks(open) && Halts(rest) && FineSpot(spot, InArgument, rest)
    requires front.Arg? && NameType(Word(front.items)).TimeUnit? && Length(front.rest) < 2 && FineFront(front.rest)
    ensures TimestampAdd(seg, Bracket(open, FrontText(front, SpotText(spot, rest)))).0 == Verdict(rest)
    decreases spot, 2
  {
    hide Argument, Look, Matched, SkipSpaces, FineAll, FineSpot, SpotText, PrintedAll, ShownAll, Shrinks, NoVT, Halts,
         Stopped, Bracket, Blanks, Queued, Word, NameType, Delimiter, Trail;
    var last := SpotText(spot, rest);
    UnitInFront(seg, open, front, last);
    ArgumentHalts(seg, spot, rest);
    if front.rest.Arg? {
      FrontArgument(seg, front.rest, last);
    }
    var (o, s) := Argument(seg, Shut(last).(emit := true), "");
    if o.Done? {
      StopMatches(s, COMMA);
      StopMatches(s, RPARENT);
    }
  }

  lemma UnitInFront(seg: string, open: string, front: Front, behind: string)
    requires Blanks(open) && front.Arg? && NameType(Word(front.items)).TimeUnit?
    ensures var s1 := FrontText(front.rest, behind);
            var s := FrontText(front, behind);
            && Matched(Bracket(open, s), LPARENT) == Some(Shut(s)) && Look(Shut(s)).token.typ.TimeUnit?
            && Matched(Look(Shut(s)).after, COMMA) == Some(Shut(s1))
  {
    hide Look, Matched, PrintedAll, Delimiter, Word, NameType, Bracket, Trail, Blanks;
    Signs();
    NoUnit();
    var s1 := FrontText(front.rest, behind);
    BracketMatched(open, FrontText(front, behind));
    WordRead(front.items, ',', s1);
    SignMatched(Trail(front.items), ',', s1);
  }

  /** What the last argument of a function leaves is no delimiter. */
  lemma LastHalts(seg: string, spot: Spot, rest: string)
    requires Halts(rest) && FineSpot(spot, InArgument, rest)
    ensures var (o, s) := Argument(seg, Shut(SpotText(spot, rest)).(emit := true), "");
            && (if AtTab(rest) then o == Endless else o != Endless)
            && (o.Done? ==>
                  Matched(s, COMMA) == None && Matched(s, RPARENT) == None && Matched(Look(s).peeked, RPARENT) == None)
    decreases spot, 1, 1
  {
    hide Argument, Look, Matched, FineSpot, SpotText, Halts, Stopped;
    ArgumentHalts(seg, spot, rest);
    var (o, s) := Argument(seg, Shut(SpotText(spot, rest)).(emit := true), "");
    if o.Done? {
      StopMatches(s, COMMA);
      StopMatches(s, RPARENT);
      StopMatches(Look(s).peeked, RPARENT);
    }
  }

  lemma LocateStops(seg: string, st: State, s: State, a: string, s1: State, s2: State, r: (Outcome, State))
    requires Matched(st, LPARENT) == Some(s) && Argument(seg, s.(emit := true), "") == (Done(a), s1)
    requires Matched(s1, COMMA) == Some(s2) && Argument(seg, s2.(emit := true), "") == r
    requires r.0.Done? ==> Matched(r.1, COMMA) == None && Matched(Look(r.1).peeked, RPARENT) == None
    ensures Locate(seg, st).0 == if r.0.Done? then Failed else r.0
  {
    hide Look, Matched, Argument, Shrinks, NoVT;
  }

  lemma LocateStopsLate(
      seg: string, st: State, s: State, a: string, s1: State, s2: State, b: string, s3: State, s4: State,
      r: (Outcome, State))
    requires Matched(st, LPARENT) == Some(s) && Argument(seg, s.(emit := true), "") == (Done(a), s1)
    requires Matched(s1, COMMA) == Some(s2) && Argument(seg, s2.(emit := true), "") == (Done(b), s3)
    requires Matched(s3, COMMA) == Some(s4) && Argument(seg, s4.(emit := true), "") == r
    requires r.0.Done? ==> Matched(r.1, RPARENT) == None
    ensures Locate(seg, st).0 == if r.0.Done? then Failed else r.0
  {
    hide Look, Matched, Argument, Shrinks, NoVT;
  }

  lemma LocateHalts(seg: string, open: string, front: Front, spot: Spot, rest: string)
    requires Blanks(open) && Halts(rest) && FineSpot(spot, InArgument, rest) && Length(front) < 3 && FineFront(front)
    ensures Locate(seg, Bracket(open, FrontText(front, SpotText(spot, rest)))).0 == Verdict(rest)
    decreases spot, 3
  {
    hide Locate, FineAll, FineSpot, SpotText, FrontText, Halts, Bracket, Blanks, AtTab;
    FrontEnds(SpotText(spot, rest));
    if front == NoFront {
      LocateHaltsFirst(seg, open, spot, rest);
    } else if front.rest == NoFront {
      LocateHaltsSecond(seg, open, front, spot, rest);
    } else {
      assert Length(front) == 1 + Length(front.rest) == 2 + Length(front.rest.rest);
      LocateHaltsThird(seg, open, front, spot, rest);
    }
  }

  lemma LocateHaltsSecond(seg: string, open: string, front: Front, spot: Spot, rest: string)
    requires Blanks(open) && Halts(rest) && FineSpot(spot, InArgument, rest)
    requires front.Arg? && front.rest == NoFront && FineAll(front.items, Some(','), InArgument)
    ensures Locate(seg, Bracket(open, FrontText(front, SpotText(spot, rest)))).0 == Verdict(rest)
    decreases spot, 2
  {
    hide Argument, Look, Matched, Locate, FineAll, FineSpot, SpotText, FrontText, ShownAll, Halts, Bracket, Blanks,
         Queued, Delimiter, AtTab, PrintedAll, SkipSpaces;
    var last := SpotText(spot, rest);
    var all := FrontText(front, last);
    BracketMatched(open, all);
    FrontEnds(last);
    LastHalts(seg, spot, rest);
    FrontArgument(seg, front, last);
    var r := Argument(seg, Shut(last).(emit := true), "");
    LocateStops(seg, Bracket(open, all), Shut(all), ShownAll(front.items), Queued(',', last), Shut(last), r);
  }

  lemma LocateHaltsThird(seg: string, open: string, front: Front, spot: Spot, rest: string)
    requires Blanks(open) && Halts(rest) && FineSpot(spot, InArgument, rest)
    requires front.Arg? && front.rest.Arg? && front.rest.rest == NoFront && FineFront(front)
    ensures Locate(seg, Bracket(open, FrontText(front, SpotText(spot, rest)))).0 == Verdict(rest)
    decreases spot, 2
  {
    hide Argument, Look, Matched, Locate, FineAll, FineSpot, SpotText, FrontText, ShownAll, Halts, Bracket, Blanks,
         Queued, Delimiter, AtTab, PrintedAll, SkipSpaces;
    var last := SpotText(spot, rest);
    var all, more := FrontText(front, last), FrontText(front.rest, last);
    BracketMatched(open, all);
    FrontEnds(last);
    LastHalts(seg, spot, rest);
    FrontArgument(seg, front, last);
    FrontArgument(seg, front.rest, last);
    var r := Argument(seg, Shut(last).(emit := true), "");
    LocateStopsLate(seg, Bracket(open, all), Shut(all), ShownAll(front.items), Queued(',', more), Shut(more),
                    ShownAll(front.rest.items), Queued(',', last), Shut(last), r);
  }

  lemma FrontEnds(last: string)
    ensures FrontText(NoFront, last) == last
  {
  }

  lemma LocateHaltsFirst(seg: string, open: string, spot: Spot, rest: string)
    requires Blanks(open) && Halts(rest) && FineSpot(spot, InArgument, rest)
    ensures Locate(seg, Bracket(open, SpotText(spot, rest))).0 == Verdict(rest)
    decreases spot, 2
  {
    hide Argument, Look, Matched, FineSpot, SpotText, Shrinks, NoVT, Halts, Bracket, Blanks, AtTab;
    BracketMatched(open, SpotText(spot, rest));
    LastHalts(seg, spot, rest);
  }

  lemma FnHalts(seg: string, name: string, open: string, front: Front, spot: Spot, rest: string)
    requires Blanks(open) && Halts(rest) && ReadsOn(name, front) && FineSpot(spot, InArgument, rest)
    ensures Behind(seg, name, Bracket(open, FrontText(front, SpotText(spot, rest)))).0 == Verdict(rest)
    decreases spot, 4
  {
    hide Convert, CurrentTime, TimestampAdd, Locate, Renamed, Arguments, Matched, Look, FineSpot, SpotText, FineFront,
         Halts, Bracket, Blanks, Arity, Rewrite, Word, NameType, Target;
    var st := Bracket(open, FrontText(front, SpotText(spot, rest)));
    BehindCases(seg, st);
    if Arity(name) > 0 {
      BracketMatched(open, FrontText(front, SpotText(spot, rest)));
      ArgumentsHalt(seg, front, spot, rest, Arity(name));
    } else if name == "CONVERT" || IsCurrentTime(name) {
      FirstHalts(seg, name, open, spot, rest);
    } else if name == "TIMESTAMPADD" {
      TimestampAddHalts(seg, open, front, spot, rest);
    } else {
      LocateHalts(seg, open, front, spot, rest);
    }
  }

  /** A function that is copied does not come to an end at a vertical tab; otherwise it fails, or it reaches the end. */
  ghost predicate CopyHalted(rest: string, r: (Outcome, State)) {
    if AtTab(rest) then r.0 == Endless else r.0 == Failed || (r.0.Done? && r.1 == CopyEnd(""))
  }

  lemma CopyStop(seg: string, name: string, rest: string, acc: string)
    requires rest == "" || rest[0] == VT
    ensures CopyHalted(rest, Renamed(seg, Open(rest), name, acc))
  {
    hide Look, Here, Renamed, Live, CopyEnd;
    if rest == "" {
      CopyStops(seg, name, "", acc);
    } else {
      StopHere(rest);
      LookHere(rest);
      RenamedRound(seg, Open(rest), name, acc);
    }
  }

  lemma PlaceHalts(seg: string, name: string, inner: Place, rest: string, acc: string)
    requires Halts(rest) && FinePlace(inner, InCopied, rest)
    ensures CopyHalted(rest, Renamed(seg, Open(PlaceText(inner, rest)), name, acc))
    decreases inner, 0
  {
    hide Renamed, SequenceBody, FineCut, CutText, Halts, CopyEnd;
    if inner == Stop {
      CopyStop(seg, name, rest, acc);
    } else {
      CutHalts(seg, inner.call, rest);
      CopiedSequence(seg, name, CutText(inner.call, rest), acc);
    }
  }

  lemma CopiedSpotHalts(seg: string, name: string, items: Items, inner: Place, rest: string, acc: string)
    requires Halts(rest) && FineAll(items, FirstOf(PlaceText(inner, rest)), InCopied)
             && FinePlace(inner, InCopied, rest)
    ensures CopyHalted(rest, Renamed(seg, Open(PrintedAll(items) + PlaceText(inner, rest)), name, acc))
    decreases inner, 1, items
  {
    hide Renamed, Fine, MayFollow, Printed, CopiedShown, FinePlace, PlaceText, Halts, IsExtract, CopyEnd, AtTab;
    var end := PlaceText(inner, rest);
    if items == End {
      assert PrintedAll(items) + end == end;
      PlaceHalts(seg, name, inner, rest, acc);
    } else {
      var behind := PrintedAll(items.tail) + end;
      FirstCharacter(items.tail, end);
      assert PrintedAll(items) + end == Printed(items.head) + behind;
      if IsExtract(items.head) {
        CopiedExtract(seg, name, items.head, behind, acc);
        CopiedSpotHalts(seg, "EXTRACT", items.tail, inner, rest, "EXTRACT");
        var (o, s) := Renamed(seg, Open(behind), "EXTRACT", "EXTRACT");
        if o.Done? {
          CopyStops(seg, name, "", acc + o.text);
        }
      } else {
        CopiedItem(seg, name, items.head, behind, acc);
        CopiedSpotHalts(seg, name, items.tail, inner, rest, acc + CopiedShown(items.head, name));
      }
    }
  }

  /** The end of the text cannot be a part of a sequence. */
  lemma SequenceAtEnd(seg: string, acc: string)
    ensures SequenceBody(seg, CopyEnd(""), acc).0 == Failed
  {
    hide Look, Function, Quoted, QueryParameter;
    LookAtQueue(CopyEnd(""));
    NothingLeft();
  }

  lemma NothingLeft()
    ensures Look(Shut("")).token.typ == EOS
  {
    hide Look, Lex, Here;
    LookAtText("", false);
    LexHere("", false);
    EndHere();
  }

  lemma CopiedCutHalts(seg: string, head: Head, fn: string, spot: Spot, rest: string)
    requires Halts(rest) && FineCut(CopiedCut(head, fn, spot), rest)
    ensures SequenceBody(seg, Shut(CutText(CopiedCut(head, fn, spot), rest)), "").0 == Verdict(rest)
    decreases spot, 4
  {
    hide SequenceBody, Function, IsIdentifier, IsCall, Upper, Blanks, MayFollow, PrintedHead, Renamed, Target, Arity,
         FineAll, FinePlace, Halts, CopyEnd, SpotText;
    var text := SpotText(spot, rest);
    FunctionSequence(seg, head, fn + text);
    HeadGap(head);
    FunctionBehind(seg, head.gap, fn, text);
    CopiedBehind(seg, Upper(fn), text);
    SpotParts(spot, InCopied, rest);
    CopiedSpotHalts(seg, Upper(fn), spot.items, spot.inner, rest, Target(Upper(fn)).value);
    var (o, s) := Function(seg, Shut(head.gap + (fn + text)));
    if o.Done? {
      SequenceAtEnd(seg, "" + o.text);
    }
  }

  lemma SpotParts(spot: Spot, k: Kind, rest: string)
    requires FineSpot(spot, k, rest)
    ensures SpotText(spot, rest) == PrintedAll(spot.items) + PlaceText(spot.inner, rest)
    ensures FineAll(spot.items, FirstOf(PlaceText(spot.inner, rest)), k) && FinePlace(spot.inner, k, rest)
  {
  }

  lemma CopiedBehind(seg: string, name: string, text: string)
    requires IsCopied(name)
    ensures Behind(seg, name, Shut(text)) == Renamed(seg, Open(text), name, Target(name).value)
  {
    hide Renamed, Target, Arity, Arguments, Finish, Convert, CurrentTime, TimestampAdd, Locate, Matched, Look;
    OpenForArguments(text);
  }

  lemma TypeHalts(seg: string, lead: string, name: string, gap: string, typeName: string, rest: string)
    requires FineCut(TypeCut(lead, name, gap, typeName), rest)
    ensures SequenceBody(seg, Shut(CutText(TypeCut(lead, name, gap, typeName), rest)), "").0 == Verdict(rest)
  {
    hide Look, SequenceBody, IsParameterName, IsTypeText, QueryParameter, Parameter, Blanks;
    var text := typeName + rest;
    NameBody(seg, lead, name, gap, ":" + text);
    ParameterSkips(seg, gap, ":" + text, name);
    ColonStep(seg, name, text);
    ColonCopied(text, name);
    TypeStops(typeName, rest, "{" + name + ":");
  }

  lemma {:induction false} TypeStops(typeName: string, rest: string, acc: string)
    requires IsTypeText(typeName) && (rest == "" || rest[0] == VT)
    ensures QueryParameter(Open(typeName + rest), acc).0 == Verdict(rest)
    decreases |typeName|
  {
    hide Here, QueryParameter, IsTypeChar, Look, Live;
    var s := typeName + rest;
    if typeName == "" {
      assert s == rest;
      StopHere(rest);
      LookHere(s);
      StopRound(Open(s), acc);
    } else {
      ParameterRound(s, acc);
      TypeTokenInside(typeName, rest);
      var k := Here(s).next;
      DropWord(typeName, rest, k);
      TypeStops(typeName[k..], rest, acc + typeName[..k]);
    }
  }

  lemma StopRound(st: State, acc: string)
    requires var t := Look(st).token; t.typ == EOS || (!Live(t) && t.typ == OTHER)
    ensures QueryParameter(st, acc).0 == if Look(st).token.typ == EOS then Failed else Endless
  {
    hide Look;
  }

  /** A token of a type name ends inside it, also at the end of the text. */
  lemma TypeTokenInside(w: string, rest: string)
    requires w != "" && IsTypeText(w) && (rest == "" || rest[0] == VT)
    ensures var r := Here(w + rest);
            && 1 <= r.next <= |w| && r.token.literal == w[..r.next]
            && Live(r.token) && r.token.typ != RCURLY
  {
    hide Here, Live, IsTypeChar;
    if rest == "" {
      assert w + rest == w;
      LastTypeToken(w);
    } else {
      assert rest == [VT] + rest[1..];
      TypeToken(w, VT, rest[1..]);
    }
  }

  lemma LastTypeToken(w: string)
    requires w != "" && IsTypeText(w)
    ensures var r := Here(w); 1 <= r.next && Live(r.token) && r.token.typ != RCURLY
  {
    hide Here, Name, Number, WordEnd, LookupIdent;
    assert IsTypeChar(w[0]);
    LiveToken(w);
    if IsIdentStart(w[0]) {
      HereWord(w);
    } else if IsDigit(w[0]) || w[0] == '-' {
      HereNumber(w);
    } else {
      HereMark(w);
    }
  }

  /** An escape sequence that is cut off at a vertical tab is never translated, and one that is cut off at the end of
      the text, or at a token that the lexer does not know, fails, however deep the place is nested. */
  lemma CutHalts(seg: string, call: Cutoff, rest: string)
    requires Halts(rest) && FineCut(call, rest)
    ensures SequenceBody(seg, Shut(CutText(call, rest)), "").0 == Verdict(rest)
    decreases call
  {
    hide SequenceBody, Behind, IsIdentifier, IsCall, Upper, Blanks, MayFollow, PrintedHead, ReadsOn, FineSpot, SpotText,
         Halts, FrontText, FnHead, IsParameterName, IsTypeText, Arity, Target;
    match call
    case FnCut(head, fn, open, front, spot) =>
      var text := FrontText(front, SpotText(spot, rest));
      FnHalts(seg, Upper(fn), open, front, spot, rest);
      CallFollows(fn, open, text);
      FunctionFails(seg, head, fn, open + (['('] + text));
    case CopiedCut(head, fn, spot) => CopiedCutHalts(seg, head, fn, spot, rest);
    case TypeCut(lead, name, gap, typeName) => TypeHalts(seg, lead, name, gap, typeName, rest);
  }

  lemma CutTranslation(call: Cutoff, rest: string)
    requires Halts(rest) && FineCut(call, rest)
    ensures Translate(['{'] + CutText(call, rest)) == Verdict(rest)
  {
    hide SequenceBody, FineCut, CutText, Halts, Translate;
    TranslateBody(CutText(call, rest));
    CutHalts(['{'] + CutText(call, rest), call, rest);
  }

  /** A vertical tab outside quotes in an argument, a list, a type or a nested sequence keeps the translation from
      ending. */
  lemma CallEndless(call: Cutoff, rest: string)
    requires FineCut(call, [VT] + rest)
    ensures Translate(['{'] + CutText(call, [VT] + rest)) == Endless
  {
    hide FineCut, CutText, Translate;
    CutTranslation(call, [VT] + rest);
  }

  /** A query with such a segment, behind segments that can be translated: the translation of the query does not end
      either; one with a segment that is cut off otherwise is returned as it is. */
  lemma CutQuery(q: string, i: nat, call: Cutoff, rest: string)
    requires Halts(rest) && FineCut(call, rest)
    requires i < |CutOf(q).pieces| && CutOf(q).pieces[i].segment == ['{'] + CutText(call, rest)
    requires forall k :: 0 <= k < i ==> Translate(CutOf(q).pieces[k].segment).Done?
    ensures Replaced(q, CutOf(q)) == if AtTab(rest) then Endless else Done(q)
  {
    hide FineCut, CutText, Translate, CutOf, Replaced, Halts, AtTab;
    CutTranslation(call, rest);
    assert Decides(CutOf(q).pieces, i);
    if AtTab(rest) {
      EndlessExactly(q);
    } else {
      FailureKeepsQuery(q, i);
    }
  }

  // -------- operators that reach a delimiter

  function Added(items: Items, i: Item): Items {
    match items
    case End => Then(i, End)
    case Then(head, tail) => Then(head, Added(tail, i))
  }

  lemma {:induction false} AddedPrinted(items: Items, i: Item)
    ensures PrintedAll(Added(items, i)) == PrintedAll(items) + Printed(i)
    decreases items
  {
    hide Printed;
    if items == End {
      assert Printed(i) + "" == Printed(i) == "" + Printed(i);
    } else {
      AddedPrinted(items.tail, i);
      assert Printed(items.head) + (PrintedAll(items.tail) + Printed(i))
             == Printed(items.head) + PrintedAll(items.tail) + Printed(i);
    }
  }

  lemma {:induction false} AddedFine(items: Items, i: Item, k: Kind)
    requires FineAll(items, FirstOf(Printed(i)), k) && Fine(i, k) && Printed(i) != ""
    ensures FineAll(Added(items, i), None, k)
    decreases items
  {
    hide Printed, Fine, MayFollow;
    if items == End {
      NothingFollows(i);
    } else {
      AddedFine(items.tail, i, k);
      AddedPrinted(items.tail, i);
    }
  }

  lemma NothingFollows(i: Item)
    ensures MayFollow(i, None)
  {
  }

  lemma OperatorPrinted(run: string, k: Kind)
    requires IsOperator(run)
    ensures run != "" && Fine(Operator(run), k) && Printed(Operator(run)) == run && FirstOf(run) == Some(run[0])
  {
  }

  /** An operator that is followed by the end of the text. */
  lemma OperatorSpot(items: Items, run: string, k: Kind)
    requires IsOperator(run) && FineAll(items, Some(run[0]), k)
    ensures var spot := Spot(Added(items, Operator(run)), Stop);
            FineSpot(spot, k, "") && SpotText(spot, "") == PrintedAll(items) + run
  {
    hide IsOperator, FineAll, PrintedAll, Printed, Fine, Added;
    OperatorPrinted(run, k);
    AddedFine(items, Operator(run), k);
    AddedPrinted(items, Operator(run));
  }

  /** An operator is read together with everything up to the next space. If that reaches the end of the text, whatever
      delimiters it holds, a function that waits for an argument fails. */
  lemma OperatorHidesDelimiter(head: Head, fn: string, open: string, front: Front, items: Items, run: string)
    requires FnHead(head) && IsCall(fn) && Blanks(open) && ReadsOn(Upper(fn), front)
    requires IsOperator(run) && FineAll(items, Some(run[0]), InArgument)
    ensures Translate(['{'] + PrintedHead(head, fn + (open + (['('] + FrontText(front, PrintedAll(items) + run)))))
            == Failed
  {
    hide FnHead, IsCall, Blanks, ReadsOn, IsOperator, FineAll, FineSpot, SpotText, FrontText, PrintedHead, Translate,
         PrintedAll, Upper, Added;
    OperatorSpot(items, run, InArgument);
    CutTranslation(FnCut(head, fn, open, front, Spot(Added(items, Operator(run)), Stop)), "");
  }

  /** The same for a function that is copied up to the closing brace. */
  lemma OperatorHidesBrace(head: Head, fn: string, items: Items, run: string)
    requires FnHead(head) && IsCall(fn) && IsCopied(Upper(fn)) && IsOperator(run)
    requires FineAll(items, Some(run[0]), InCopied) && MayFollow(Ident(fn), FirstIn(items, Some(run[0])))
    ensures Translate(['{'] + PrintedHead(head, fn + (PrintedAll(items) + run))) == Failed
  {
    hide FnHead, IsCall, IsCopied, IsOperator, FineAll, FineSpot, SpotText, FirstIn, PrintedHead, Translate,
         PrintedAll, Upper, Added, MayFollow;
    OperatorPrinted(run, InCopied);
    OperatorSpot(items, run, InCopied);
    FirstCharacter(items, run);
    CutTranslation(CopiedCut(head, fn, Spot(Added(items, Operator(run)), Stop)), "");
  }

  // -------- inputs

  function FnWord(): Head { Head("", "fn", " ") }

  lemma Words()
    ensures FnHead(FnWord()) && IsCall("ABS") && IsCall("SPACE") && IsCall("DIFFERENCE") && IsParameterName("p")
    ensures Upper("ABS") == "ABS" && Upper("SPACE") == "SPACE" && Upper("DIFFERENCE") == "DIFFERENCE"
  {
    hide IsFunction;
    assert Upper("fn") == "FN" && Upper("ABS") == "ABS" && Upper("SPACE") == "SPACE" && Upper("p") == "P";
    assert Upper("DIFFERENCE") == "DIFFERENCE";
    AreFunctions();
  }

  lemma AreFunctions()
    ensures IsFunction("ABS") && IsFunction("SPACE") && IsFunction("DIFFERENCE")
  {
    assert IsArcName("ABS") && IsCaseName("SPACE") && IsLengthName("DIFFERENCE");
  }

  lemma Renames()
    ensures Target("ABS") == Some("abs")
  {
  }

  lemma Counts()
    ensures Arity("ABS") == 0 && Arity("SPACE") == 1 && Arity("DIFFERENCE") == 2
  {
    assert "ABS"[0] != "COT"[0];
  }

  lemma Tables()
    ensures IsCopied("ABS") && ReadsOn("SPACE", NoFront) && Arity("DIFFERENCE") == 2
  {
    hide Target, Arity;
    Renames();
    Counts();
  }

  function Names(): Items { Then(Ident("a"), End) }

  lemma NamesFine(k: Kind)
    ensures FineAll(Names(), Some('+'), k)
  {
    assert WordEnd("a", 1) == 1;
  }

  lemma NamesInside()
    ensures FineAll(Then(Sign('('), Names()), Some('+'), InCopied)
    ensures MayFollow(Ident("ABS"), FirstIn(Then(Sign('('), Names()), Some('+')))
  {
    hide FineAll, Names, IsNameFrom;
    NamesFine(InCopied);
    SignFirst(Names());
  }

  lemma SignFirst(items: Items)
    ensures FirstIn(Then(Sign('('), items), Some('+')) == Some('(')
    ensures FineAll(Then(Sign('('), items), Some('+'), InCopied) == FineAll(items, Some('+'), InCopied)
    ensures MayFollow(Ident("ABS"), Some('('))
  {
    assert PrintedAll(Then(Sign('('), items))[0] == '(';
  }

  lemma Operators()
    ensures IsOperator("+b)}") && IsOperator("+b,")
  {
  }

  lemma OperatorTexts()
    ensures ['{'] + PrintedHead(FnWord(), "ABS" + (PrintedAll(Then(Sign('('), Names())) + "+b)}")) == "{fn ABS(a+b)}"
    ensures ['{'] + PrintedHead(FnWord(), "SPACE" + ("" + (['('] + FrontText(NoFront, PrintedAll(Names()) + "+b)}"))))
            == "{fn SPACE(a+b)}"
  {
  }

  /** An operator without a space behind it, in front of the parenthesis and the brace. */
  lemma OperatorFails()
    ensures Translate("{fn ABS(a+b)}") == Failed && Translate("{fn SPACE(a+b)}") == Failed
  {
    hide Translate, IsCall, IsCopied, FnHead, FnWord, IsOperator, Upper, ReadsOn, PrintedAll, PrintedHead, FrontText,
         Blanks, FineAll, Names, FirstIn, MayFollow;
    Words();
    Tables();
    NamesFine(InArgument);
    NamesInside();
    Operators();
    NoBlanks();
    OperatorTexts();
    OperatorHidesBrace(FnWord(), "ABS", Then(Sign('('), Names()), "+b)}");
    OperatorHidesDelimiter(FnWord(), "SPACE", "", NoFront, Names(), "+b)}");
  }

  lemma NoBlanks()
    ensures Blanks("") && IsTypeText("")
  {
  }

  function Merged(): Args {
    Last(Then(Ident("a"), Then(Operator("+b,"), Then(Blank(' '), Then(Ident("c"), End)))))
  }

  lemma MergedFine()
    ensures FineArgs(Merged()) && Count(Merged()) == 1
  {
    assert WordEnd("a", 1) == 1 && WordEnd("c", 1) == 1;
    Operators();
  }

  lemma FnText(behind: string)
    ensures ['{'] + PrintedHead(FnWord(), behind) == "{fn " + behind
  {
    assert ['{'] + "fn" + " " == "{fn ";
  }

  lemma MergedText()
    ensures ['{'] + PrintedHead(FnWord(), "DIFFERENCE" + ("" + (['('] + (PrintedArgs(Merged()) + "}"))))
            == "{fn DIFFERENCE(a+b, c)}"
  {
    hide PrintedHead, PrintedArgs;
    MergedPrinted();
    FnText("DIFFERENCE" + ("" + (['('] + ("a+b, c)" + "}"))));
    assert "{fn " + "DIFFERENCE" + "" + ['('] + "a+b, c)" + "}" == "{fn DIFFERENCE(a+b, c)}";
  }

  lemma MergedPrinted()
    ensures PrintedArgs(Merged()) == "a+b, c)"
  {
    var c, b := Then(Ident("c"), End), Blank(' ');
    assert PrintedAll(c) == "c";
    assert PrintedAll(Then(b, c)) == " c";
    assert PrintedAll(Then(Operator("+b,"), Then(b, c))) == "+b, c";
    assert PrintedAll(Merged().items) == "a+b, c";
  }

  /** An operator that takes the comma for itself. */
  lemma CommaFails()
    ensures Translate("{fn DIFFERENCE(a+b, c)}") == Failed
  {
    hide Translate, IsCall, FnHead, FnWord, Upper, PrintedArgs, PrintedHead, Blanks, FineArgs, Merged, Arity;
    Words();
    Tables();
    MergedFine();
    NoBlanks();
    MergedText();
    CallFails(FnWord(), "DIFFERENCE", "", Merged(), "}");
  }

  function Renaming(): Cutoff { CopiedCut(FnWord(), "ABS", Spot(Then(Sign('('), End), Stop)) }

  function Rewriting(): Cutoff { FnCut(FnWord(), "SPACE", "", NoFront, Spot(End, Stop)) }

  lemma RenamingFine(rest: string)
    ensures FineCut(Renaming(), [VT] + rest)
  {
    hide IsCall, FnHead, Upper, IsCopied, FineSpot, SpotText, MayFollow;
    Words();
    Tables();
    SpotRead("(", rest, InCopied);
    SignFirst(End);
    var text := "(" + ([VT] + rest);
    assert text[0] == '(' && FirstOf(text) == Some('(');
  }

  lemma SpotRead(sign: string, rest: string, k: Kind)
    requires sign == "" || (sign == "(" && k == InCopied)
    ensures var spot := Spot(if sign == "" then End else Then(Sign('('), End), Stop);
            FineSpot(spot, k, [VT] + rest) && SpotText(spot, [VT] + rest) == sign + ([VT] + rest)
  {
  }

  lemma RewritingFine(rest: string)
    ensures FineCut(Rewriting(), [VT] + rest)
  {
    hide IsCall, FnHead, Upper, ReadsOn, FineSpot, SpotText;
    Words();
    Tables();
    SpotRead("", rest, InArgument);
  }

  lemma ParameterFine(rest: string)
    ensures FineCut(TypeCut("", "p", "", ""), [VT] + rest)
  {
    hide IsParameterName, IsCall, FnHead;
    Words();
    NoBlanks();
  }

  lemma RenamingText(rest: string)
    ensures ['{'] + CutText(Renaming(), [VT] + rest) == "{fn ABS(" + [VT] + rest
  {
    hide PrintedHead, SpotText;
    SpotRead("(", rest, InCopied);
    FnText("ABS" + ("(" + ([VT] + rest)));
    assert "{fn " + "ABS" + "(" == "{fn ABS(";
  }

  lemma RewritingText(rest: string)
    ensures ['{'] + CutText(Rewriting(), [VT] + rest) == "{fn SPACE(" + [VT] + rest
  {
    hide PrintedHead, SpotText;
    SpotRead("", rest, InArgument);
    FnText("SPACE" + ("" + (['('] + ("" + ([VT] + rest)))));
    assert "{fn " + "SPACE" + "" + ['('] + "" == "{fn SPACE(";
  }

  lemma ParameterText(rest: string)
    ensures ['{'] + CutText(TypeCut("", "p", "", ""), [VT] + rest) == "{p:" + [VT] + rest
  {
    assert ['{'] + "" + "p" + "" + ":" + "" == "{p:";
  }

  /** A renamed function, a rewritten one, and a parameter whose translation does not come to an end. */
  lemma NeverTranslated()
    ensures Translate("{fn ABS(" + [VT] + ")}") == Endless
    ensures Translate("{fn SPACE(" + [VT] + ")}") == Endless
    ensures Translate("{p:" + [VT] + "}") == Endless
  {
    hide Translate, FineCut, CutText, Renaming, Rewriting;
    RenamingFine(")}");
    RewritingFine(")}");
    ParameterFine("}");
    RenamingText(")}");
    RewritingText(")}");
    ParameterText("}");
    CallEndless(Renaming(), ")}");
    CallEndless(Rewriting(), ")}");
    CallEndless(TypeCut("", "p", "", ""), "}");
  }
}
