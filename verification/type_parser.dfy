/** The parser of ClickHouse type names: a tree that grows in place, and a stack of pointers into it. */
module TypeParsing {
  import opened Text

  const INT_MAX: int := 0x7FFF_FFFF

  datatype Meta = Array | Null | Nullable | Number | Terminal | Tuple | LowCardinality

  datatype TypeAst = TypeAst(meta: Meta, name: string, size: nat, elements: seq<TypeAst>)

  // TypeAst()
  const FRESH := TypeAst(Array, "", 0, [])

  datatype Token = Name(value: string) | Digits(value: string) | LPar | RPar | Comma | EOS | Invalid

  // -------- tokens

  predicate IsBlank(c: char) { c == ' ' || c == '\n' || c == '\t' || c == '\0' }

  predicate IsQuote(c: char) { c == '"' || c == '\'' }

  predicate IsWordChar(c: char) { IsAlpha(c) || IsDigit(c) }

  function AlnumEnd(s: string, i: nat): (end: nat)
    requires i <= |s|
    ensures i <= end <= |s| && (forall k :: i <= k < end ==> IsWordChar(s[k])) && (end < |s| ==> !IsWordChar(s[end]))
    decreases |s| - i
  {
    if i < |s| && IsWordChar(s[i]) then AlnumEnd(s, i + 1) else i
  }

  /** The next `quote`, or the end of the text. */
  function QuoteEnd(s: string, i: nat, quote: char): (end: nat)
    requires i <= |s|
    ensures i <= end <= |s| && (forall k :: i <= k < end ==> s[k] != quote) && (end < |s| ==> s[end] == quote)
    decreases |s| - i
  {
    if i < |s| && s[i] != quote then QuoteEnd(s, i + 1, quote) else i
  }

  /** The token at the head of a text, and how many characters it takes. */
  function TokenAt(s: string): (r: (Token, nat))
    requires s != "" && !IsBlank(s[0])
    ensures r.1 <= |s| && r.0 != EOS && (r.0 != Invalid ==> r.1 > 0)
    ensures r.0.Digits? ==> r.0.value != "" && AllDigits(r.0.value)
  {
    if s[0] == '(' then (LPar, 1)
    else if s[0] == ')' then (RPar, 1)
    else if s[0] == ',' then (Comma, 1)
    else if IsQuote(s[0]) then
      var end := QuoteEnd(s, 1, s[0]);
      if end == |s| then (Invalid, |s|) else (Name(s[1..end]), end + 1)
    else if IsAlpha(s[0]) then (Name(s[..AlnumEnd(s, 0)]), AlnumEnd(s, 0))
    else if IsDigit(s[0]) then (Digits(s[..DigitsEnd(s, 0)]), DigitsEnd(s, 0))
    else (Invalid, 0)
  }

  /** The tokens of a text, up to its end or to an invalid one. */
  function Tokens(s: string): (ts: seq<Token>)
    ensures ts != [] && (forall i :: 0 <= i < |ts| ==> (i == |ts| - 1 <==> ts[i] == EOS || ts[i] == Invalid))
    ensures forall i :: 0 <= i < |ts| && ts[i].Digits? ==> ts[i].value != "" && AllDigits(ts[i].value)
    decreases |s|
  {
    if s == "" then [EOS]
    else if IsBlank(s[0]) then Tokens(s[1..])
    else
      var (token, n) := TokenAt(s);
      if token == Invalid then [Invalid] else [token] + Tokens(s[n..])
  }

  // -------- trees, and pointers as paths from the root

  type Path = seq<nat>

  predicate Reaches(t: TypeAst, p: Path)
    decreases |p|
  {
    p == [] || (p[0] < |t.elements| && Reaches(t.elements[p[0]], p[1..]))
  }

  function Get(t: TypeAst, p: Path): TypeAst
    requires Reaches(t, p)
    decreases |p|
  {
    if p == [] then t else Get(t.elements[p[0]], p[1..])
  }

  function Put(t: TypeAst, p: Path, node: TypeAst): (r: TypeAst)
    requires Reaches(t, p)
    ensures Reaches(r, p) && Get(r, p) == node
    decreases |p|
  {
    if p == [] then node else t.(elements := t.elements[p[0] := Put(t.elements[p[0]], p[1..], node)])
  }

  /** The pointers to the nodes above a node, the root first. */
  function Ancestors(p: Path): (a: seq<Path>)
    ensures |a| == |p|
    ensures forall i :: 0 <= i < |p| ==> a[i] == p[..i]
  {
    if p == [] then [] else
      var a := Ancestors(p[..|p| - 1]);
      assert forall i :: 0 <= i < |p| - 1 ==> p[..|p| - 1][..i] == p[..i];
      a + [p[..|p| - 1]]
  }

  // -------- the parser

  /** The tree, the node that is being read, and the stack. */
  datatype State = State(root: TypeAst, node: Path, open: seq<Path>)
  {
    predicate Valid() { Reaches(root, node) && forall p :: p in open ==> Reaches(root, p) }
  }

  /** NoParent: top() and pop() of an empty stack, for which the language gives no meaning. */
  datatype Result = Parsed(tree: TypeAst) | Rejected | BadNumber | NoParent

  function MetaOf(name: string): Meta {
    if name == "Array" then Array
    else if name == "Null" then Null
    else if name == "Nullable" then Nullable
    else if name == "Tuple" then Tuple
    else if name == "LowCardinality" then LowCardinality
    else Terminal
  }

  function Current(st: State): TypeAst
    requires st.Valid()
  {
    Get(st.root, st.node)
  }

  lemma StillReaches(t: TypeAst, p: Path, node: TypeAst, q: Path)
    requires Reaches(t, p) && Reaches(t, q) && |node.elements| >= |Get(t, p).elements|
    requires forall i :: 0 <= i < |Get(t, p).elements| ==> node.elements[i] == Get(t, p).elements[i]
    ensures Reaches(Put(t, p, node), q)
    decreases |p|
  {
    if p != [] && q != [] && p[0] == q[0] {
      StillReaches(t.elements[p[0]], p[1..], node, q[1..]);
    }
  }

  /** A change of the current node that keeps its elements. */
  function Write(st: State, node: TypeAst): (next: State)
    requires st.Valid() && |node.elements| >= |Current(st).elements|
    requires forall i :: 0 <= i < |Current(st).elements| ==> node.elements[i] == Current(st).elements[i]
    ensures next.Valid() && next == State(Put(st.root, st.node, node), st.node, st.open)
  {
    assert forall q :: q in st.open ==> Reaches(Put(st.root, st.node, node), q) by {
      forall q | q in st.open ensures Reaches(Put(st.root, st.node, node), q) {
        StillReaches(st.root, st.node, node, q);
      }
    }
    st.(root := Put(st.root, st.node, node))
  }

  /** elements.emplace_back(TypeAst()), push, and on to the new element. */
  function Descend(st: State): (next: State)
    requires st.Valid()
    ensures next.Valid() && next.node == st.node + [|Current(st).elements|] && next.open == st.open + [st.node]
  {
    var elements := Current(st).elements;
    var wider := Write(st, Current(st).(elements := elements + [FRESH]));
    ReachesElement(wider.root, st.node, |elements|);
    State(wider.root, st.node + [|elements|], st.open + [st.node])
  }

  lemma ReachesElement(t: TypeAst, p: Path, i: nat)
    requires Reaches(t, p) && i < |Get(t, p).elements|
    ensures Reaches(t, p + [i]) && Get(t, p + [i]) == Get(t, p).elements[i]
    decreases |p|
  {
    if p != [] {
      assert (p + [i])[1..] == p[1..] + [i];
      ReachesElement(t.elements[p[0]], p[1..], i);
    }
  }

  function Pop(st: State): (next: State)
    requires st.Valid() && st.open != []
    ensures next.Valid()
  {
    State(st.root, st.open[|st.open| - 1], st.open[..|st.open| - 1])
  }

  /** What a token makes of the state, or the result that ends the parse. */
  datatype Step = Next(st: State) | End(result: Result)

  function StepOf(st: State, token: Token): (step: Step)
    requires st.Valid() && (token.Digits? ==> AllDigits(token.value))
    ensures step.Next? ==> step.st.Valid()
  {
    match token
    case Name(value) => Next(Write(st, Current(st).(meta := MetaOf(value), name := value)))
    case Digits(value) =>
      if DecimalValue(value) > INT_MAX then End(BadNumber)
      else Next(Write(st, Current(st).(meta := Number, size := DecimalValue(value))))
    case LPar => Next(Descend(st))
    case RPar => if st.open == [] then End(NoParent) else Next(Pop(st))
    case Comma => if st.open == [] then End(NoParent) else Next(Descend(Pop(st)))
    case EOS => End(Parsed(st.root))
    case Invalid => End(Rejected)
  }

  predicate Readable(ts: seq<Token>) {
    && ts != [] && (forall i :: 0 <= i < |ts| ==> (i == |ts| - 1 <==> ts[i] == EOS || ts[i] == Invalid))
    && forall i :: 0 <= i < |ts| && ts[i].Digits? ==> AllDigits(ts[i].value)
  }

  function Run(st: State, ts: seq<Token>): Result
    requires st.Valid() && Readable(ts)
    decreases |ts|
  {
    match StepOf(st, ts[0])
    case End(result) => result
    case Next(next) => Run(next, ts[1..])
  }

  /** TypeParser::parse, into the tree `root`. */
  function ParseType(s: string, root: TypeAst): Result { Run(State(root, [], [[]]), Tokens(s)) }

  class TypeParser {
    const text: string
    var cur: nat
    var st: State

    constructor (text: string)
      ensures this.text == text && cur == 0
    {
      this.text, cur, st := text, 0, State(FRESH, [], []);
    }

    method NextToken() returns (token: Token)
      requires cur <= |text|
      modifies `cur
      ensures old(cur) <= cur <= |text| && token == Tokens(text[old(cur)..])[0]
      ensures token != EOS && token != Invalid ==> Tokens(text[old(cur)..])[1..] == Tokens(text[cur..])
    {
      hide Tokens, TokenAt;
      SkipBlanks();
      TokensHere(text[cur..]);
      if cur == |text| {
        return EOS;
      }
      DropDrop(text, cur, TokenAt(text[cur..]).1);
      token := TokenHere();
    }

    method SkipBlanks()
      requires cur <= |text|
      modifies `cur
      ensures old(cur) <= cur <= |text| && (cur < |text| ==> !IsBlank(text[cur]))
      ensures Tokens(text[cur..]) == Tokens(text[old(cur)..])
    {
      hide Tokens;
      while cur < |text| && IsBlank(text[cur])
        invariant old(cur) <= cur <= |text| && Tokens(text[cur..]) == Tokens(text[old(cur)..])
      {
        BlankSkipped(text[cur..]);
        assert text[cur..][1..] == text[cur + 1..];
        cur := cur + 1;
      }
    }

    method TokenHere() returns (token: Token)
      requires cur < |text| && !IsBlank(text[cur])
      modifies `cur
      ensures cur <= |text| && TokenAt(text[old(cur)..]) == (token, cur - old(cur))
    {
      hide QuoteEnd, AlnumEnd, DigitsEnd;
      var s := text[cur..];
      var c, n := s[0], 0;
      if c == '(' || c == ')' || c == ',' {
        token, n := if c == '(' then LPar else if c == ')' then RPar else Comma, 1;
      } else if IsQuote(c) {
        n := QuoteLength(s);
        if n == |s| {
          token := Invalid;
        } else {
          token, n := Name(s[1..n]), n + 1;
        }
      } else if IsAlpha(c) {
        n := WordLength(s);
        token := Name(s[..n]);
      } else if IsDigit(c) {
        n := DigitsLength(s);
        token := Digits(s[..n]);
      } else {
        token := Invalid;
      }
      cur := cur + n;
    }

    static method QuoteLength(s: string) returns (n: nat)
      requires s != ""
      ensures n == QuoteEnd(s, 1, s[0])
    {
      n := 1;
      while n < |s| && s[n] != s[0]
        invariant 1 <= n <= |s| && QuoteEnd(s, 1, s[0]) == QuoteEnd(s, n, s[0])
      {
        n := n + 1;
      }
    }

    static method WordLength(s: string) returns (n: nat)
      ensures n == AlnumEnd(s, 0)
    {
      n := 0;
      while n < |s| && IsWordChar(s[n])
        invariant n <= |s| && AlnumEnd(s, 0) == AlnumEnd(s, n)
      {
        n := n + 1;
      }
    }

    static method DigitsLength(s: string) returns (n: nat)
      ensures n == DigitsEnd(s, 0)
    {
      n := 0;
      while n < |s| && IsDigit(s[n])
        invariant n <= |s| && DigitsEnd(s, 0) == DigitsEnd(s, n)
      {
        n := n + 1;
      }
    }

    method Parse(root: TypeAst) returns (r: Result)
      requires cur == 0
      modifies this
      ensures r == ParseType(text, root)
    {
      hide Run, Tokens, StepOf;
      assert text[0..] == text;
      st := State(root, [], [[]]);
      ghost var ts := Tokens(text);
      while true
        invariant st.Valid() && cur <= |text| && ts == Tokens(text[cur..]) && Readable(ts)
        invariant Run(st, ts) == ParseType(text, root)
        decreases |ts|
      {
        RunStep(st, ts);
        var token := NextToken();
        var step := StepOf(st, token);
        if step.End? {
          return step.result;
        }
        st := step.st;
        ts := ts[1..];
      }
    }
  }

  lemma RunStep(st: State, ts: seq<Token>)
    requires st.Valid() && Readable(ts)
    ensures var step := StepOf(st, ts[0]);
            if step.End? then Run(st, ts) == step.result
            else ts[0] != EOS && ts[0] != Invalid && Readable(ts[1..]) && Run(st, ts) == Run(step.st, ts[1..])
  {
  }

  lemma TokensHere(s: string)
    requires s == "" || !IsBlank(s[0])
    ensures if s == "" then Tokens(s) == [EOS]
            else
              var (token, n) := TokenAt(s);
              Tokens(s)[0] == token && (token != Invalid ==> Tokens(s)[1..] == Tokens(s[n..]))
  {
    hide TokenAt;
  }

  lemma DropDrop(s: string, i: nat, n: nat)
    requires i + n <= |s|
    ensures s[i..][n..] == s[i + n..]
  {
  }

  lemma BlankSkipped(s: string)
    requires s != "" && IsBlank(s[0])
    ensures Tokens(s) == Tokens(s[1..])
  {
  }

  // -------- the stack

  /** The stack holds the pointers to the ancestors of the node that is being read; below them is the pointer
      to the root that parse() pushed first, until an unmatched ')' or ',' takes it away. */
  ghost predicate OnPath(st: State) { st.open == Ancestors(st.node) || st.open == [[]] + Ancestors(st.node) }

  lemma AncestorsBelow(p: Path, i: nat)
    ensures Ancestors(p + [i]) == Ancestors(p) + [p]
  {
    assert (p + [i])[..|p|] == p;
  }

  lemma PopOnPath(st: State)
    requires st.Valid() && OnPath(st) && st.open != []
    ensures OnPath(Pop(st)) && (st.node != [] ==> Pop(st).node == st.node[..|st.node| - 1])
  {
    hide State.Valid;
    if st.node != [] {
      var last := |st.node| - 1;
      AncestorsBelow(st.node[..last], st.node[last]);
      assert st.node == st.node[..last] + [st.node[last]];
    }
  }

  lemma DescendOnPath(st: State)
    requires st.Valid() && OnPath(st)
    ensures OnPath(Descend(st))
  {
    hide Ancestors, State.Valid;
    var i := |Current(st).elements|;
    AncestorsBelow(st.node, i);
    assert [[]] + Ancestors(st.node) + [st.node] == [[]] + (Ancestors(st.node) + [st.node]);
  }

  lemma PathStep(st: State, token: Token)
    requires st.Valid() && OnPath(st) && (token.Digits? ==> AllDigits(token.value))
    ensures StepOf(st, token).Next? ==> OnPath(StepOf(st, token).st)
  {
    hide OnPath, Ancestors, State.Valid, Pop, Descend;
    if token == LPar {
      DescendOnPath(st);
    } else if st.open != [] {
      PopOnPath(st);
      DescendOnPath(Pop(st));
    }
    if token.Name? || token.Digits? {
      SamePath(st, StepOf(st, token));
    }
  }

  lemma SamePath(st: State, step: Step)
    requires OnPath(st) && (step.Next? ==> step.st.node == st.node && step.st.open == st.open)
    ensures step.Next? ==> OnPath(step.st)
  {
  }

  /** The state behind some tokens, unless the parse has ended before. */
  function Reached(st: State, ts: seq<Token>): (r: Option<State>)
    requires st.Valid() && forall i :: 0 <= i < |ts| && ts[i].Digits? ==> AllDigits(ts[i].value)
    ensures r.Some? ==> r.value.Valid()
    decreases |ts|
  {
    if ts == [] then Some(st)
    else
      match StepOf(st, ts[0])
      case End(_) => None
      case Next(next) => Reached(next, ts[1..])
  }

  /** From a state on the path, a parse reaches only states on the path. */
  lemma {:induction false} StackIsPath(st: State, ts: seq<Token>)
    requires st.Valid() && OnPath(st) && forall i :: 0 <= i < |ts| && ts[i].Digits? ==> AllDigits(ts[i].value)
    ensures Reached(st, ts).Some? ==> OnPath(Reached(st, ts).value)
    decreases |ts|
  {
    hide OnPath, StepOf, State.Valid;
    if ts != [] {
      PathStep(st, ts[0]);
      var step := StepOf(st, ts[0]);
      if step.Next? {
        StackIsPath(step.st, ts[1..]);
      }
    }
  }

  /** Every parse starts on the path of the root. */
  lemma ParseStarts(root: TypeAst)
    ensures State(root, [], [[]]).Valid() && OnPath(State(root, [], [[]]))
  {
    assert [[]] + Ancestors([]) == [[]];
  }

  /** In every state of the parse of every text the stack holds the path of the node that is being read. */
  lemma ParseKeepsPath(s: string, root: TypeAst, n: nat)
    requires n <= |Tokens(s)|
    ensures var st := Reached(State(root, [], [[]]), Tokens(s)[..n]); st.Some? ==> OnPath(st.value)
  {
    hide OnPath, Reached, State.Valid;
    ParseStarts(root);
    StackIsPath(State(root, [], [[]]), Tokens(s)[..n]);
  }

  // -------- unmatched parentheses

  /** Opening parentheses less closing ones. */
  function Opened(ts: seq<Token>): int {
    if ts == [] then 0 else (if ts[0] == LPar then 1 else if ts[0] == RPar then -1 else 0) + Opened(ts[1..])
  }

  predicate NumbersFit(ts: seq<Token>) {
    forall i :: 0 <= i < |ts| && ts[i].Digits? && AllDigits(ts[i].value) ==> DecimalValue(ts[i].value) <= INT_MAX
  }

  /** A ')' or ',' outside all parentheses, `spare` ones more allowed. */
  predicate Unmatched(ts: seq<Token>, i: nat, spare: nat) {
    i < |ts| && (ts[i] == RPar || ts[i] == Comma) && spare + Opened(ts[..i]) <= 0 && NumbersFit(ts[..i])
  }

  lemma UnmatchedShift(ts: seq<Token>, i: nat, spare: nat)
    requires 0 < i < |ts| && spare + Opened([ts[0]]) >= 0
    ensures Unmatched(ts, i, spare) <==> NumbersFit([ts[0]]) && Unmatched(ts[1..], i - 1, spare + Opened([ts[0]]))
  {
    var front, rest := ts[..i], ts[1..][..i - 1];
    assert front == [ts[0]] + rest && front[1..] == rest;
    assert NumbersFit(front) <==> NumbersFit([ts[0]]) && NumbersFit(rest) by {
      assert forall k :: 0 < k < i ==> front[k] == rest[k - 1];
      assert forall k :: 0 <= k < i - 1 ==> rest[k] == front[k + 1];
    }
  }

  lemma {:induction false} UnderflowFound(st: State, ts: seq<Token>) returns (i: nat)
    requires st.Valid() && Readable(ts) && Run(st, ts) == NoParent
    ensures Unmatched(ts, i, |st.open|)
    decreases |ts|
  {
    hide Unmatched, State.Valid, Write, Descend, Pop;
    RunStep(st, ts);
    var step := StepOf(st, ts[0]);
    if step.End? {
      UnmatchedHere(ts, |st.open|);
      return 0;
    }
    HeightStep(st, ts[0]);
    var j := UnderflowFound(step.st, ts[1..]);
    UnmatchedBound(ts[1..], j, |step.st.open|);
    UnmatchedShift(ts, j + 1, |st.open|);
    return j + 1;
  }

  lemma UnmatchedHere(ts: seq<Token>, spare: nat)
    requires ts != []
    ensures Unmatched(ts, 0, spare) <==> (ts[0] == RPar || ts[0] == Comma) && spare == 0
  {
  }

  lemma UnmatchedBound(ts: seq<Token>, i: nat, spare: nat)
    requires Unmatched(ts, i, spare)
    ensures i < |ts|
  {
  }

  lemma HeightStep(st: State, token: Token)
    requires st.Valid() && (token.Digits? ==> AllDigits(token.value))
    ensures var step := StepOf(st, token);
            step.Next? ==> |step.st.open| == |st.open| + Opened([token]) && NumbersFit([token])
  {
    hide State.Valid;
    assert [token][1..] == [];
  }

  lemma {:induction false} UnderflowIf(st: State, ts: seq<Token>, i: nat)
    requires st.Valid() && Readable(ts) && Unmatched(ts, i, |st.open|)
    ensures Run(st, ts) == NoParent
    decreases |ts|
  {
    hide Unmatched, State.Valid, Write, Descend, Pop;
    RunStep(st, ts);
    UnmatchedBound(ts, i, |st.open|);
    UnmatchedHere(ts, |st.open|);
    if i > 0 {
      StepGoesOn(st, ts, i);
      var step := StepOf(st, ts[0]);
      HeightStep(st, ts[0]);
      if step.Next? {
        UnmatchedShift(ts, i, |st.open|);
        UnderflowIf(step.st, ts[1..], i - 1);
      }
    }
  }

  lemma StepGoesOn(st: State, ts: seq<Token>, i: nat)
    requires st.Valid() && Readable(ts) && 0 < i && Unmatched(ts, i, |st.open|)
    ensures StepOf(st, ts[0]).Next? || StepOf(st, ts[0]) == End(NoParent)
  {
    hide State.Valid, Write, Descend, Pop, Opened;
    assert ts[..i][0] == ts[0];
  }

  /** The parser pops an empty stack exactly when a ')' or ',' stands outside all parentheses and behind as
      many of them as there is room for, one. */
  lemma UnderflowExactly(s: string, root: TypeAst)
    ensures ParseType(s, root) == NoParent <==> exists i: nat :: Unmatched(Tokens(s), i, 1)
  {
    hide Run;
    var st, ts := State(root, [], [[]]), Tokens(s);
    if i: nat :| Unmatched(ts, i, 1) {
      UnderflowIf(st, ts, i);
      assert ParseType(s, root) == NoParent && Unmatched(Tokens(s), i, 1);
    } else if Run(st, ts) == NoParent {
      var i := UnderflowFound(st, ts);
      assert false;
    }
  }

  lemma {:induction false} RunOutcome(st: State, ts: seq<Token>)
    requires st.Valid() && Readable(ts)
    ensures Run(st, ts).Rejected? ==> ts[|ts| - 1] == Invalid
    ensures Run(st, ts).BadNumber? ==> !NumbersFit(ts)
    ensures Run(st, ts).Parsed? ==> ts[|ts| - 1] == EOS && NumbersFit(ts)
    decreases |ts|
  {
    hide State.Valid, Write, Descend, Pop, DecimalValue;
    RunStep(st, ts);
    var step := StepOf(st, ts[0]);
    if step.Next? {
      RunOutcome(step.st, ts[1..]);
      assert forall i :: 0 <= i < |ts| - 1 ==> ts[1..][i] == ts[i + 1];
    }
  }

  /** A text is a type exactly when all of it can be read, its numbers fit an int, and no ')' or ',' stands outside all
      parentheses; parentheses that are left open do not matter. */
  lemma ParsedExactly(s: string, root: TypeAst)
    ensures var ts := Tokens(s);
            ParseType(s, root).Parsed? <==>
              ts[|ts| - 1] == EOS && NumbersFit(ts) && !exists i: nat :: Unmatched(ts, i, 1)
  {
    hide Run, NumbersFit, Unmatched, Tokens;
    RunOutcome(State(root, [], [[]]), Tokens(s));
    UnderflowExactly(s, root);
  }

  /** The categories go by the names; any other name is a terminal type. */
  lemma MetaExactly(name: string)
    ensures MetaOf(name) == Array <==> name == "Array"
    ensures MetaOf(name) == Null <==> name == "Null"
    ensures MetaOf(name) == Nullable <==> name == "Nullable"
    ensures MetaOf(name) == Tuple <==> name == "Tuple"
    ensures MetaOf(name) == LowCardinality <==> name == "LowCardinality"
    ensures MetaOf(name) != Number
  {
  }

  /** A name with two closing parentheses: the second one pops the empty stack. */
  lemma UnmatchedParenthesis(root: TypeAst)
    ensures ParseType("A))", root) == NoParent
  {
    hide Run;
    var ts := Tokens("A))");
    UnmatchedTokens();
    assert ts[..2] == [Name("A"), RPar];
    assert Opened([Name("A"), RPar]) == -1 by { assert [Name("A"), RPar][1..] == [RPar] && [RPar][1..] == []; }
    assert Unmatched(ts, 2, 1);
    UnderflowExactly("A))", root);
  }

  lemma UnmatchedTokens()
    ensures Tokens("A))") == [Name("A"), RPar, RPar, EOS]
  {
    assert "A))"[..1] == "A" && "A))"[1..] == "))" && "))"[1..] == ")" && ")"[1..] == "";
    assert AlnumEnd("A))", 1) == 1;
  }

  // -------- printing

  predicate IsWord(s: string) { s != "" && IsAlpha(s[0]) && forall i :: 0 <= i < |s| ==> IsWordChar(s[i]) }

  /** A name that can be written: a word, or a text without the quote around it. */
  predicate IsName(s: string) { IsWord(s) || '\'' !in s || '"' !in s }

  function Quoted(name: string): string {
    if IsWord(name) then name else if '\'' !in name then "'" + name + "'" else "\"" + name + "\""
  }

  /** The trees that types are: a name with its arguments, or a number. */
  predicate WellFormed(t: TypeAst)
    decreases t
  {
    if t.meta == Number then t.name == "" && t.elements == [] && t.size <= INT_MAX
    else t.meta == MetaOf(t.name) && t.size == 0 && IsName(t.name) && forall e :: e in t.elements ==> WellFormed(e)
  }

  /** A type, with `gap` behind its commas. */
  function Print(t: TypeAst, gap: string): string
    decreases t, 0
  {
    if t.meta == Number then Decimal(t.size)
    else Quoted(t.name) + (if t.elements == [] then "" else "(" + PrintList(t.elements, gap) + ")")
  }

  function PrintList(ts: seq<TypeAst>, gap: string): string
    requires ts != []
    decreases ts, 1
  {
    if |ts| == 1 then Print(ts[0], gap) else Print(ts[0], gap) + ("," + gap + PrintList(ts[1..], gap))
  }

  /** The tokens of a type. */
  function TokensOf(t: TypeAst): seq<Token>
    decreases t, 0
  {
    if t.meta == Number then [Digits(Decimal(t.size))]
    else [Name(t.name)] + (if t.elements == [] then [] else [LPar] + ListTokens(t.elements) + [RPar])
  }

  function ListTokens(ts: seq<TypeAst>): seq<Token>
    requires ts != []
    decreases ts, 1
  {
    if |ts| == 1 then TokensOf(ts[0]) else TokensOf(ts[0]) + ([Comma] + ListTokens(ts[1..]))
  }

  predicate AllBlank(s: string) { forall i :: 0 <= i < |s| ==> IsBlank(s[i]) }

  /** What may stand behind a type: nothing, or a delimiter. */
  predicate Delimits(s: string) { s == "" || s[0] == '(' || s[0] == ')' || s[0] == ',' }

  lemma {:induction false} BlanksSkipped(gap: string, s: string)
    requires AllBlank(gap)
    ensures Tokens(gap + s) == Tokens(s)
  {
    hide Tokens;
    if gap == "" {
      assert gap + s == s;
    } else {
      BlankSkipped(gap + s);
      assert (gap + s)[1..] == gap[1..] + s;
      BlanksSkipped(gap[1..], s);
    }
  }

  lemma NameToken(name: string, after: string)
    requires IsName(name) && Delimits(after)
    ensures Tokens(Quoted(name) + after) == [Name(name)] + Tokens(after)
  {
    hide Tokens;
    var s := Quoted(name) + after;
    if IsWord(name) {
      WordToken(name, after);
    } else {
      QuotedToken(name, after);
    }
    TokensHere(s);
    assert s[|Quoted(name)|..] == after;
    FirstOf(Tokens(s));
  }

  lemma FirstOf(ts: seq<Token>)
    ensures ts != [] ==> ts == [ts[0]] + ts[1..]
  {
  }

  lemma WordToken(name: string, after: string)
    requires IsWord(name) && Delimits(after)
    ensures TokenAt(name + after) == (Name(name), |name|) && !IsBlank((name + after)[0])
  {
    var s := name + after;
    assert s[0] == name[0];
    assert forall k :: 0 <= k < |name| ==> s[k] == name[k];
    assert after != "" ==> s[|name|] == after[0];
    assert AlnumEnd(s, 0) == |name|;
    assert s[..|name|] == name;
  }

  lemma QuotedToken(name: string, after: string)
    requires !IsWord(name) && IsName(name)
    ensures TokenAt(Quoted(name) + after) == (Name(name), |Quoted(name)|) && !IsBlank((Quoted(name) + after)[0])
  {
    hide IsWord, TokenAt;
    var quote := if '\'' !in name then '\'' else '"';
    assert Quoted(name) == [quote] + name + [quote];
    TokenInQuotes(name, quote, after);
  }

  lemma TokenInQuotes(name: string, quote: char, after: string)
    requires IsQuote(quote) && quote !in name
    ensures TokenAt([quote] + name + [quote] + after) == (Name(name), |name| + 2)
  {
    var s, n := [quote] + name + [quote] + after, |name| + 1;
    assert forall k :: 1 <= k < n ==> s[k] == name[k - 1] && name[k - 1] in name;
    assert s[n] == quote && QuoteEnd(s, 1, quote) == n;
    assert s[1..n] == name;
  }

  lemma NumberToken(n: nat, after: string)
    requires Delimits(after)
    ensures Tokens(Decimal(n) + after) == [Digits(Decimal(n))] + Tokens(after)
  {
    hide Tokens, Decimal;
    var digits := Decimal(n);
    var s := digits + after;
    assert s[0] == digits[0];
    assert forall k :: 0 <= k < |digits| ==> s[k] == digits[k];
    assert after != "" ==> s[|digits|] == after[0];
    assert DigitsEnd(s, 0) == |digits|;
    assert s[..|digits|] == digits && s[|digits|..] == after;
    TokensHere(s);
    FirstOf(Tokens(s));
  }

  lemma DelimiterToken(c: char, after: string)
    requires c == '(' || c == ')' || c == ','
    ensures Tokens([c] + after) == [if c == '(' then LPar else if c == ')' then RPar else Comma] + Tokens(after)
  {
    hide Tokens;
    TokensHere([c] + after);
    assert ([c] + after)[1..] == after;
    FirstOf(Tokens([c] + after));
  }

  /** The text of a type has the tokens of the type. */
  lemma {:induction false} PrintedTokens(t: TypeAst, gap: string, after: string)
    requires WellFormed(t) && AllBlank(gap) && Delimits(after)
    ensures Tokens(Print(t, gap) + after) == TokensOf(t) + Tokens(after)
    decreases t, 0
  {
    hide Tokens, Quoted, AllBlank, Decimal, IsName;
    if t.meta == Number {
      NumberToken(t.size, after);
    } else if t.elements == [] {
      NameToken(t.name, after);
      assert Quoted(t.name) + "" + after == Quoted(t.name) + after;
    } else {
      var list := PrintList(t.elements, gap);
      var rest := ['('] + (list + ([')'] + after));
      assert Print(t, gap) + after == Quoted(t.name) + rest;
      NameToken(t.name, rest);
      DelimiterToken('(', list + ([')'] + after));
      PrintedList(t.elements, gap, [')'] + after);
      DelimiterToken(')', after);
      var lt := ListTokens(t.elements);
      assert [Name(t.name)] + ([LPar] + (lt + ([RPar] + Tokens(after))))
             == [Name(t.name)] + ([LPar] + lt + [RPar]) + Tokens(after);
    }
  }

  lemma {:induction false} PrintedList(ts: seq<TypeAst>, gap: string, after: string)
    requires ts != [] && (forall t :: t in ts ==> WellFormed(t)) && AllBlank(gap) && Delimits(after)
    ensures Tokens(PrintList(ts, gap) + after) == ListTokens(ts) + Tokens(after)
    decreases ts, 1
  {
    hide Tokens, AllBlank, WellFormed, Print, TokensOf;
    if |ts| == 1 {
      PrintedTokens(ts[0], gap, after);
    } else {
      var head, more := Print(ts[0], gap), PrintList(ts[1..], gap);
      var rest := [','] + (gap + (more + after));
      assert PrintList(ts, gap) + after == head + rest;
      PrintedTokens(ts[0], gap, rest);
      DelimiterToken(',', gap + (more + after));
      BlanksSkipped(gap, more + after);
      PrintedList(ts[1..], gap, after);
      var ht, mt := TokensOf(ts[0]), ListTokens(ts[1..]);
      assert ht + ([Comma] + (mt + Tokens(after))) == ht + ([Comma] + mt) + Tokens(after);
    }
  }

  // -------- round trip

  lemma PutPut(t: TypeAst, p: Path, a: TypeAst, b: TypeAst)
    requires Reaches(t, p)
    ensures Put(Put(t, p, a), p, b) == Put(t, p, b)
    decreases |p|
  {
    if p != [] {
      PutPut(t.elements[p[0]], p[1..], a, b);
      var e := t.elements;
      var x := Put(e[p[0]], p[1..], a);
      assert e[p[0] := x][p[0] := Put(x, p[1..], b)] == e[p[0] := Put(x, p[1..], b)];
    }
  }

  lemma PutElement(t: TypeAst, p: Path, i: nat, node: TypeAst)
    requires Reaches(t, p) && i < |Get(t, p).elements|
    ensures Reaches(t, p + [i])
    ensures var here := Get(t, p); Put(t, p + [i], node) == Put(t, p, here.(elements := here.elements[i := node]))
    decreases |p|
  {
    ReachesElement(t, p, i);
    if p == [] {
      assert [] + [i] == [i] && [i][1..] == [];
    } else {
      assert (p + [i])[1..] == p[1..] + [i] && (p + [i])[0] == p[0];
      PutElement(t.elements[p[0]], p[1..], i, node);
    }
  }

  /** Tokens that are followed by the end of a text. */
  predicate Proper(ts: seq<Token>) {
    forall i :: 0 <= i < |ts| ==> ts[i] != EOS && ts[i] != Invalid && (ts[i].Digits? ==> AllDigits(ts[i].value))
  }

  lemma ProperReadable(a: seq<Token>, b: seq<Token>)
    requires Proper(a) && Readable(b)
    ensures Readable(a + b)
  {
  }

  lemma {:induction false} TreeProper(t: TypeAst)
    ensures Proper(TokensOf(t))
    decreases t, 0
  {
    if t.meta != Number && t.elements != [] {
      ListProper(t.elements);
    }
  }

  lemma {:induction false} ListProper(ts: seq<TypeAst>)
    requires ts != []
    ensures Proper(ListTokens(ts))
    decreases ts, 1
  {
    hide TokensOf;
    TreeProper(ts[0]);
    if |ts| > 1 {
      ListProper(ts[1..]);
    }
  }

  lemma RunOne(st: State, token: Token, more: seq<Token>)
    requires st.Valid() && Readable([token] + more) && Readable(more) && (token.Digits? ==> AllDigits(token.value))
    ensures var step := StepOf(st, token); step.Next? ==> Run(st, [token] + more) == Run(step.st, more)
  {
    RunStep(st, [token] + more);
    assert ([token] + more)[1..] == more && ([token] + more)[0] == token;
  }

  /** The state with another node in place of the current one. */
  ghost predicate Replaces(st: State, node: TypeAst, next: State) {
    st.Valid() && next.Valid() && next == State(Put(st.root, st.node, node), st.node, st.open)
  }

  predicate IsFresh(t: TypeAst) { t.(meta := Array) == FRESH }

  lemma RunLeaf(st: State, token: Token, t: TypeAst, more: seq<Token>) returns (next: State)
    requires st.Valid() && IsFresh(Get(st.root, st.node)) && Readable(more) && t.elements == []
    requires if t.meta == Number then token == Digits(Decimal(t.size)) && t.name == "" && t.size <= INT_MAX
             else token == Name(t.name) && t.meta == MetaOf(t.name) && t.size == 0
    ensures Readable([token] + more) && Replaces(st, t, next) && Run(st, [token] + more) == Run(next, more)
  {
    hide Run, Put, Get, Decimal;
    next := Write(st, t);
    ProperReadable([token], more);
    RunOne(st, token, more);
  }

  /** The tokens of a well-formed type turn a fresh node into that type, and leave the stack as it was. */
  lemma {:induction false} RunTree(t: TypeAst, st: State, more: seq<Token>) returns (next: State)
    requires WellFormed(t) && st.Valid() && IsFresh(Get(st.root, st.node)) && Readable(more)
    ensures Readable(TokensOf(t) + more) && Replaces(st, t, next) && Run(st, TokensOf(t) + more) == Run(next, more)
    decreases t, 0
  {
    hide Run, Put, Get, Decimal, StepOf, Readable, Replaces, State.Valid;
    TreeProper(t);
    ProperReadable(TokensOf(t), more);
    if t.elements == [] {
      var token := if t.meta == Number then Digits(Decimal(t.size)) else Name(t.name);
      assert TokensOf(t) == [token];
      next := RunLeaf(st, token, t, more);
    } else {
      var head := t.(elements := []);
      var list := ListTokens(t.elements) + ([RPar] + more);
      assert TokensOf(t) + more == [Name(t.name)] + ([LPar] + list);
      ListProper(t.elements);
      ProperReadable([RPar], more);
      ProperReadable(ListTokens(t.elements), [RPar] + more);
      ProperReadable([LPar], list);
      var st1 := RunLeaf(st, Name(t.name), head, [LPar] + list);
      var st2 := RunOpen(st, head, st1, list);
      var st3 := RunList(t.elements, st2, st.node, st.open, [], head, more);
      next := ArgumentsPlaced(st, t, st1, st2, st3);
    }
  }

  lemma RunOpen(st: State, head: TypeAst, st1: State, more: seq<Token>) returns (st2: State)
    requires Replaces(st, head, st1) && head.elements == [] && Readable(more)
    ensures Reaches(st1.root, st.node) && st2.Valid() && Reaches(st2.root, st.node)
    ensures Readable([LPar] + more) && Run(st1, [LPar] + more) == Run(st2, more)
    ensures st2 == State(Put(st1.root, st.node, head.(elements := [FRESH])), st.node + [0], st.open + [st.node])
  {
    hide Run, Put, Get;
    ProperReadable([LPar], more);
    RunOne(st1, LPar, more);
    assert [] + [FRESH] == [FRESH];
    st2 := Descend(st1);
  }

  lemma ArgumentsPlaced(st: State, t: TypeAst, st1: State, st2: State, st3: State) returns (next: State)
    requires Replaces(st, t.(elements := []), st1) && st3.Valid() && Reaches(st2.root, st.node)
    requires st2.root == Put(st1.root, st.node, t.(elements := [FRESH]))
    requires st3 == State(Put(st2.root, st.node, t.(elements := [] + t.elements)), st.node, st.open)
    ensures Replaces(st, t, next) && next == st3
  {
    hide Put, Get;
    assert [] + t.elements == t.elements;
    PutPut(st.root, st.node, t.(elements := []), t.(elements := [FRESH]));
    PutPut(st.root, st.node, t.(elements := [FRESH]), t);
    next := st3;
  }

  /** The same for the arguments of the node at `p`, of which `done` have been read, up to the closing parenthesis. */
  lemma {:induction false} RunList(
    ts: seq<TypeAst>, st: State, p: Path, front: seq<Path>, done: seq<TypeAst>, head: TypeAst, more: seq<Token>
  ) returns (next: State)
    requires ts != [] && (forall t :: t in ts ==> WellFormed(t)) && Readable(more)
    requires st.Valid() && st.node == p + [|done|] && st.open == front + [p]
    requires Reaches(st.root, p) && Get(st.root, p) == head.(elements := done + [FRESH])
    ensures Readable(ListTokens(ts) + ([RPar] + more)) && next.Valid()
    ensures next == State(Put(st.root, p, head.(elements := done + ts)), p, front)
    ensures Run(st, ListTokens(ts) + ([RPar] + more)) == Run(next, more)
    decreases ts, 1
  {
    hide Run, Put, Get, StepOf, Readable, WellFormed, State.Valid, TokensOf, ListTokens;
    var t, i := ts[0], |done|;
    if |ts| == 1 {
      ListOfOne(ts);
    }
    ListProper(ts);
    ProperReadable([RPar], more);
    ProperReadable(ListTokens(ts), [RPar] + more);
    ReachesElement(st.root, p, i);
    PutElement(st.root, p, i, t);
    assert (done + [FRESH])[i := t] == done + [t];
    if |ts| == 1 {
      var st1 := RunTree(t, st, [RPar] + more);
      next := RunClose(st1, p, front, more);
      assert done + ts == done + [t];
    } else {
      var rest := ListTokens(ts[1..]) + ([RPar] + more);
      ListProper(ts[1..]);
      ProperReadable(ListTokens(ts[1..]), [RPar] + more);
      ProperReadable([Comma], rest);
      ListSplit(ts, [RPar] + more);
      var st1 := RunTree(t, st, [Comma] + rest);
      var st2 := RunComma(st1, p, front, done + [t], head, rest);
      next := RunList(ts[1..], st2, p, front, done + [t], head, more);
      ListPlaced(st.root, p, head, done, ts);
    }
  }

  lemma ListOfOne(ts: seq<TypeAst>)
    requires |ts| == 1
    ensures ListTokens(ts) == TokensOf(ts[0])
  {
  }

  lemma ListSplit(ts: seq<TypeAst>, after: seq<Token>)
    requires |ts| > 1
    ensures ListTokens(ts) + after == TokensOf(ts[0]) + ([Comma] + (ListTokens(ts[1..]) + after))
  {
    hide TokensOf;
    var first, more := TokensOf(ts[0]), ListTokens(ts[1..]);
    assert first + ([Comma] + more) + after == first + ([Comma] + (more + after));
  }

  lemma ListPlaced(root: TypeAst, p: Path, head: TypeAst, done: seq<TypeAst>, ts: seq<TypeAst>)
    requires Reaches(root, p) && ts != []
    ensures var next := done + [ts[0]];
            Put(Put(Put(root, p, head.(elements := next)), p, head.(elements := next + [FRESH])), p,
                head.(elements := next + ts[1..]))
            == Put(root, p, head.(elements := done + ts))
  {
    hide Put;
    var next := done + [ts[0]];
    PutPut(root, p, head.(elements := next), head.(elements := next + [FRESH]));
    PutPut(root, p, head.(elements := next + [FRESH]), head.(elements := done + ts));
    assert next + ts[1..] == done + ts;
  }

  lemma RunClose(st: State, p: Path, front: seq<Path>, more: seq<Token>) returns (next: State)
    requires st.Valid() && st.open == front + [p] && Readable(more)
    ensures Readable([RPar] + more) && next.Valid() && next == State(st.root, p, front)
    ensures Run(st, [RPar] + more) == Run(next, more)
  {
    hide Run;
    ProperReadable([RPar], more);
    RunOne(st, RPar, more);
    next := Pop(st);
  }

  lemma RunComma(st: State, p: Path, front: seq<Path>, done: seq<TypeAst>, head: TypeAst, more: seq<Token>)
    returns (next: State)
    requires st.Valid() && st.open == front + [p] && Readable(more)
    requires Reaches(st.root, p) && Get(st.root, p) == head.(elements := done)
    ensures Readable([Comma] + more) && next.Valid()
    ensures next == State(Put(st.root, p, head.(elements := done + [FRESH])), p + [|done|], front + [p])
    ensures Run(st, [Comma] + more) == Run(next, more)
  {
    hide Run, Put, Get;
    ProperReadable([Comma], more);
    RunOne(st, Comma, more);
    next := Descend(Pop(st));
  }

  /** Parsing a printed type gives the type back, whatever blanks follow its commas, and whatever the
      uninitialized category of the root was. */
  lemma RoundTrip(t: TypeAst, root: TypeAst, gap: string)
    requires WellFormed(t) && AllBlank(gap) && IsFresh(root)
    ensures ParseType(Print(t, gap), root) == Parsed(t)
  {
    hide Run, Tokens, WellFormed, Print, TokensOf, OnPath, State.Valid, Put, Get;
    assert Print(t, gap) + "" == Print(t, gap);
    PrintedTokens(t, gap, "");
    NoTokens();
    ParseStarts(root);
    var st := State(root, [], [[]]);
    AtRoot(root, t);
    var next := RunTree(t, st, [EOS]);
    RunEnds(next);
  }

  lemma NoTokens()
    ensures Tokens("") == [EOS] && Readable([EOS])
  {
  }

  lemma AtRoot(root: TypeAst, t: TypeAst)
    ensures Reaches(root, []) && Get(root, []) == root && Put(root, [], t) == t
  {
  }

  lemma RunEnds(st: State)
    requires st.Valid() && Readable([EOS])
    ensures Run(st, [EOS]) == Parsed(st.root)
  {
    hide State.Valid;
    RunStep(st, [EOS]);
  }
}
