/** Braces in quotes: when replaceEscapeSequences, which counts every brace, cuts a query as its quotes ask for. */
module QuotedBraces {
  import opened Text
  import opened Lexing
  import opened EscapeTranslation
  import opened EscapeReplacement

  // -------- quotes

  const NONE: char := '\0'

  predicate IsQuote(c: char) { c == '\'' || c == '"' || c == '`' }

  /** The quote that is open, or NONE, and whether a backslash stands in front of the next character. */
  datatype Mode = Mode(quote: char, slash: bool)

  const OUTSIDE: Mode := Mode(NONE, false)

  function NextMode(m: Mode, c: char): Mode {
    if m.quote == NONE then (if IsQuote(c) then Mode(c, false) else OUTSIDE)
    else if m.slash then m.(slash := false)
    else if c == '\\' then m.(slash := true)
    else if c == m.quote then OUTSIDE
    else m
  }

  /** The mode behind a text. */
  function ModeOf(s: string): Mode {
    if s == "" then OUTSIDE else NextMode(ModeOf(s[..|s| - 1]), s[|s| - 1])
  }

  /** Opening braces less closing ones, those in quotes left out. */
  function QuoteDepth(s: string): int {
    if s == "" then 0
    else
      var front, c := s[..|s| - 1], s[|s| - 1];
      var change := if c == '{' then 1 else if c == '}' then -1 else 0;
      QuoteDepth(front) + (if ModeOf(front).quote != NONE then 0 else change)
  }

  /** The character at `k` is quoted. */
  predicate InQuotes(q: string, k: nat)
    requires k <= |q|
  {
    ModeOf(q[..k]).quote != NONE
  }

  predicate NoQuotedBrace(q: string) { forall k :: 0 <= k < |q| ==> IsBrace(q[k]) ==> !InQuotes(q, k) }

  ghost predicate DepthsAgree(q: string) { forall k :: 0 <= k <= |q| ==> QuoteDepth(q[..k]) == Depth(q[..k]) }

  lemma QuoteDepthNext(q: string, k: nat)
    requires k < |q|
    ensures var change := if q[k] == '{' then 1 else if q[k] == '}' then -1 else 0;
            QuoteDepth(q[..k + 1]) == QuoteDepth(q[..k]) + (if InQuotes(q, k) then 0 else change)
    ensures ModeOf(q[..k + 1]) == NextMode(ModeOf(q[..k]), q[k])
  {
    assert q[..k + 1][..k] == q[..k];
  }

  lemma {:induction false} DepthsUpTo(q: string, k: nat)
    requires k <= |q| && NoQuotedBrace(q)
    ensures QuoteDepth(q[..k]) == Depth(q[..k])
  {
    hide QuoteDepth, Depth, ModeOf;
    if k == 0 {
      NoDepth();
      assert q[..0] == "";
    } else {
      DepthsUpTo(q, k - 1);
      DepthNext(q, k - 1);
      QuoteDepthNext(q, k - 1);
    }
  }

  lemma NoDepth()
    ensures QuoteDepth("") == 0 == Depth("") && ModeOf("") == OUTSIDE
  {
  }

  /** Quotes do not matter for the depth, at any position of the query, exactly when no brace is quoted. */
  lemma QuotesDoNotMatterExactly(q: string)
    ensures DepthsAgree(q) <==> NoQuotedBrace(q)
  {
    hide QuoteDepth, Depth, ModeOf;
    if NoQuotedBrace(q) {
      forall k | 0 <= k <= |q| ensures QuoteDepth(q[..k]) == Depth(q[..k]) {
        DepthsUpTo(q, k);
      }
    } else {
      var k :| 0 <= k < |q| && IsBrace(q[k]) && InQuotes(q, k);
      DepthNext(q, k);
      QuoteDepthNext(q, k);
      assert !(QuoteDepth(q[..k]) == Depth(q[..k]) && QuoteDepth(q[..k + 1]) == Depth(q[..k + 1]));
    }
  }

  // -------- the cut that the quotes ask for

  predicate QuotePlain(q: string, a: nat, b: nat)
    requires a <= b <= |q|
  {
    forall k :: a <= k < b ==> IsBrace(q[k]) ==> InQuotes(q, k)
  }

  ghost predicate QuoteUnclosed(q: string, a: nat, b: nat)
    requires a <= b <= |q|
  {
    forall k :: a < k <= b ==> QuoteDepth(q[..k]) > QuoteDepth(q[..a])
  }

  ghost predicate QuoteBalanced(q: string, a: nat, b: nat)
    requires a <= b <= |q|
  {
    a + 1 < b && QuoteDepth(q[..b]) == QuoteDepth(q[..a]) && QuoteUnclosed(q, a, b - 1)
  }

  ghost predicate QuoteTail(q: string, a: nat)
    requires a <= |q|
  {
    a == |q| || (!InQuotes(q, a) && (q[a] == '}' || (q[a] == '{' && QuoteUnclosed(q, a, |q|))))
  }

  /** From `a` on, the query is cut at the braces that are not quoted. */
  ghost predicate QuoteCutFrom(q: string, a: nat, c: Cut)
    decreases |c.pieces|
  {
    if c.pieces == [] then
      a + |c.plain| <= |q| && QuotePlain(q, a, a + |c.plain|) && QuoteTail(q, a + |c.plain|)
    else
      var b := a + |c.pieces[0].plain|;
      var e := b + |c.pieces[0].segment|;
      && e <= |q| && QuotePlain(q, a, b) && QuoteBalanced(q, b, e)
      && QuoteCutFrom(q, e, c.(pieces := c.pieces[1..]))
  }

  ghost predicate IsQuoteCut(q: string, c: Cut) {
    q == Content(c.pieces) + (c.plain + c.tail) && QuoteCutFrom(q, 0, c)
  }

  lemma SlicePrefix(q: string, a: nat, b: nat, k: nat)
    requires a <= b <= |q| && k <= b - a
    ensures q[a..b][..k] == q[a..a + k] && q[..a] + q[a..a + k] == q[..a + k]
  {
  }

  lemma SliceDepth(q: string, a: nat, b: nat, k: nat)
    requires a <= b <= |q| && k <= b - a && DepthsAgree(q)
    ensures Depth(q[a..b][..k]) == QuoteDepth(q[..a + k]) - QuoteDepth(q[..a])
  {
    hide Depth, QuoteDepth;
    SlicePrefix(q, a, b, k);
    DepthAppend(q[..a], q[a..a + k]);
  }

  lemma SamePlain(q: string, a: nat, b: nat)
    requires a <= b <= |q| && NoQuotedBrace(q)
    ensures QuotePlain(q, a, b) <==> Plain(q[a..b])
  {
    hide ModeOf;
    if Plain(q[a..b]) {
      assert forall k :: a <= k < b ==> q[k] == q[a..b][k - a];
    }
  }

  lemma SameUnclosed(q: string, a: nat, b: nat)
    requires a <= b <= |q| && DepthsAgree(q)
    ensures QuoteUnclosed(q, a, b) <==> Unclosed(q[a..b])
  {
    hide Depth, QuoteDepth, DepthsAgree;
    forall k | 0 < k <= b - a ensures Depth(q[a..b][..k]) == QuoteDepth(q[..a + k]) - QuoteDepth(q[..a]) {
      SliceDepth(q, a, b, k);
    }
    if Unclosed(q[a..b]) {
      forall k | a < k <= b ensures QuoteDepth(q[..k]) > QuoteDepth(q[..a]) {
        assert Depth(q[a..b][..k - a]) > 0;
      }
    }
  }

  lemma SameBalanced(q: string, a: nat, b: nat)
    requires a <= b <= |q| && DepthsAgree(q)
    ensures QuoteBalanced(q, a, b) <==> Balanced(q[a..b])
  {
    hide Depth, QuoteDepth, DepthsAgree, QuoteUnclosed, Unclosed;
    if a + 1 < b {
      var s := q[a..b];
      SliceDepth(q, a, b, b - a);
      assert s[..b - a] == s && s[..|s| - 1] == q[a..b - 1];
      SameUnclosed(q, a, b - 1);
    }
  }

  lemma SameTail(q: string, a: nat)
    requires a <= |q| && DepthsAgree(q) && NoQuotedBrace(q)
    ensures QuoteTail(q, a) <==> IsTail(q[a..])
  {
    hide DepthsAgree, QuoteUnclosed, Unclosed, ModeOf;
    assert q[a..|q|] == q[a..];
    SameUnclosed(q, a, |q|);
  }

  lemma {:induction false} SameCutFrom(q: string, a: nat, c: Cut)
    requires a <= |q| && DepthsAgree(q) && NoQuotedBrace(q) && q[a..] == Content(c.pieces) + (c.plain + c.tail)
    ensures QuoteCutFrom(q, a, c) <==> IsCut(q[a..], c)
    decreases |c.pieces|
  {
    hide DepthsAgree, NoQuotedBrace, QuoteBalanced, Balanced, QuotePlain, Plain, QuoteTail, IsTail;
    if c.pieces == [] {
      LastPart(q, a, c);
    } else {
      var p, rest := c.pieces[0], c.(pieces := c.pieces[1..]);
      var b := a + |p.plain|;
      var e := b + |p.segment|;
      FirstParts(q, a, c);
      SamePlain(q, a, b);
      SameBalanced(q, b, e);
      SameCutFrom(q, e, rest);
      assert c.pieces == [p] + rest.pieces;
      PiecesWellFormed(p, rest.pieces);
    }
  }

  lemma PiecesWellFormed(p: Piece, more: seq<Piece>)
    ensures WellFormed([p] + more) <==> Plain(p.plain) && Balanced(p.segment) && WellFormed(more)
  {
    hide Plain, Balanced;
    if WellFormed([p] + more) {
      assert ([p] + more)[0] == p && forall i :: 0 <= i < |more| ==> ([p] + more)[i + 1] == more[i];
    }
  }

  lemma FirstParts(q: string, a: nat, c: Cut)
    requires a <= |q| && c.pieces != [] && q[a..] == Content(c.pieces) + (c.plain + c.tail)
    ensures var p := c.pieces[0];
            var b := a + |p.plain|;
            var e := b + |p.segment|;
            e <= |q| && q[a..b] == p.plain && q[b..e] == p.segment
                && q[e..] == Content(c.pieces[1..]) + (c.plain + c.tail)
  {
    var p, end := c.pieces[0], c.plain + c.tail;
    var more := Content(c.pieces[1..]) + end;
    assert q[a..] == p.plain + (p.segment + more);
    var b := a + |p.plain|;
    assert q[a..b] == q[a..][..|p.plain|];
    assert q[b..] == q[a..][|p.plain|..] == p.segment + more;
    assert q[b..b + |p.segment|] == q[b..][..|p.segment|];
    assert q[b + |p.segment|..] == q[b..][|p.segment|..];
  }

  lemma LastPart(q: string, a: nat, c: Cut)
    requires a <= |q| && DepthsAgree(q) && NoQuotedBrace(q) && c.pieces == []
             && q[a..] == Content(c.pieces) + (c.plain + c.tail)
    ensures QuoteCutFrom(q, a, c) <==> IsCut(q[a..], c)
  {
    hide DepthsAgree, NoQuotedBrace, QuotePlain, Plain, QuoteTail, IsTail;
    var b := a + |c.plain|;
    assert q[a..] == c.plain + c.tail;
    assert q[a..b] == q[a..][..|c.plain|] == c.plain;
    assert q[b..] == q[a..][|c.plain|..] == c.tail;
    SamePlain(q, a, b);
    SameTail(q, b);
  }

  /** If no brace is quoted, replaceEscapeSequences cuts the query where its unquoted braces ask for it, and that
      is the only such cut. */
  lemma CutFollowsQuotes(q: string, c: Cut)
    requires NoQuotedBrace(q)
    ensures IsQuoteCut(q, c) <==> c == CutOf(q)
  {
    hide DepthsAgree, NoQuotedBrace, CutOf, IsCut;
    QuotesDoNotMatterExactly(q);
    assert q[0..] == q;
    CutHasContent(q, CutOf(q));
    SameCutFrom(q, 0, CutOf(q));
    if IsQuoteCut(q, c) {
      SameCutFrom(q, 0, c);
      OneCut(q, c, CutOf(q));
    }
  }

  lemma CutHasContent(q: string, c: Cut)
    requires IsCut(q, c)
    ensures q == Content(c.pieces) + (c.plain + c.tail)
  {
  }

  // -------- quoted texts stay in one piece

  /** From the opening quote to the closing one. */
  predicate IsQuoted(q: string, i: nat, j: nat) {
    i + 1 < j <= |q| && !InQuotes(q, i) && !InQuotes(q, j) && forall k :: i < k < j ==> InQuotes(q, k)
  }

  function Offset(c: Cut, n: nat): nat
    requires n <= |c.pieces|
  {
    |Content(c.pieces[..n])|
  }

  function PlainAt(c: Cut, n: nat): string
    requires n <= |c.pieces|
  {
    if n < |c.pieces| then c.pieces[n].plain else c.plain
  }

  function SegmentAt(c: Cut, n: nat): string
    requires n <= |c.pieces|
  {
    if n < |c.pieces| then c.pieces[n].segment else c.tail
  }

  /** The text from `i` to `j` lies inside the n-th plain text or inside the segment behind it. */
  predicate Inside(c: Cut, n: nat, i: nat, j: nat) {
    && n <= |c.pieces|
    && var a := Offset(c, n);
       var b := a + |PlainAt(c, n)|;
       (a <= i && j <= b) || (b <= i && j <= b + |SegmentAt(c, n)|)
  }

  lemma QuotedIsPlain(q: string, i: nat, j: nat)
    requires IsQuoted(q, i, j) && NoQuotedBrace(q)
    ensures Plain(q[i..j])
  {
    hide ModeOf;
    QuoteDepthNext(q, i);
    assert InQuotes(q, i + 1);
    forall k | 0 <= k < j - i ensures !IsBrace(q[i..j][k]) {
      assert k > 0 ==> InQuotes(q, i + k);
    }
  }

  /** Text without braces does not reach over the end of a piece. */
  lemma {:induction false} PlainInside(q: string, c: Cut, n: nat, i: nat, j: nat)
    requires IsCut(q, c) && n <= |c.pieces| && Offset(c, n) <= i < j <= |q| && Plain(q[i..j])
    ensures exists m :: Inside(c, m, i, j)
    decreases |c.pieces| - n
  {
    hide IsCut, Plain, Content, Balanced;
    var a := Offset(c, n);
    var b := a + |PlainAt(c, n)|;
    var e := b + |SegmentAt(c, n)|;
    PartsAt(q, c, n);
    if j <= b || (b <= i && j <= e) {
      assert Inside(c, n, i, j);
    } else if i < b {
      BraceBetween(q, i, j, b);
    } else if i < e {
      BraceBefore(q, i, j, e);
    } else {
      PlainInside(q, c, n + 1, i, j);
    }
  }

  lemma BraceBetween(q: string, i: nat, j: nat, b: nat)
    requires i <= b < j <= |q| && IsBrace(q[b])
    ensures !Plain(q[i..j])
  {
    assert q[i..j][b - i] == q[b];
  }

  lemma BraceBefore(q: string, i: nat, j: nat, e: nat)
    requires i < e < j <= |q| && IsBrace(q[e - 1])
    ensures !Plain(q[i..j])
  {
    assert q[i..j][e - 1 - i] == q[e - 1];
  }

  /** Where the n-th plain text and the segment behind it end, and the braces around the segment. */
  lemma PartsAt(q: string, c: Cut, n: nat)
    requires IsCut(q, c) && n <= |c.pieces|
    ensures var b := Offset(c, n) + |PlainAt(c, n)|;
            var e := b + |SegmentAt(c, n)|;
            && e <= |q| && (b < |q| ==> IsBrace(q[b]))
            && (n < |c.pieces| ==> b < e && IsBrace(q[e - 1]) && Offset(c, n + 1) == e)
            && (n == |c.pieces| ==> e == |q|)
  {
    hide Plain, Balanced, Unclosed;
    var end := c.plain + c.tail;
    assert c.pieces == c.pieces[..n] + c.pieces[n..];
    ContentAppend(c.pieces[..n], c.pieces[n..]);
    if n == |c.pieces| {
      assert c.pieces[..n] == c.pieces;
    } else {
      var p := c.pieces[n];
      var front, more := Content(c.pieces[..n]), Content(c.pieces[n + 1..]) + end;
      assert c.pieces[n..][0] == p && c.pieces[n..][1..] == c.pieces[n + 1..];
      assert q == front + (p.plain + (p.segment + more));
      assert c.pieces[..n + 1] == c.pieces[..n] + [p];
      ContentAppend(c.pieces[..n], [p]);
      ContentOne(p);
      BalancedEnds(p.segment);
    }
  }

  lemma BalancedEnds(s: string)
    requires Balanced(s)
    ensures |s| > 1 && s[0] == '{' && s[|s| - 1] == '}'
  {
    BalancedStart(s);
    var k := |s| - 1;
    assert s[..k][..k] == s[..k];
    assert Depth(s[..k]) > 0;
  }

  /** If no brace is quoted, a quoted text lies in one plain text or in one segment of the query. */
  lemma QuotedTextInside(q: string, i: nat, j: nat)
    requires NoQuotedBrace(q) && IsQuoted(q, i, j)
    ensures exists n :: Inside(CutOf(q), n, i, j)
  {
    hide CutOf, IsCut, Plain, ModeOf, NoQuotedBrace, Inside;
    QuotedIsPlain(q, i, j);
    var c := CutOf(q);
    assert c.pieces[..0] == [];
    PlainInside(q, c, 0, i, j);
  }

  /** What stands in a plain text stands in the output. */
  lemma {:induction false} PlainStays(q: string, c: Cut, n: nat, x: string)
    requires IsCut(q, c) && n <= |c.pieces| && Occurs(x, PlainAt(c, n)) && Replaced(q, c).Done?
    ensures Occurs(x, Replaced(q, c).text)
  {
    hide IsCut, Occurs, Translated, Content;
    if Replaced(q, c) == Done(q) {
      PartOccurs(q, c, n);
      OccursIn(x, PlainAt(c, n), q);
    } else {
      var text := Translated(c.pieces).text;
      if n == |c.pieces| {
        assert text + (c.plain + c.tail) == text + c.plain + c.tail;
        Middle(text, c.plain, c.tail);
        OccursIn(x, c.plain, text + (c.plain + c.tail));
      } else {
        TranslatedPlain(c.pieces, n);
        OccursIn(x, c.pieces[n].plain, text);
        assert text + (c.plain + c.tail) == "" + text + (c.plain + c.tail);
        Middle("", text, c.plain + c.tail);
        OccursIn(x, text, text + (c.plain + c.tail));
      }
    }
  }

  lemma Middle(a: string, x: string, b: string)
    ensures Occurs(x, a + x + b)
  {
    assert At(x, a + x + b, |a|);
  }

  lemma OccursIn(x: string, y: string, z: string)
    requires Occurs(x, y) && Occurs(y, z)
    ensures Occurs(x, z)
  {
    var i :| 0 <= i <= |y| && At(x, y, i);
    var k :| 0 <= k <= |z| && At(y, z, k);
    SliceOfSlice(z, k, k + |y|, i, i + |x|);
    assert At(x, z, k + i);
  }

  lemma SliceOfSlice(s: string, a: nat, b: nat, i: nat, j: nat)
    requires i <= j <= b - a && b <= |s|
    ensures s[a..b][i..j] == s[a + i..a + j]
  {
    var x, y := s[a..b][i..j], s[a + i..a + j];
    assert |x| == |y| && forall k :: 0 <= k < |x| ==> x[k] == y[k];
  }

  lemma PartOccurs(q: string, c: Cut, n: nat)
    requires IsCut(q, c) && n <= |c.pieces|
    ensures Occurs(PlainAt(c, n), q)
  {
    hide WellFormed, IsTail, Plain, Occurs;
    var end := c.plain + c.tail;
    assert c.pieces == c.pieces[..n] + c.pieces[n..];
    ContentAppend(c.pieces[..n], c.pieces[n..]);
    var front := Content(c.pieces[..n]);
    if n == |c.pieces| {
      assert c.pieces[..n] == c.pieces;
      assert q == front + c.plain + c.tail;
      Middle(front, c.plain, c.tail);
    } else {
      var p := c.pieces[n];
      var more := Content(c.pieces[n + 1..]);
      assert c.pieces[n..][0] == p && c.pieces[n..][1..] == c.pieces[n + 1..];
      assert q == front + p.plain + (p.segment + more + end);
      Middle(front, p.plain, p.segment + more + end);
    }
  }

  lemma {:induction false} TranslatedPlain(pieces: seq<Piece>, n: nat)
    requires n < |pieces| && Translated(pieces).Done?
    ensures Occurs(pieces[n].plain, Translated(pieces).text)
    decreases n
  {
    hide Translate, Occurs;
    var p, text := pieces[0], Translated(pieces).text;
    var o, more := Translate(p.segment).text, Translated(pieces[1..]).text;
    if n == 0 {
      assert text == "" + p.plain + (o + more);
      Middle("", p.plain, o + more);
    } else {
      TranslatedPlain(pieces[1..], n - 1);
      assert text == (p.plain + o) + more + "";
      Middle(p.plain + o, more, "");
      OccursIn(pieces[n].plain, more, text);
    }
  }

  // -------- the literals that the driver writes

  lemma {:induction false} EscapedMode(front: string, s: string, k: nat)
    requires ModeOf(front) == Mode('\'', false) && k <= |Escaped(s)|
    ensures ModeOf(front + Escaped(s)[..k]).quote == '\''
    ensures ModeOf(front + Escaped(s)) == Mode('\'', false)
    decreases |s|
  {
    hide ModeOf, Escaped;
    EscapedCons(s);
    if s == "" {
      assert front + Escaped(s)[..k] == front && front + Escaped(s) == front;
    } else {
      var head := if s[0] == '\\' || s[0] == '\'' then ['\\', s[0]] else [s[0]];
      HeadMode(front, s[0]);
      var rest := Escaped(s[1..]);
      if k <= |head| {
        EscapedMode(front + head, s[1..], 0);
        assert (head + rest)[..k] == head[..k];
        assert k == 0 ==> front + head[..k] == front;
        assert k == |head| ==> head[..k] == head;
      } else {
        EscapedMode(front + head, s[1..], k - |head|);
        assert front + (head + rest)[..k] == front + head + rest[..k - |head|];
      }
      assert front + (head + rest) == front + head + rest;
    }
  }

  lemma EscapedCons(s: string)
    ensures if s == "" then Escaped(s) == ""
            else Escaped(s) == (if s[0] == '\\' || s[0] == '\'' then ['\\', s[0]] else [s[0]]) + Escaped(s[1..])
  {
  }

  lemma HeadMode(front: string, c: char)
    requires ModeOf(front) == Mode('\'', false)
    ensures var head := if c == '\\' || c == '\'' then ['\\', c] else [c];
            && ModeOf(front + head) == Mode('\'', false)
            && (|head| == 2 ==> ModeOf(front + head[..1]).quote == '\'')
  {
    hide ModeOf;
    if c == '\\' || c == '\'' {
      ModeNext(front, '\\');
      assert ['\\', c][..1] == ['\\'] && front + ['\\'] + [c] == front + ['\\', c];
      ModeNext(front + ['\\'], c);
    } else {
      ModeNext(front, c);
    }
  }

  lemma ModeNext(front: string, c: char)
    ensures ModeOf(front + [c]) == NextMode(ModeOf(front), c)
  {
    assert (front + [c])[..|front|] == front;
  }

  lemma LiteralMode(front: string, value: string, k: nat)
    requires ModeOf(front) == OUTSIDE && k <= |Escaped(value)|
    ensures ModeOf(front + ['\''] + Escaped(value)[..k]).quote == '\''
    ensures ModeOf(front + ['\''] + Escaped(value)) == Mode('\'', false)
  {
    hide ModeOf;
    ModeNext(front, '\'');
    EscapedMode(front + ['\''], value, k);
  }

  /** Behind text whose quotes are closed, the literal of any value is a quoted text. */
  lemma LiteralIsQuoted(front: string, value: string, back: string)
    requires ModeOf(front) == OUTSIDE
    ensures IsQuoted(front + SqlLiteral(value) + back, |front|, |front| + |SqlLiteral(value)|)
  {
    hide ModeOf, Escaped;
    var literal := SqlLiteral(value);
    var q := front + literal + back;
    var i, j := |front|, |front| + |literal|;
    var text := Escaped(value);
    assert q[..i] == front;
    forall k | i < k < j ensures InQuotes(q, k) {
      LiteralMode(front, value, k - i - 1);
      assert q[..k] == front + ['\''] + text[..k - i - 1];
    }
    LiteralMode(front, value, 0);
    assert q[..j] == front + ['\''] + text + ['\''];
    ModeNext(front + ['\''] + text, '\'');
  }

  /** A literal in a query without quoted braces is copied to the output, or lies inside one escape sequence. */
  lemma LiteralStays(front: string, value: string, back: string)
    requires ModeOf(front) == OUTSIDE && NoQuotedBrace(front + SqlLiteral(value) + back)
    requires VT !in front + SqlLiteral(value) + back
    ensures var q := front + SqlLiteral(value) + back;
            var c, i, j := CutOf(q), |front|, |front| + |SqlLiteral(value)|;
            && Replaced(q, c).Done?
            && exists n: nat :: Inside(c, n, i, j)
                           && (i < Offset(c, n) + |PlainAt(c, n)| ==> Occurs(SqlLiteral(value), Replaced(q, c).text))
  {
    hide ModeOf, CutOf, IsCut, SqlLiteral, NoQuotedBrace, IsQuoted, Replaced, Occurs, Content;
    var q := front + SqlLiteral(value) + back;
    var c, i, j := CutOf(q), |front|, |front| + |SqlLiteral(value)|;
    Returns(q);
    LiteralIsQuoted(front, value, back);
    QuotedTextInside(q, i, j);
    var n :| Inside(c, n, i, j);
    if i < Offset(c, n) + |PlainAt(c, n)| {
      LiteralInPlain(q, c, n, i, j);
      assert q[i..j] == SqlLiteral(value);
      PlainStays(q, c, n, SqlLiteral(value));
    }
  }

  lemma LiteralInPlain(q: string, c: Cut, n: nat, i: nat, j: nat)
    requires IsCut(q, c) && i <= j <= |q| && Inside(c, n, i, j) && i < Offset(c, n) + |PlainAt(c, n)|
    ensures Occurs(q[i..j], PlainAt(c, n))
  {
    hide IsCut, Plain, Balanced, Content;
    var a := Offset(c, n);
    PlainSlice(q, c, n);
    var p := PlainAt(c, n);
    SliceOfSlice(q, a, a + |p|, i - a, j - a);
    assert At(q[i..j], p, i - a);
  }

  lemma PlainSlice(q: string, c: Cut, n: nat)
    requires IsCut(q, c) && n <= |c.pieces|
    ensures Offset(c, n) + |PlainAt(c, n)| <= |q| && q[Offset(c, n)..Offset(c, n) + |PlainAt(c, n)|] == PlainAt(c, n)
  {
    hide WellFormed, IsTail, Plain;
    var end := c.plain + c.tail;
    assert c.pieces == c.pieces[..n] + c.pieces[n..];
    ContentAppend(c.pieces[..n], c.pieces[n..]);
    if n == |c.pieces| {
      assert c.pieces[..n] == c.pieces;
    } else {
      var p := c.pieces[n];
      assert c.pieces[n..][0] == p && c.pieces[n..][1..] == c.pieces[n + 1..];
      assert q == Content(c.pieces[..n]) + (p.plain + (p.segment + Content(c.pieces[n + 1..]) + end));
    }
  }
}
