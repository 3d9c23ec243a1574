/** replaceEscapeSequences: the segments of a query in balanced braces are translated, the rest is copied. */
module EscapeReplacement {
  import opened Text
  import opened Lexing
  import opened EscapeTranslation
  import opened EscapeProperties
  import opened EscapeResults
  import EscapeSequences

  // -------- how braces cut a query

  predicate IsBrace(c: char) { c == '{' || c == '}' }

  predicate Plain(s: string) { forall i :: 0 <= i < |s| ==> !IsBrace(s[i]) }

  /** Opening braces less closing ones; quotes do not matter. */
  function Depth(s: string): int {
    if s == "" then 0
    else Depth(s[..|s| - 1]) + (if s[|s| - 1] == '{' then 1 else if s[|s| - 1] == '}' then -1 else 0)
  }

  /** Every prefix, the whole text included, has more opening than closing braces. */
  ghost predicate Unclosed(s: string) { forall k :: 0 < k <= |s| ==> Depth(s[..k]) > 0 }

  /** The text opens with a brace that its last character closes. */
  ghost predicate Balanced(s: string) { s != "" && Depth(s) == 0 && Unclosed(s[..|s| - 1]) && |s| > 1 }

  /** Text without braces, and the segment behind it. */
  datatype Piece = Piece(plain: string, segment: string)

  /** A query cut at its balanced segments; `tail` begins with the brace that has no partner, if there is one. */
  datatype Cut = Cut(pieces: seq<Piece>, plain: string, tail: string)

  function Content(pieces: seq<Piece>): string {
    if pieces == [] then "" else pieces[0].plain + (pieces[0].segment + Content(pieces[1..]))
  }

  ghost predicate WellFormed(pieces: seq<Piece>) {
    forall i :: 0 <= i < |pieces| ==> Plain(pieces[i].plain) && Balanced(pieces[i].segment)
  }

  ghost predicate IsTail(s: string) { s == "" || s[0] == '}' || (s[0] == '{' && Unclosed(s)) }

  ghost predicate IsCut(q: string, c: Cut) {
    && WellFormed(c.pieces) && Plain(c.plain) && IsTail(c.tail)
    && q == Content(c.pieces) + (c.plain + c.tail)
  }

  /** The plain text and the translations of the segments; the first translation without a text decides. */
  function Translated(pieces: seq<Piece>): Outcome {
    if pieces == [] then Done("")
    else
      var o := Translate(pieces[0].segment);
      if !o.Done? then o
      else
        var more := Translated(pieces[1..]);
        if more.Done? then Done(pieces[0].plain + (o.text + more.text)) else more
  }

  /** What becomes of a query: it stays as it is when a segment cannot be translated, or when a closing brace
      has no partner. */
  function Replaced(q: string, c: Cut): Outcome {
    var o := Translated(c.pieces);
    match o
    case Endless => Endless
    case Failed => Done(q)
    case Done(text) => if c.tail != "" && c.tail[0] == '}' then Done(q) else Done(text + (c.plain + c.tail))
  }

  // -------- a query has one cut only

  lemma BraceInside(a: string, x: string, b: string, y: string)
    requires a + x == b + y && |a| < |b| && (x == "" || IsBrace(x[0]))
    ensures !Plain(b)
  {
    assert (a + x)[|a|] == (b + y)[|a|] == b[|a|];
    assert |x| >= |b| - |a|;
  }

  lemma SamePlain(a: string, x: string, b: string, y: string)
    requires a + x == b + y && Plain(a) && Plain(b)
    requires x == "" || IsBrace(x[0])
    requires y == "" || IsBrace(y[0])
    ensures a == b && x == y
  {
    hide Plain;
    if |a| < |b| {
      BraceInside(a, x, b, y);
    }
    if |b| < |a| {
      BraceInside(b, y, a, x);
    }
    SplitEqual(a, x, b, y);
  }

  lemma BalancedStart(s: string)
    requires Balanced(s)
    ensures s[0] == '{'
  {
    assert s[..|s| - 1][..1] == s[..1] && s[..1][..0] == "";
    assert Depth(s[..|s| - 1][..1]) > 0;
  }

  lemma NoBalancedPrefix(a: string, x: string, s: string)
    requires Balanced(a) && a + x == s && x != ""
    ensures !Unclosed(s) && !Balanced(s)
  {
    assert s[..|a|] == a;
    assert s[..|s| - 1][..|a|] == a;
  }

  lemma SameSegment(a: string, x: string, b: string, y: string)
    requires a + x == b + y && Balanced(a) && Balanced(b)
    ensures a == b && x == y
  {
    if |a| < |b| {
      assert b == (b + y)[..|b|] == (a + x)[..|b|] == a + x[..|b| - |a|];
      NoBalancedPrefix(a, x[..|b| - |a|], b);
    }
    if |b| < |a| {
      assert a == (a + x)[..|a|] == (b + y)[..|a|] == b + y[..|a| - |b|];
      NoBalancedPrefix(b, y[..|a| - |b|], a);
    }
    SplitEqual(a, x, b, y);
  }

  lemma SegmentIsNoTail(a: string, x: string, tail: string)
    requires Balanced(a) && a + x == tail
    ensures !IsTail(tail)
  {
    BalancedStart(a);
    assert tail[0] == a[0];
    assert tail[..|a|] == a;
  }

  lemma {:induction false} OneCut(q: string, c: Cut, d: Cut)
    requires IsCut(q, c) && IsCut(q, d)
    ensures c == d
    decreases |c.pieces| + |d.pieces|
  {
    hide Plain, Balanced, Unclosed, IsTail;
    var x, xs := CutHead(q, c);
    var y, ys := CutHead(q, d);
    SamePlain(x, xs, y, ys);
    if c.pieces != [] && d.pieces != [] {
      var c1, d1 := c.(pieces := c.pieces[1..]), d.(pieces := d.pieces[1..]);
      var cr, dr := Content(c1.pieces) + (c.plain + c.tail), Content(d1.pieces) + (d.plain + d.tail);
      SameSegment(c.pieces[0].segment, cr, d.pieces[0].segment, dr);
      OneCut(cr, c1, d1);
      assert c.pieces == [c.pieces[0]] + c1.pieces && d.pieces == [d.pieces[0]] + d1.pieces;
    } else if c.pieces != [] {
      SegmentIsNoTail(c.pieces[0].segment, Content(c.pieces[1..]) + (c.plain + c.tail), d.tail);
    } else if d.pieces != [] {
      SegmentIsNoTail(d.pieces[0].segment, Content(d.pieces[1..]) + (d.plain + d.tail), c.tail);
    }
  }

  /** The first plain text of a cut, and what is behind it. */
  lemma CutHead(q: string, c: Cut) returns (first: string, behind: string)
    requires IsCut(q, c)
    ensures q == first + behind && Plain(first) && (behind == "" || IsBrace(behind[0]))
    ensures c.pieces == [] ==> first == c.plain && behind == c.tail
    ensures c.pieces != [] ==>
              first == c.pieces[0].plain && behind
                  == c.pieces[0].segment + (Content(c.pieces[1..]) + (c.plain + c.tail))
  {
    hide Plain, Unclosed;
    if c.pieces == [] {
      first, behind := c.plain, c.tail;
      assert "" + (c.plain + c.tail) == c.plain + c.tail;
    } else {
      var p := c.pieces[0];
      var rest, more := c.plain + c.tail, Content(c.pieces[1..]);
      first, behind := p.plain, p.segment + (more + rest);
      BalancedStart(p.segment);
      assert p.plain + (p.segment + more) + rest == p.plain + (p.segment + (more + rest));
    }
  }

  // -------- every query has a cut

  function FirstBrace(q: string): (i: nat)
    ensures i <= |q| && (forall k :: 0 <= k < i ==> !IsBrace(q[k])) && (i < |q| ==> IsBrace(q[i]))
  {
    if q == "" || IsBrace(q[0]) then 0 else FirstBrace(q[1..]) + 1
  }

  lemma DepthNext(s: string, k: nat)
    requires k < |s|
    ensures Depth(s[..k + 1]) == Depth(s[..k]) + (if s[k] == '{' then 1 else if s[k] == '}' then -1 else 0)
  {
    assert s[..k + 1][..k] == s[..k];
  }

  lemma UnclosedNext(s: string, k: nat)
    requires k < |s| && Unclosed(s[..k]) && Depth(s[..k + 1]) > 0
    ensures Unclosed(s[..k + 1])
  {
    var t := s[..k + 1];
    forall j | 0 < j <= |t| ensures Depth(t[..j]) > 0 {
      assert t[..j] == s[..j];
      assert j <= k ==> s[..k][..j] == s[..j];
    }
  }

  lemma BalancedNext(s: string, k: nat)
    requires 0 < k < |s| && Unclosed(s[..k]) && Depth(s[..k + 1]) == 0
    ensures Balanced(s[..k + 1])
  {
    assert s[..k + 1][..k] == s[..k];
  }

  /** The character in front of `n` closes the brace that the text opens with. */
  ghost predicate ClosesAt(s: string, n: nat) { n <= |s| && Balanced(s[..n]) }

  /** The end of the segment that begins with the text, or None when it is never closed. */
  function SegmentEnd(s: string, k: nat): (end: Option<nat>)
    requires 0 < k <= |s| && Unclosed(s[..k])
    ensures end.Some? ==> k < end.value && ClosesAt(s, end.value)
    ensures end.None? ==> Unclosed(s)
    decreases |s| - k
  {
    hide Unclosed, Balanced, Depth;
    if k == |s| then
      assert s[..k] == s;
      None
    else
      DepthNext(s, k);
      DepthPositive(s, k);
      if Depth(s[..k + 1]) == 0 then
        BalancedNext(s, k);
        Some(k + 1)
      else
        UnclosedNext(s, k);
        SegmentEnd(s, k + 1)
  }

  lemma DepthPositive(s: string, k: nat)
    requires 0 < k <= |s| && Unclosed(s[..k])
    ensures Depth(s[..k]) > 0
  {
    assert s[..k][..k] == s[..k];
  }

  lemma OpeningBrace(s: string)
    requires s != "" && s[0] == '{'
    ensures Unclosed(s[..1]) && Depth(s[..1]) == 1
  {
    assert s[..1][..0] == "" && s[..1][..1] == s[..1];
  }

  function CutOf(q: string): (c: Cut)
    ensures IsCut(q, c)
    decreases |q|
  {
    hide Balanced, Unclosed, IsCut;
    var i := FirstBrace(q);
    assert q == q[..i] + q[i..];
    if i == |q| then
      CutHere(q[..i], q[i..]);
      Cut([], q[..i], q[i..])
    else if q[i] == '}' then
      CutHere(q[..i], q[i..]);
      Cut([], q[..i], q[i..])
    else
      var rest := q[i..];
      OpeningBrace(rest);
      match SegmentEnd(rest, 1)
      case None =>
        CutHere(q[..i], rest);
        Cut([], q[..i], rest)
      case Some(end) =>
        var c := CutOf(rest[end..]);
        CutPrepend(Piece(q[..i], rest[..end]), rest[end..], c);
        assert rest == rest[..end] + rest[end..];
        c.(pieces := [Piece(q[..i], rest[..end])] + c.pieces)
  }

  lemma CutHere(plain: string, tail: string)
    requires Plain(plain) && IsTail(tail)
    ensures IsCut(plain + tail, Cut([], plain, tail))
  {
    assert "" + (plain + tail) == plain + tail;
  }

  lemma CutPrepend(p: Piece, rest: string, c: Cut)
    requires IsCut(rest, c) && Plain(p.plain) && Balanced(p.segment)
    ensures IsCut(p.plain + (p.segment + rest), c.(pieces := [p] + c.pieces))
  {
    hide Plain, Balanced, Unclosed;
    var pieces, end := [p] + c.pieces, c.plain + c.tail;
    assert pieces[1..] == c.pieces;
    assert p.plain + (p.segment + (Content(c.pieces) + end)) == p.plain + (p.segment + Content(c.pieces)) + end;
  }

  // -------- the loop

  lemma {:induction false} ContentAppend(a: seq<Piece>, b: seq<Piece>)
    ensures Content(a + b) == Content(a) + Content(b)
  {
    if a == [] {
      assert a + b == b && "" + Content(b) == Content(b);
    } else {
      assert (a + b)[1..] == a[1..] + b;
      ContentAppend(a[1..], b);
      var x, y, z := a[0].plain, a[0].segment, Content(a[1..]);
      assert x + (y + (z + Content(b))) == x + (y + z) + Content(b);
    }
  }

  lemma {:induction false} TranslatedAppend(a: seq<Piece>, b: seq<Piece>)
    ensures Translated(a + b) == (if !Translated(a).Done? then Translated(a)
                                  else if !Translated(b).Done? then Translated(b)
                                  else Done(Translated(a).text + Translated(b).text))
  {
    hide Translate;
    if a == [] {
      assert a + b == b && (Translated(b).Done? ==> "" + Translated(b).text == Translated(b).text);
    } else {
      assert (a + b)[1..] == a[1..] + b;
      TranslatedAppend(a[1..], b);
      var o, ta, tb := Translate(a[0].segment), Translated(a[1..]), Translated(b);
      if o.Done? && ta.Done? && tb.Done? {
        assert a[0].plain + (o.text + (ta.text + tb.text)) == a[0].plain + (o.text + ta.text) + tb.text;
      }
    }
  }

  /** The loop has copied or translated the query up to `st`, and looked at it up to `p`. */
  ghost predicate Reached(q: string, st: nat, p: nat, level: int, pieces: seq<Piece>, plain: string) {
    && st <= p <= |q| && WellFormed(pieces) && Plain(plain) && q[..st] == Content(pieces) + plain
    && if level == 0 then plain == "" && Plain(q[st..p]) else st < p && Unclosed(q[st..p]) && level == Depth(q[st..p])
  }

  lemma Copied(q: string, st: nat, p: nat, level: int, pieces: seq<Piece>, plain: string)
    requires Reached(q, st, p, level, pieces, plain) && p < |q| && !IsBrace(q[p])
    ensures Reached(q, st, p + 1, level, pieces, plain)
  {
    hide WellFormed, Content;
    assert q[st..p + 1] == q[st..p] + [q[p]];
    if level != 0 {
      Deeper(q, st, p, level);
    }
  }

  lemma Deeper(q: string, st: nat, p: nat, level: int)
    requires st < p < |q| && Unclosed(q[st..p]) && level == Depth(q[st..p])
    ensures var next := level + (if q[p] == '{' then 1 else if q[p] == '}' then -1 else 0);
            && level > 0 && Depth(q[st..p + 1]) == next
            && (next > 0 ==> Unclosed(q[st..p + 1])) && (next == 0 ==> Balanced(q[st..p + 1]))
  {
    hide Depth, Unclosed, Balanced;
    var s, k := q[st..p + 1], p - st;
    assert s[..k] == q[st..p] && s[..k + 1] == s;
    DepthNext(s, k);
    DepthPositive(s, k);
    if Depth(s) == 0 {
      BalancedNext(s, k);
    } else {
      UnclosedNext(s, k);
    }
  }

  lemma Opened(q: string, st: nat, p: nat, pieces: seq<Piece>)
    requires Reached(q, st, p, 0, pieces, "") && p < |q| && q[p] == '{'
    ensures Reached(q, p, p + 1, 1, pieces, q[st..p])
  {
    hide WellFormed, Content, Unclosed, Depth;
    OpeningBrace(q[p..]);
    assert q[p..][..1] == q[p..p + 1];
    assert q[..p] == q[..st] + q[st..p];
    assert Content(pieces) + "" == Content(pieces);
  }

  lemma Closed(q: string, st: nat, p: nat, pieces: seq<Piece>, plain: string)
    requires Reached(q, st, p, 1, pieces, plain) && p < |q| && q[p] == '}'
    ensures Reached(q, p + 1, p + 1, 0, pieces + [Piece(plain, q[st..p + 1])], "")
  {
    hide Content, Unclosed, Depth, Balanced;
    Deeper(q, st, p, 1);
    var piece := Piece(plain, q[st..p + 1]);
    ContentAppend(pieces, [piece]);
    ContentOne(piece);
    assert q[..p + 1] == q[..st] + q[st..p + 1];
    assert q[..p + 1] == Content(pieces + [piece]) + "";
  }

  lemma ContentOne(p: Piece)
    ensures Content([p]) == p.plain + p.segment
  {
    assert [p][1..] == [] && p.segment + "" == p.segment;
  }

  /** The whole query is kept when a translation fails. */
  lemma GivesUp(q: string, st: nat, pieces: seq<Piece>)
    requires st <= |q| && WellFormed(pieces) && q[..st] == Content(pieces) && !Translated(pieces).Done?
    ensures Replaced(q, CutOf(q)) == if Translated(pieces) == Endless then Endless else Done(q)
  {
    hide WellFormed, Plain, IsTail, Translated, CutOf;
    var c := CutOf(q[st..]);
    WholeCut(q, st, pieces, c);
    TranslatedAppend(pieces, c.pieces);
  }

  lemma WholeCut(q: string, st: nat, pieces: seq<Piece>, c: Cut)
    requires st <= |q| && WellFormed(pieces) && q[..st] == Content(pieces) && IsCut(q[st..], c)
    ensures CutOf(q) == c.(pieces := pieces + c.pieces)
  {
    hide Plain, Balanced, IsTail, CutOf, Content;
    var d := c.(pieces := pieces + c.pieces);
    ContentAppend(pieces, c.pieces);
    assert q == q[..st] + q[st..];
    assert q == Content(pieces) + (Content(c.pieces) + (c.plain + c.tail))
           == Content(pieces) + Content(c.pieces) + (c.plain + c.tail);
    OneCut(q, CutOf(q), d);
  }

  /** The loop ends, or meets a closing brace without a partner, and the cut of the query is known. */
  lemma LastPiece(q: string, st: nat, pieces: seq<Piece>, plain: string, tail: string)
    requires st <= |q| && WellFormed(pieces) && Plain(plain) && IsTail(tail)
    requires q[..st] == Content(pieces) && q[st..] == plain + tail
    ensures CutOf(q) == Cut(pieces, plain, tail)
  {
    hide WellFormed, Plain, IsTail;
    CutHere(plain, tail);
    WholeCut(q, st, pieces, Cut([], plain, tail));
    assert pieces + [] == pieces;
  }

  lemma StrayBrace(q: string, st: nat, p: nat, pieces: seq<Piece>)
    requires Reached(q, st, p, 0, pieces, "") && p < |q| && q[p] == '}' && Translated(pieces).Done?
    ensures Replaced(q, CutOf(q)) == Done(q)
  {
    hide WellFormed, Plain, Content, Translated, CutOf, Depth, Unclosed;
    assert q[st..] == q[st..p] + q[p..] && Content(pieces) + "" == Content(pieces);
    LastPiece(q, st, pieces, q[st..p], q[p..]);
  }

  lemma EndOfQuery(q: string, st: nat, level: int, pieces: seq<Piece>, plain: string)
    requires Reached(q, st, |q|, level, pieces, plain) && Translated(pieces).Done?
    ensures Replaced(q, CutOf(q)) == Done(Translated(pieces).text + plain + q[st..])
  {
    hide WellFormed, Plain, Content, Translated, CutOf, Depth, Unclosed;
    assert q[st..|q|] == q[st..];
    if level == 0 {
      EndPlain(q, st, pieces);
    } else {
      EndUnclosed(q, st, pieces, plain);
    }
  }

  lemma EndPlain(q: string, st: nat, pieces: seq<Piece>)
    requires st <= |q| && WellFormed(pieces) && Plain(q[st..]) && q[..st] == Content(pieces) + ""
             && Translated(pieces).Done?
    ensures Replaced(q, CutOf(q)) == Done(Translated(pieces).text + "" + q[st..])
  {
    hide WellFormed, Plain, Content, Translated, CutOf;
    var out := Translated(pieces).text;
    assert Content(pieces) + "" == Content(pieces) && q[st..] == q[st..] + "";
    LastPiece(q, st, pieces, q[st..], "");
    assert out + (q[st..] + "") == out + "" + q[st..];
  }

  lemma EndUnclosed(q: string, st: nat, pieces: seq<Piece>, plain: string)
    requires st < |q| && WellFormed(pieces) && Plain(plain) && Unclosed(q[st..])
    requires q[..st] == Content(pieces) + plain && Translated(pieces).Done?
    ensures Replaced(q, CutOf(q)) == Done(Translated(pieces).text + plain + q[st..])
  {
    hide WellFormed, Plain, Content, Translated, CutOf, Unclosed;
    var from, out := |Content(pieces)|, Translated(pieces).text;
    assert |q[..st]| == from + |plain|;
    assert q[..from] == q[..st][..from] == Content(pieces);
    assert q[from..] == q[..st][from..] + q[st..] == plain + q[st..];
    UnclosedTail(q[st..]);
    LastPiece(q, from, pieces, plain, q[st..]);
    assert out + (plain + q[st..]) == out + plain + q[st..];
  }

  lemma UnclosedTail(s: string)
    requires s != "" && Unclosed(s)
    ensures s[0] == '{' && IsTail(s)
  {
    assert s[..1][..0] == "";
    assert Depth(s[..1]) > 0;
  }

  lemma TranslatedOne(pieces: seq<Piece>, p: Piece)
    requires Translated(pieces).Done?
    ensures var o, r := Translate(p.segment), Translated(pieces + [p]);
            r == if o.Done? then Done(Translated(pieces).text + p.plain + o.text) else o
  {
    hide Translate;
    TranslatedAppend(pieces, [p]);
    assert [p][1..] == [];
    var o := Translate(p.segment);
    if o.Done? {
      assert Translated([p]).text == p.plain + (o.text + "") == p.plain + o.text;
      var t := Translated(pieces).text;
      assert t + (p.plain + o.text) == t + p.plain + o.text;
    }
  }

  /** replaceEscapeSequences */
  method ReplaceEscapeSequences(query: string) returns (r: Outcome)
    ensures r == Replaced(query, CutOf(query))
    ensures VT !in query ==> r.Done?
  {
    hide Reached, Translate, Translated, CutOf, Replaced, WellFormed, Content;
    var p, st, level := 0, 0, 0;
    var ret := "";
    ghost var pieces: seq<Piece>, plain := [], "";
    Start(query);
    if VT !in query {
      Returns(query);
    }
    while p < |query|
      invariant Reached(query, st, p, level, pieces, plain) && st <= p <= |query| && level >= 0
      invariant level == 0 ==> plain == ""
      invariant Translated(pieces).Done? && ret == Translated(pieces).text + plain
    {
      if query[p] == '{' {
        if level == 0 {
          Opened(query, st, p, pieces);
          plain := query[st..p];
          if st < p {
            ret := ret + query[st..p];
          }
          st := p;
        } else {
          Inside(query, st, p, level, pieces, plain);
        }
        level := level + 1;
      } else if query[p] == '}' {
        if level == 0 {
          StrayBrace(query, st, p, pieces);
          return Done(query);
        }
        level := level - 1;
        if level == 0 {
          Closed(query, st, p, pieces, plain);
          var segment := query[st..p + 1];
          TranslatedOne(pieces, Piece(plain, segment));
          var processed := EscapeSequences.ProcessEscapeSequences(segment);
          pieces := pieces + [Piece(plain, segment)];
          if !processed.Done? {
            AllCut(query, p + 1, pieces);
            GivesUp(query, p + 1, pieces);
            return if processed.Failed? then Done(query) else Endless;
          }
          ret := ret + processed.text;
          plain := "";
          st := p + 1;
        } else {
          Inside(query, st, p, level + 1, pieces, plain);
        }
      } else {
        Copied(query, st, p, level, pieces, plain);
      }
      p := p + 1;
    }
    EndOfQuery(query, st, level, pieces, plain);
    if st < p {
      ret := ret + query[st..p];
    }
    return Done(ret);
  }

  lemma Start(q: string)
    ensures Reached(q, 0, 0, 0, [], "") && Translated([]) == Done("")
  {
  }

  lemma Inside(q: string, st: nat, p: nat, level: int, pieces: seq<Piece>, plain: string)
    requires Reached(q, st, p, level, pieces, plain) && level > 0 && p < |q| && IsBrace(q[p])
    requires q[p] == '}' ==> level > 1
    ensures Reached(q, st, p + 1, if q[p] == '{' then level + 1 else level - 1, pieces, plain)
  {
    hide WellFormed, Content, Plain, Depth, Unclosed, Balanced;
    Deeper(q, st, p, level);
  }

  lemma AllCut(q: string, st: nat, pieces: seq<Piece>)
    requires Reached(q, st, st, 0, pieces, "")
    ensures WellFormed(pieces) && q[..st] == Content(pieces)
  {
    hide WellFormed, Content;
    assert Content(pieces) + "" == Content(pieces);
  }

  // -------- what that means

  /** Without a vertical tab the translation always comes to an end. */
  lemma Returns(q: string)
    requires VT !in q
    ensures Replaced(q, CutOf(q)).Done?
  {
    hide CutOf, WellFormed, Plain, IsTail, Content, Translated;
    var c := CutOf(q);
    assert forall x :: x in Content(c.pieces) ==> x in q;
    TranslatedReturns(c.pieces);
  }

  lemma {:induction false} TranslatedReturns(pieces: seq<Piece>)
    requires VT !in Content(pieces)
    ensures Translated(pieces) != Endless
  {
    hide Sequence;
    if pieces != [] {
      var p := pieces[0];
      assert forall x :: x in p.segment ==> x in Content(pieces);
      assert forall x :: x in Content(pieces[1..]) ==> x in Content(pieces);
      TranslatedReturns(pieces[1..]);
      assert NoVT(State(p.segment, [], false));
    }
  }

  /** The output is determined by any cut of the query: text outside the balanced segments is copied. */
  lemma AnyCutDecides(q: string, c: Cut)
    requires IsCut(q, c)
    ensures Replaced(q, CutOf(q)) == Replaced(q, c)
  {
    hide CutOf, IsCut, Replaced;
    OneCut(q, c, CutOf(q));
  }

  /** The first segment without a translation decides. */
  lemma {:induction false} FirstDecides(pieces: seq<Piece>, i: nat)
    requires i < |pieces| && !Translate(pieces[i].segment).Done?
    requires forall k :: 0 <= k < i ==> Translate(pieces[k].segment).Done?
    ensures Translated(pieces) == Translate(pieces[i].segment)
  {
    hide Translate;
    if i > 0 {
      FirstDecides(pieces[1..], i - 1);
    }
  }

  /** The segment at `i` is the first one without a translation. */
  ghost predicate Decides(pieces: seq<Piece>, i: nat) {
    && i < |pieces| && !Translate(pieces[i].segment).Done?
    && forall k :: 0 <= k < i ==> Translate(pieces[k].segment).Done?
  }

  lemma {:induction false} SomeDecides(pieces: seq<Piece>) returns (i: nat)
    requires !Translated(pieces).Done?
    ensures Decides(pieces, i) && Translated(pieces) == Translate(pieces[i].segment)
  {
    hide Translate;
    if !Translate(pieces[0].segment).Done? {
      i := 0;
    } else {
      i := SomeDecides(pieces[1..]);
      i := i + 1;
      assert forall k :: 0 < k < i ==> pieces[k] == pieces[1..][k - 1];
    }
  }

  /** The translation of a query does not come to an end exactly when the first segment without a translation is one
      whose translation does not come to an end. */
  lemma EndlessExactly(q: string)
    ensures var pieces := CutOf(q).pieces;
            Replaced(q, CutOf(q)) == Endless
            <==> exists i: nat :: Decides(pieces, i) && Translate(pieces[i].segment) == Endless
  {
    hide CutOf, Translate, Translated;
    var pieces := CutOf(q).pieces;
    if i: nat :| Decides(pieces, i) && Translate(pieces[i].segment) == Endless {
      DecidesFirst(pieces, i);
    } else if Replaced(q, CutOf(q)) == Endless {
      var i := SomeDecides(pieces);
      assert false;
    }
  }

  lemma DecidesFirst(pieces: seq<Piece>, i: nat)
    requires Decides(pieces, i)
    ensures Translated(pieces) == Translate(pieces[i].segment)
  {
    hide Translate, Translated;
    FirstDecides(pieces, i);
  }

  /** One segment that cannot be translated keeps the whole query, unless the translation of one in front of it does not
      come to an end. */
  lemma FailureKeepsQuery(q: string, i: nat)
    requires Decides(CutOf(q).pieces, i) && Translate(CutOf(q).pieces[i].segment) == Failed
    ensures Replaced(q, CutOf(q)) == Done(q)
  {
    hide CutOf, Translate, Translated, Decides;
    DecidesFirst(CutOf(q).pieces, i);
  }

  // -------- unmatched closing braces

  ghost predicate NeverNegative(s: string) { forall k :: 0 <= k <= |s| ==> Depth(s[..k]) >= 0 }

  lemma {:induction false} DepthAppend(a: string, b: string)
    ensures Depth(a + b) == Depth(a) + Depth(b)
    decreases |b|
  {
    if b == "" {
      assert a + b == a;
    } else {
      DepthAppend(a, b[..|b| - 1]);
      assert (a + b)[..|a + b| - 1] == a + b[..|b| - 1];
    }
  }

  lemma NeverNegativeAppend(a: string, b: string)
    requires NeverNegative(a) && NeverNegative(b) && Depth(a) == 0
    ensures NeverNegative(a + b) && Depth(a + b) == Depth(b)
  {
    hide Depth;
    DepthAppend(a, b);
    var s := a + b;
    forall k | 0 <= k <= |s| ensures Depth(s[..k]) >= 0 {
      if k <= |a| {
        assert s[..k] == a[..k];
      } else {
        assert s[..k] == a + b[..k - |a|];
        DepthAppend(a, b[..k - |a|]);
      }
    }
  }

  lemma {:induction false} PlainDepth(s: string)
    requires Plain(s)
    ensures Depth(s) == 0 && NeverNegative(s)
    decreases |s|
  {
    if s != "" {
      var front := s[..|s| - 1];
      PlainDepth(front);
      forall k | 0 <= k <= |s| ensures Depth(s[..k]) >= 0 {
        assert if k < |s| then s[..k] == front[..k] else s[..k] == s;
      }
    }
  }

  lemma UnclosedDepth(s: string)
    requires Unclosed(s)
    ensures NeverNegative(s)
  {
    assert s[..0] == "";
  }

  lemma BalancedDepth(s: string)
    requires Balanced(s)
    ensures Depth(s) == 0 && NeverNegative(s)
  {
    hide Depth;
    var front := s[..|s| - 1];
    UnclosedDepth(front);
    forall k | 0 <= k <= |s| ensures Depth(s[..k]) >= 0 {
      assert if k < |s| then s[..k] == front[..k] else s[..k] == s;
    }
  }

  lemma {:induction false} ContentDepth(pieces: seq<Piece>)
    requires WellFormed(pieces)
    ensures Depth(Content(pieces)) == 0 && NeverNegative(Content(pieces))
  {
    hide Depth, Plain, Balanced, NeverNegative;
    if pieces == [] {
      EmptyDepth();
    } else {
      var p := pieces[0];
      ContentDepth(pieces[1..]);
      BalancedDepth(p.segment);
      PlainDepth(p.plain);
      NeverNegativeAppend(p.segment, Content(pieces[1..]));
      NeverNegativeAppend(p.plain, p.segment + Content(pieces[1..]));
    }
  }

  lemma EmptyDepth()
    ensures Depth("") == 0 && NeverNegative("")
  {
  }

  /** The query has a closing brace without a partner exactly when some prefix has more closing than opening
      braces, quoted ones included. */
  lemma StrayMeansNegative(q: string)
    ensures var c := CutOf(q); c.tail != "" && c.tail[0] == '}' <==> !NeverNegative(q)
  {
    hide Depth, Plain, Balanced, CutOf, WellFormed, Unclosed, NeverNegative;
    var c := CutOf(q);
    var front := Content(c.pieces) + c.plain;
    ContentDepth(c.pieces);
    PlainDepth(c.plain);
    NeverNegativeAppend(Content(c.pieces), c.plain);
    assert q == front + c.tail;
    if c.tail != "" && c.tail[0] == '}' {
      NegativeAfter(front, c.tail);
    } else {
      if c.tail == "" {
        EmptyDepth();
      } else {
        UnclosedDepth(c.tail);
      }
      NeverNegativeAppend(front, c.tail);
    }
  }

  lemma NegativeAfter(front: string, tail: string)
    requires Depth(front) == 0 && tail != "" && tail[0] == '}'
    ensures !NeverNegative(front + tail)
  {
    var s, k := front + tail, |front|;
    DepthNext(s, k);
    assert s[..k] == front && s[k] == tail[0];
    assert Depth(s[..k + 1]) < 0;
  }

  /** A closing brace in excess keeps every escape sequence of the query from being translated, wherever it
      stands: braces in quotes count as well. */
  lemma StrayBraceKeepsQuery(q: string)
    requires VT !in q && !NeverNegative(q)
    ensures Replaced(q, CutOf(q)) == Done(q)
  {
    hide CutOf, Translated, NeverNegative;
    Returns(q);
    StrayMeansNegative(q);
  }

  lemma BraceLiterals()
    ensures SqlLiteral("}") == "'" + ("}" + "'") && SqlLiteral("{}") == "'" + ("{}" + "'")
            && SqlLiteral("") == "'" + "'"
  {
    assert Escaped("}") == "}" + "" && Escaped("{}") == "{" + ("}" + "");
  }

  /** A closing brace in a literal keeps every escape sequence of the query from being translated. */
  lemma QuotedBraceKeepsQuery(front: string, back: string)
    requires VT !in front && VT !in back && Plain(front)
    ensures var q := front + (SqlLiteral("}") + back); Replaced(q, CutOf(q)) == Done(q)
  {
    hide Plain, CutOf, Translated, NeverNegative, SqlLiteral;
    BraceLiterals();
    var q := front + (SqlLiteral("}") + back);
    PlainDepth(front);
    DepthAppend(front, "'");
    assert Depth("'") == 0 by { assert "'"[..0] == ""; }
    assert q == (front + "'") + ("}" + ("'" + back));
    NegativeAfter(front + "'", "}" + ("'" + back));
    StrayBraceKeepsQuery(q);
  }

  lemma EmptySegment()
    ensures Balanced("{}")
  {
    OpeningBrace("{}");
    DepthNext("{}", 1);
    assert "{}"[..2] == "{}";
  }

  lemma EmptyTranslation()
    ensures Translate("{}") == Done("")
  {
    hide Look, SequenceBody;
    assert "{}" == ['{'] + "}";
    LookDelimiter('{', "}", false);
    EmptyBody();
  }

  lemma EmptyBody()
    ensures SequenceBody("{}", State("}", [], false), "") == (Done(""), State("", [], false))
  {
    hide SequenceBody;
    assert ['}'] + "" == "}";
    BraceBehind("{}", "", "");
  }

  lemma QuotedCut()
    ensures IsCut("'" + ("{}" + "'"), Cut([Piece("'", "{}")], "'", ""))
  {
    hide Depth, Balanced, Content;
    EmptySegment();
    ContentOne(Piece("'", "{}"));
    assert Content([Piece("'", "{}")]) + ("'" + "") == "'" + ("{}" + "'");
  }

  /** A brace pair inside a literal is taken for an escape sequence, an empty one, and disappears. */
  lemma QuotedBracesVanish()
    ensures Replaced(SqlLiteral("{}"), CutOf(SqlLiteral("{}"))) == Done(SqlLiteral(""))
  {
    hide CutOf, Translate, IsCut, Translated, SqlLiteral;
    BraceLiterals();
    var piece := Piece("'", "{}");
    QuotedCut();
    EmptyTranslation();
    NothingTranslated();
    TranslatedOne([], piece);
    assert [] + [piece] == [piece] && "" + "'" + "" == "'";
    AnyCutDecides(SqlLiteral("{}"), Cut([piece], "'", ""));
  }

  lemma NothingTranslated()
    ensures Translated([]) == Done("")
  {
  }
}
