/** Query parameters: ? and @name markers become unique placeholders, and those become {name:type}. */
module QueryParameters {
  import opened Text

  // -------- the markers of a query, found by one scan from left to right

  const NONE: char := '\0'

  /** A query cut at its markers: texts[0] marks[0] texts[1] ... marks[n - 1] texts[n]. */
  datatype Split = Split(texts: seq<string>, marks: seq<string>)

  ghost predicate WellCut(texts: seq<string>, subs: seq<string>) { |texts| == |subs| + 1 }

  /** The texts with `subs` between them. */
  function Weave(texts: seq<string>, subs: seq<string>): string
    requires WellCut(texts, subs)
  {
    if subs == [] then texts[0] else texts[0] + (subs[0] + Weave(texts[1..], subs[1..]))
  }

  function NameEnd(q: string, j: nat): (end: nat)
    requires 1 <= j <= |q|
    ensures j <= end <= |q|
    ensures forall k :: j <= k < end ==> q[k] != '@'
    decreases |q| - j
  {
    if j < |q| && (q[j] == '_' || IsAlpha(q[j]) || (IsDigit(q[j]) && j > 1)) then NameEnd(q, j + 1) else j
  }

  /** The marker at the head of the text, or "" when there is none; a bare "@" is a syntax error. */
  function MarkAt(q: string, quoted: char): (mark: string)
    requires q != ""
    ensures mark <= q
  {
    if quoted != NONE then ""
    else if q[0] == '?' then "?"
    else if q[0] == '@' then q[..NameEnd(q, 1)]
    else ""
  }

  /** How many characters a step of the scan skips when they are not a marker: an escaped character and a
      doubled quote go together with the one before. */
  function Step(q: string, quoted: char): (n: nat)
    requires q != ""
    ensures 1 <= n <= |q|
  {
    if |q| > 1 && (q[0] == '\\' || ((q[0] == '\'' || q[0] == '"') && quoted == q[0] && q[1] == q[0])) then 2 else 1
  }

  function NextQuote(q: string, quoted: char): char
    requires q != ""
  {
    if q[0] != '\'' && q[0] != '"' then quoted
    else if quoted != q[0] then q[0]
    else if |q| > 1 && q[1] == q[0] then quoted
    else NONE
  }

  function Prepend(text: string, split: Split): Split
    requires split.texts != []
  {
    split.(texts := [text + split.texts[0]] + split.texts[1..])
  }

  function Scan(q: string, quoted: char): (r: Option<Split>)
    ensures r.Some? ==> Cuts(r.value, q)
    decreases |q|
  {
    hide Weave, MarkAt, Step, NextQuote, Prepend;
    if q == "" then
      WeaveOne("");
      Some(Split([""], []))
    else
      var mark := MarkAt(q, quoted);
      if mark == "@" then None
      else if mark != "" then
        match Scan(q[|mark|..], quoted)
        case None => None
        case Some(rest) =>
          CutAt(q, mark, rest);
          Some(Split([""] + rest.texts, [mark] + rest.marks))
      else
        var n := Step(q, quoted);
        match Scan(q[n..], NextQuote(q, quoted))
        case None => None
        case Some(rest) =>
          PrependAt(q, n, rest);
          Some(Prepend(q[..n], rest))
  }

  ghost predicate Cuts(split: Split, q: string) {
    WellCut(split.texts, split.marks) && Weave(split.texts, split.marks) == q
  }

  lemma CutAt(q: string, mark: string, rest: Split)
    requires mark <= q && Cuts(rest, q[|mark|..])
    ensures Cuts(Split([""] + rest.texts, [mark] + rest.marks), q)
  {
    hide Weave;
    WeaveCut(mark, rest.texts, rest.marks);
    assert q == mark + q[|mark|..];
  }

  lemma PrependAt(q: string, n: nat, rest: Split)
    requires n <= |q| && Cuts(rest, q[n..])
    ensures Cuts(Prepend(q[..n], rest), q)
  {
    hide Weave;
    WeavePrepend(q[..n], rest.texts, rest.marks);
    assert q == q[..n] + q[n..];
  }

  lemma WeaveOne(text: string)
    ensures Weave([text], []) == text
  {
  }

  lemma WeaveCut(mark: string, texts: seq<string>, marks: seq<string>)
    requires WellCut(texts, marks)
    ensures Weave([""] + texts, [mark] + marks) == mark + Weave(texts, marks)
  {
    assert ([""] + texts)[1..] == texts && ([mark] + marks)[1..] == marks;
    assert "" + (mark + Weave(texts, marks)) == mark + Weave(texts, marks);
  }

  lemma WeavePrepend(text: string, texts: seq<string>, subs: seq<string>)
    requires WellCut(texts, subs)
    ensures Weave([text + texts[0]] + texts[1..], subs) == text + Weave(texts, subs)
  {
    if subs != [] {
      assert text + texts[0] + (subs[0] + Weave(texts[1..], subs[1..]))
             == text + (texts[0] + (subs[0] + Weave(texts[1..], subs[1..])));
    }
  }

  // -------- placeholders

  predicate IsUuidChar(c: char) { IsDigit(c) || 'a' <= c <= 'f' || c == '-' }

  /** '@' and the 36 characters of a UUID. */
  predicate IsPlaceholder(s: string) {
    |s| == 37 && s[0] == '@' && forall i :: 1 <= i < 37 ==> IsUuidChar(s[i])
  }

  /** What stands for a parameter in the final query: {name:type}. */
  predicate IsFinal(s: string) { |s| > 0 && s[0] == '{' && '@' !in s }

  /** While the k-th marker is replaced, its placeholder does not occur in the text that holds the first
      k placeholders and the remaining markers. */
  ghost predicate FreshRun(split: Split, placeholders: seq<string>) {
    && WellCut(split.texts, split.marks) && |placeholders| == |split.marks|
    && forall k :: 0 <= k < |placeholders| ==>
         IsPlaceholder(placeholders[k]) && !Occurs(placeholders[k],
             Weave(split.texts, placeholders[..k] + split.marks[k..]))
  }

  lemma {:induction false} WeaveJoin(texts: seq<string>, subs: seq<string>, sub: string, moreTexts: seq<string>,
      moreSubs: seq<string>)
    requires WellCut(texts, subs) && WellCut(moreTexts, moreSubs)
    ensures Weave(texts + moreTexts, subs + ([sub] + moreSubs))
            == Weave(texts, subs) + (sub + Weave(moreTexts, moreSubs))
    decreases |subs|
  {
    var allTexts, allSubs := texts + moreTexts, subs + ([sub] + moreSubs);
    if subs == [] {
      assert allTexts[1..] == moreTexts && allSubs == [sub] + moreSubs && allSubs[1..] == moreSubs;
    } else {
      WeaveJoin(texts[1..], subs[1..], sub, moreTexts, moreSubs);
      assert allTexts[1..] == texts[1..] + moreTexts && allSubs[1..] == subs[1..] + ([sub] + moreSubs);
      var rest, tail := Weave(texts[1..], subs[1..]), sub + Weave(moreTexts, moreSubs);
      assert texts[0] + (subs[0] + (rest + tail)) == texts[0] + (subs[0] + rest) + tail;
    }
  }

  /** The text in front of the i-th substitute, and the text behind it. */
  function Front(texts: seq<string>, subs: seq<string>, i: nat): string
    requires WellCut(texts, subs) && i < |subs|
  {
    Weave(texts[..i + 1], subs[..i])
  }

  function Back(texts: seq<string>, subs: seq<string>, i: nat): string
    requires WellCut(texts, subs) && i < |subs|
  {
    Weave(texts[i + 1..], subs[i + 1..])
  }

  lemma WeaveSplit(texts: seq<string>, subs: seq<string>, i: nat)
    requires WellCut(texts, subs) && i < |subs|
    ensures Weave(texts, subs) == Front(texts, subs, i) + (subs[i] + Back(texts, subs, i))
  {
    hide Weave;
    WeaveJoin(texts[..i + 1], subs[..i], subs[i], texts[i + 1..], subs[i + 1..]);
    assert texts[..i + 1] + texts[i + 1..] == texts;
    assert subs[..i] + ([subs[i]] + subs[i + 1..]) == subs;
  }

  /** Every text and every substitute can be found in the woven text. */
  lemma {:induction false} WeaveContains(texts: seq<string>, subs: seq<string>, p: string)
    requires WellCut(texts, subs)
    ensures forall k :: 0 <= k < |texts| && Occurs(p, texts[k]) ==> Occurs(p, Weave(texts, subs))
    ensures forall k :: 0 <= k < |subs| && Occurs(p, subs[k]) ==> Occurs(p, Weave(texts, subs))
    decreases |subs|
  {
    if subs != [] {
      var rest := Weave(texts[1..], subs[1..]);
      WeaveContains(texts[1..], subs[1..], p);
      OccursIn(p, texts[0], "", subs[0] + rest);
      OccursIn(p, subs[0], texts[0], rest);
      OccursIn(p, rest, texts[0] + subs[0], "");
      assert texts[0] + subs[0] + rest + "" == texts[0] + subs[0] + rest == texts[0] + (subs[0] + rest);
      assert "" + texts[0] == texts[0];
      forall k | 0 <= k < |texts| && Occurs(p, texts[k]) ensures Occurs(p, Weave(texts, subs)) {
        assert k > 0 ==> texts[k] == texts[1..][k - 1];
      }
      forall k | 0 <= k < |subs| && Occurs(p, subs[k]) ensures Occurs(p, Weave(texts, subs)) {
        assert k > 0 ==> subs[k] == subs[1..][k - 1];
      }
    }
  }

  lemma OccursIn(p: string, s: string, before: string, after: string)
    ensures Occurs(p, s) ==> Occurs(p, before + s + after)
  {
    if Occurs(p, s) {
      var i :| 0 <= i <= |s| && At(p, s, i);
      assert (before + s + after)[|before| + i..|before| + i + |p|] == s[i..i + |p|];
      assert At(p, before + s + after, |before| + i);
    }
  }

  ghost predicate Substitute(s: string) { IsPlaceholder(s) || IsFinal(s) }

  /** A placeholder occurs in a woven text only as one of its substitutes, or inside one of its texts: it
      cannot straddle a substitute, whose first character is '@' or '{'. */
  lemma {:induction false} OnlyThere(texts: seq<string>, subs: seq<string>, p: string, x: int) returns (k: nat)
    requires WellCut(texts, subs) && IsPlaceholder(p) && (forall i :: 0 <= i < |subs| ==> Substitute(subs[i]))
    requires At(p, Weave(texts, subs), x)
    ensures k < |texts|
    ensures Occurs(p, texts[k]) || (k < |subs| && subs[k] == p && x == |Front(texts, subs, k)|)
    decreases |subs|
  {
    var w, t := Weave(texts, subs), texts[0];
    if x + |p| <= |t| {
      assert t[x..x + |p|] == w[x..x + |p|];
      assert At(p, t, x);
      return 0;
    }
    var rest := Weave(texts[1..], subs[1..]);
    assert w == t + (subs[0] + rest);
    AtSubstitute(t, subs[0], rest, p, x);
    if x == |t| {
      assert texts[..1] == [t];
      return 0;
    }
    var x' := x - |t| - |subs[0]|;
    assert rest[x'..x' + |p|] == w[x..x + |p|];
    var k' := OnlyThere(texts[1..], subs[1..], p, x');
    k := k' + 1;
    if k < |subs| {
      assert texts[..k + 1][1..] == texts[1..][..k] && subs[..k][1..] == subs[1..][..k'];
    }
  }

  lemma AtSubstitute(t: string, sub: string, rest: string, p: string, x: int)
    requires IsPlaceholder(p) && Substitute(sub) && At(p, t + (sub + rest), x) && |t| < x + |p|
    ensures x == |t| || |t| + |sub| <= x
    ensures x == |t| ==> sub == p
  {
    var w := t + (sub + rest);
    assert forall i :: 0 <= i < |p| ==> p[i] == w[x..x + |p|][i] == w[x + i];
    assert w[|t|] == sub[0] && !IsUuidChar(sub[0]);
    assert forall j :: 1 <= j < |sub| ==> w[|t| + j] == sub[j] != '@';
    assert forall i :: x < i < x + |p| ==> w[i] == p[i - x];
    if x == |t| {
      assert w[x..x + |sub|] == sub;
    }
  }

  /** A placeholder that is fresh when it is made is found at its own place in every later text. */
  lemma FoundAtItsPlace(split: Split, placeholders: seq<string>, finals: seq<string>, i: nat)
    requires FreshRun(split, placeholders) && i < |placeholders| && |finals| == |placeholders|
    requires forall k :: 0 <= k < i ==> IsFinal(finals[k])
    ensures var subs := finals[..i] + placeholders[i..];
            Find(placeholders[i], Weave(split.texts, subs)) == Some(|Front(split.texts, subs, i)|)
  {
    var p, texts := placeholders[i], split.texts;
    var subs := finals[..i] + placeholders[i..];
    WeaveSplit(texts, subs, i);
    var at, w := |Front(texts, subs, i)|, Weave(texts, subs);
    assert w[at..at + |p|] == p;
    var found := Find(p, w);
    assert At(p, w, at);
    var k := OnlyThere(texts, subs, p, found.value);
    WeaveContains(texts, placeholders[..i] + split.marks[i..], p);
    if k < |subs| && subs[k] == p {
      FreshMeansNew(split, placeholders, i, k);
    }
  }

  lemma FreshMeansNew(split: Split, placeholders: seq<string>, i: nat, k: nat)
    requires FreshRun(split, placeholders) && i < |placeholders| && k < |placeholders|
             && placeholders[i] == placeholders[k]
    ensures i == k
  {
    if i < k {
      WeaveContains(split.texts, placeholders[..k] + split.marks[k..], placeholders[k]);
      assert (placeholders[..k] + split.marks[k..])[i] == placeholders[i];
      assert At(placeholders[k], placeholders[i], 0);
    } else if k < i {
      FreshMeansNew(split, placeholders, k, i);
    }
  }

  // -------- extraction, step by step

  function AppendLast(texts: seq<string>, text: string): (more: seq<string>)
    requires texts != []
    ensures |more| == |texts|
  {
    texts[..|texts| - 1] + [texts[|texts| - 1] + text]
  }

  /** What has been cut so far, and the cut of the rest. */
  function Join(texts: seq<string>, marks: seq<string>, rest: Option<Split>): Option<Split>
    requires texts != [] && (rest.Some? ==> rest.value.texts != [])
  {
    match rest
    case None => None
    case Some(more) => Some(Split(AppendLast(texts, more.texts[0]) + more.texts[1..], marks + more.marks))
  }

  lemma JoinSkip(texts: seq<string>, marks: seq<string>, text: string, rest: Split)
    requires texts != [] && rest.texts != []
    ensures Join(texts, marks, Some(Prepend(text, rest))) == Join(AppendLast(texts, text), marks, Some(rest))
  {
    var last := texts[|texts| - 1];
    assert last + (text + rest.texts[0]) == last + text + rest.texts[0];
    assert AppendLast(texts, text)[..|texts| - 1] == texts[..|texts| - 1];
  }

  lemma JoinMark(texts: seq<string>, marks: seq<string>, mark: string, rest: Split)
    requires texts != [] && rest.texts != []
    ensures Join(texts, marks, Some(Split([""] + rest.texts, [mark] + rest.marks)))
            == Join(texts + [""], marks + [mark], Some(rest))
  {
    var last := texts[|texts| - 1];
    assert last + "" == last && AppendLast(texts, "") == texts && "" + rest.texts[0] == rest.texts[0];
    assert AppendLast(texts + [""], rest.texts[0]) == texts + [rest.texts[0]];
    assert [rest.texts[0]] + rest.texts[1..] == rest.texts && ([""] + rest.texts)[1..] == rest.texts;
    assert texts + [rest.texts[0]] + rest.texts[1..] == texts + ([rest.texts[0]] + rest.texts[1..]);
    assert marks + ([mark] + rest.marks) == marks + [mark] + rest.marks;
  }

  lemma {:induction false} WeaveAppend(texts: seq<string>, subs: seq<string>, text: string)
    requires WellCut(texts, subs)
    ensures WellCut(AppendLast(texts, text), subs) && Weave(AppendLast(texts, text), subs) == Weave(texts, subs) + text
    decreases |subs|
  {
    if subs == [] {
      assert AppendLast(texts, text) == [texts[0] + text];
    } else {
      WeaveAppend(texts[1..], subs[1..], text);
      assert AppendLast(texts, text)[1..] == AppendLast(texts[1..], text);
      var rest := Weave(texts[1..], subs[1..]);
      assert texts[0] + (subs[0] + (rest + text)) == texts[0] + (subs[0] + rest) + text;
    }
  }

  lemma WeaveMark(texts: seq<string>, subs: seq<string>, sub: string)
    requires WellCut(texts, subs)
    ensures Weave(texts + [""], subs + [sub]) == Weave(texts, subs) + sub
  {
    WeaveJoin(texts, subs, sub, [""], []);
    assert [sub] + [] == [sub] && sub + "" == sub;
  }

  ghost predicate Progress(
    q0: string, quoted: char, texts: seq<string>, marks: seq<string>, placeholders: seq<string>, query: string, i: nat)
  {
    && i <= |query| && WellCut(texts, marks) && |placeholders| == |marks|
    && query[..i] == Weave(texts, placeholders)
    && Scan(q0, NONE) == Join(texts, marks, Scan(query[i..], quoted))
    && forall k :: 0 <= k < |placeholders| ==>
         && IsPlaceholder(placeholders[k])
         && !Occurs(placeholders[k], Weave(texts, placeholders[..k] + marks[k..]) + query[i..])
  }

  lemma ProgressSkip(
    q0: string, quoted: char, texts: seq<string>, marks: seq<string>, placeholders: seq<string>, query: string, i: nat)
    requires Progress(q0, quoted, texts, marks, placeholders, query, i) && i < |query|
             && MarkAt(query[i..], quoted) == ""
    ensures var rest := query[i..]; var n := Step(rest, quoted);
            Progress(q0, NextQuote(rest, quoted), AppendLast(texts, rest[..n]), marks, placeholders, query, i + n)
  {
    hide Weave, NameEnd, MarkAt, Step, NextQuote;
    var rest := query[i..];
    var n := Step(rest, quoted);
    var more := AppendLast(texts, rest[..n]);
    WeaveAppend(texts, placeholders, rest[..n]);
    assert query[..i + n] == query[..i] + rest[..n] && query[i + n..] == rest[n..];
    var tail := Scan(rest[n..], NextQuote(rest, quoted));
    if tail.Some? {
      JoinSkip(texts, marks, rest[..n], tail.value);
    }
    forall k | 0 <= k < |placeholders|
      ensures !Occurs(placeholders[k], Weave(more, placeholders[..k] + marks[k..]) + query[i + n..])
    {
      var subs := placeholders[..k] + marks[k..];
      WeaveAppend(texts, subs, rest[..n]);
      assert Weave(texts, subs) + rest[..n] + rest[n..] == Weave(texts, subs) + rest;
    }
  }

  lemma ProgressMark(
    q0: string, quoted: char, texts: seq<string>, marks: seq<string>, placeholders: seq<string>, query: string, i: nat,
        placeholder: string)
    requires Progress(q0, quoted, texts, marks, placeholders, query, i) && i < |query|
    requires MarkAt(query[i..], quoted) != "" && MarkAt(query[i..], quoted) != "@"
    requires IsPlaceholder(placeholder) && !Occurs(placeholder, query)
    ensures var mark := MarkAt(query[i..], quoted);
            Progress(q0, quoted, texts + [""], marks + [mark], placeholders + [placeholder],
                     query[..i] + placeholder + query[i + |mark|..], i + |placeholder|)
  {
    hide Weave, NameEnd, MarkAt, IsPlaceholder;
    var rest := query[i..];
    var mark := MarkAt(rest, quoted);
    var after := rest[|mark|..];
    var query' := query[..i] + placeholder + after;
    assert rest == mark + after;
    assert query[i + |mark|..] == after && query'[i + |placeholder|..] == after;
    assert query'[..i + |placeholder|] == query[..i] + placeholder;
    WeaveMark(texts, placeholders, placeholder);
    var tail := Scan(after, quoted);
    if tail.Some? {
      JoinMark(texts, marks, mark, tail.value);
    }
    forall k | 0 <= k <= |placeholders|
      ensures !Occurs((placeholders + [placeholder])[k],
              Weave(texts + [""], (placeholders + [placeholder])[..k] + (marks + [mark])[k..]) + after)
    {
      StillFresh(texts, marks, placeholders, mark, after, k);
      assert (placeholders + [placeholder])[..k] == placeholders[..k];
      if k == |placeholders| {
        assert placeholders[..k] + marks[k..] == placeholders;
        assert query == query[..i] + rest;
      }
    }
  }

  /** Cutting off one more marker does not change the text that a placeholder was checked against. */
  lemma StillFresh(texts: seq<string>, marks: seq<string>, placeholders: seq<string>, mark: string, after: string,
      k: nat)
    requires WellCut(texts, marks) && |placeholders| == |marks| && k <= |marks|
    ensures Weave(texts + [""], placeholders[..k] + (marks + [mark])[k..]) + after
            == Weave(texts, placeholders[..k] + marks[k..]) + (mark + after)
  {
    var subs := placeholders[..k] + marks[k..];
    assert placeholders[..k] + (marks + [mark])[k..] == subs + [mark];
    WeaveMark(texts, subs, mark);
    assert Weave(texts, subs) + mark + after == Weave(texts, subs) + (mark + after);
  }

  // -------- the statement

  /** A parameter of the query: its name, empty for ?, and the placeholder that stands for it. */
  datatype Param = Param(name: string, placeholder: string)

  datatype Extraction = Extracted | SyntaxError | StillSearching

  function NameOf(mark: string): string { if mark == "?" then "" else mark }

  function Placeholders(parameters: seq<Param>): seq<string> {
    seq(|parameters|, i requires 0 <= i < |parameters| => parameters[i].placeholder)
  }

  /** The parameters of a query, extracted with these placeholders. */
  ghost predicate ExtractedAs(q0: string, split: Split, query: string, parameters: seq<Param>) {
    && Scan(q0, NONE) == Some(split)
    && FreshRun(split, Placeholders(parameters))
    && query == Weave(split.texts, Placeholders(parameters))
    && forall k :: 0 <= k < |parameters| ==> parameters[k].name == NameOf(split.marks[k])
  }

  /** The parameters that were extracted so far. */
  ghost predicate Named(parameters: seq<Param>, marks: seq<string>, placeholders: seq<string>) {
    && |parameters| == |marks| && placeholders == Placeholders(parameters)
    && forall k :: 0 <= k < |parameters| ==> parameters[k].name == NameOf(marks[k])
  }

  lemma NamedNone()
    ensures Named([], [], [])
  {
  }

  lemma NamedNext(parameters: seq<Param>, marks: seq<string>, placeholders: seq<string>, mark: string,
      placeholder: string)
    requires Named(parameters, marks, placeholders)
    ensures Named(parameters + [Param(NameOf(mark), placeholder)], marks + [mark], placeholders + [placeholder])
  {
    assert Placeholders(parameters + [Param(NameOf(mark), placeholder)]) == placeholders + [placeholder];
  }

  lemma AllExtracted(
    q0: string, texts: seq<string>, marks: seq<string>, placeholders: seq<string>, query: string,
        parameters: seq<Param>)
    requires Scan(q0, NONE) == Some(Split(texts, marks)) && FreshRun(Split(texts, marks), placeholders)
    requires WellCut(texts, placeholders) && query == Weave(texts, placeholders)
             && Named(parameters, marks, placeholders)
    ensures ExtractedAs(q0, Split(texts, marks), query, parameters)
  {
    hide Scan, Weave, FreshRun;
  }

  /** {name:type} */
  function FinalText(name: string, typeName: string): string { "{" + name + ":" + typeName + "}" }

  /** getParamFinalName: the name given in the IPD record, or the name in the query, each without a leading
      '@', or a name made from the position. */
  function FinalName(i: nat, given: Option<string>, parsed: string): string {
    if given.Some? then Strip(given.value)
    else if parsed != "" then Strip(parsed)
    else "odbc_positional_" + Decimal(i + 1)
  }

  /** tryStripParamPrefix */
  function Strip(name: string): string {
    if name != "" && name[0] == '@' then name[1..] else name
  }

  /** What the markers become. */
  function Finals(parameters: seq<Param>, names: seq<Option<string>>, types: seq<string>): (finals: seq<string>)
    requires |names| == |types| == |parameters|
  {
    seq(|parameters|, k requires 0 <= k < |parameters| => FinalText(FinalName(k, names[k], parameters[k].name),
        types[k]))
  }

  class Statement {
    var query: string
    var parameters: seq<Param>

    constructor (query: string)
      ensures this.query == query
    {
      this.query, parameters := query, [];
    }

    /** generate_placeholder: candidates are drawn until one does not occur in the query. */
    method GeneratePlaceholder(supply: seq<string>, drawn: nat) returns (placeholder: Option<string>, next: nat)
      requires drawn <= |supply|
      ensures next <= |supply|
      ensures placeholder.Some? ==> placeholder.value in supply && !Occurs(placeholder.value, query)
      ensures placeholder.None? ==> forall i :: drawn <= i < |supply| ==> Occurs(supply[i], query)
    {
      next := drawn;
      while next < |supply|
        invariant drawn <= next <= |supply|
        invariant forall i :: drawn <= i < next ==> Occurs(supply[i], query)
      {
        var candidate := supply[next];
        next := next + 1;
        if Find(candidate, query).None? {
          return Some(candidate), next;
        }
      }
      return None, next;
    }

    /** The name that follows an '@' at `i`. */
    method ParseName(i: nat) returns (name: string)
      requires i < |query| && query[i] == '@'
      ensures name == MarkAt(query[i..], NONE)
    {
      var j := i + 1;
      while j < |query| && (query[j] == '_' || IsAlpha(query[j]) || (IsDigit(query[j]) && j > i + 1))
        invariant i < j <= |query|
        invariant NameEnd(query[i..], 1) == NameEnd(query[i..], j - i)
      {
        j := j + 1;
      }
      return query[i..j];
    }

    /** A step over text that is not a marker. */
    method Skip(i: nat, quoted: char) returns (next: nat, nextQuoted: char)
      requires i < |query|
      ensures next == i + Step(query[i..], quoted) && nextQuoted == NextQuote(query[i..], quoted)
    {
      var curr := query[i];
      next, nextQuoted := i + 1, quoted;
      if curr == '\\' {
        if next < |query| {
          next := next + 1;
        }
      } else if curr == '"' || curr == '\'' {
        if quoted != curr {
          nextQuoted := curr;
        } else if next < |query| && query[next] == curr {
          next := next + 1;
        } else {
          nextQuoted := NONE;
        }
      }
    }

    /** extractParametersinfo, with the candidates for placeholders drawn from `supply`. */
    method ExtractParameters(supply: seq<string>) returns (r: Extraction)
      requires forall s :: s in supply ==> IsPlaceholder(s)
      modifies this
      ensures r == SyntaxError ==> Scan(old(query), NONE) == None
      ensures r == Extracted ==>
                Scan(old(query), NONE).Some? && ExtractedAs(old(query), Scan(old(query), NONE).value, query, parameters)
    {
      hide Weave, Scan, NameEnd, Join, Occurs, IsPlaceholder, Progress, ExtractedAs, Step, NextQuote, Named,
           Placeholders, AppendLast;
      parameters := [];
      var quoted, i: nat, drawn: nat := NONE, 0, 0;
      ghost var q0, texts: seq<string>, marks: seq<string>, placeholders: seq<string> := query, [""], [], [];
      ProgressStart(q0);
      NamedNone();
      while i < |query|
        invariant drawn <= |supply| && i <= |query| && texts != []
        invariant Progress(q0, quoted, texts, marks, placeholders, query, i) && Named(parameters, marks, placeholders)
        decreases |query| - i, |supply| - drawn
      {
        var curr, rest := query[i], query[i..];
        var mark := "";
        if quoted == NONE && curr == '?' {
          mark := "?";
        } else if quoted == NONE && curr == '@' {
          mark := ParseName(i);
          if mark == "@" {
            ProgressStop(q0, quoted, texts, marks, placeholders, query, i);
            return SyntaxError;
          }
        }
        if mark != "" {
          var placeholder;
          placeholder, drawn := GeneratePlaceholder(supply, drawn);
          if placeholder.None? {
            return StillSearching;
          }
          ProgressMark(q0, quoted, texts, marks, placeholders, query, i, placeholder.value);
          NamedNext(parameters, marks, placeholders, mark, placeholder.value);
          texts, marks, placeholders := texts + [""], marks + [mark], placeholders + [placeholder.value];
          query := query[..i] + placeholder.value + query[i + |mark|..];
          parameters := parameters + [Param(NameOf(mark), placeholder.value)];
          i := i + |placeholder.value|;
        } else {
          ProgressSkip(q0, quoted, texts, marks, placeholders, query, i);
          texts := AppendLast(texts, rest[..Step(rest, quoted)]);
          i, quoted := Skip(i, quoted);
        }
      }
      ProgressEnd(q0, quoted, texts, marks, placeholders, query);
      AllExtracted(q0, texts, marks, placeholders, query, parameters);
      return Extracted;
    }

    /** buildFinalQuery: each placeholder is looked up and replaced; None when one is not found. When no
        name or type contains an '@', the result is the original query with its markers replaced. */
    method BuildFinalQuery(names: seq<Option<string>>, types: seq<string>, ghost q0: string, ghost split: Split)
      returns (r: Option<string>)
      requires |names| == |types| == |parameters|
      requires ExtractedAs(q0, split, query, parameters)
      ensures (forall final :: final in Finals(parameters, names, types) ==> '@' !in final) ==>
                r == Some(Weave(split.texts, Finals(parameters, names, types)))
    {
      hide Weave, Scan, FinalName, IsPlaceholder, Between, ReplaceFirst, Occurs;
      ghost var placeholders, finals := Placeholders(parameters), Finals(parameters, names, types);
      ghost var clean := forall final :: final in finals ==> '@' !in final;
      var prepared := query;
      BetweenEnds(split.texts, placeholders, finals);
      for i := 0 to |parameters|
        invariant |split.texts| == |placeholders| + 1
        invariant clean ==> prepared == Between(split.texts, placeholders, finals, i)
      {
        var final := FinalText(FinalName(i, names[i], parameters[i].name), types[i]);
        if clean {
          ReplaceNext(split, placeholders, finals, i);
        }
        var next := ReplaceFirst(parameters[i].placeholder, final, prepared);
        if next.None? {
          return None;
        }
        prepared := next.value;
      }
      return Some(prepared);
    }
  }

  /** std::string::find and std::string::replace */
  function ReplaceFirst(p: string, other: string, s: string): Option<string> {
    FoundInside(p, s);
    var pos := Find(p, s);
    if pos.None? then None else Some(s[..pos.value] + other + s[pos.value + |p|..])
  }

  /** The query when the first `i` placeholders have been replaced. */
  function Between(texts: seq<string>, placeholders: seq<string>, finals: seq<string>, i: nat): string
    requires |texts| == |placeholders| + 1 && |finals| == |placeholders| && i <= |placeholders|
  {
    Weave(texts, finals[..i] + placeholders[i..])
  }

  lemma BetweenEnds(texts: seq<string>, placeholders: seq<string>, finals: seq<string>)
    requires |texts| == |placeholders| + 1 && |finals| == |placeholders|
    ensures Between(texts, placeholders, finals, 0) == Weave(texts, placeholders)
    ensures Between(texts, placeholders, finals, |finals|) == Weave(texts, finals)
  {
    hide Weave;
    assert finals[..0] + placeholders[0..] == placeholders;
    assert finals[..|finals|] + placeholders[|placeholders|..] == finals;
  }

  lemma ProgressStart(q0: string)
    ensures Progress(q0, NONE, [""], [], [], q0, 0)
  {
    assert q0[0..] == q0;
    var tail := Scan(q0, NONE);
    if tail.Some? {
      var texts := tail.value.texts;
      assert "" + texts[0] == texts[0] && AppendLast([""], texts[0]) == [texts[0]];
      assert [texts[0]] + texts[1..] == texts && [] + tail.value.marks == tail.value.marks;
    }
  }

  lemma ProgressStop(
    q0: string, quoted: char, texts: seq<string>, marks: seq<string>, placeholders: seq<string>, query: string, i: nat)
    requires Progress(q0, quoted, texts, marks, placeholders, query, i) && i < |query|
             && MarkAt(query[i..], quoted) == "@"
    ensures Scan(q0, NONE) == None
  {
  }

  lemma ProgressEnd(
    q0: string, quoted: char, texts: seq<string>, marks: seq<string>, placeholders: seq<string>, query: string)
    requires Progress(q0, quoted, texts, marks, placeholders, query, |query|)
    ensures Scan(q0, NONE) == Some(Split(texts, marks)) && FreshRun(Split(texts, marks), placeholders)
    ensures query == Weave(texts, placeholders)
  {
    hide Weave, IsPlaceholder;
    assert query[..|query|] == query && query[|query|..] == "";
    assert texts[|texts| - 1] + "" == texts[|texts| - 1] && AppendLast(texts, "") == texts;
    assert [""][1..] == [] && marks + [] == marks && texts + [] == texts;
    forall k | 0 <= k < |placeholders|
      ensures !Occurs(placeholders[k], Weave(texts, placeholders[..k] + marks[k..]))
    {
      assert Weave(texts, placeholders[..k] + marks[k..]) + "" == Weave(texts, placeholders[..k] + marks[k..]);
    }
  }

  lemma Exchange(texts: seq<string>, subs: seq<string>, i: nat, other: string)
    requires WellCut(texts, subs) && i < |subs|
    ensures Weave(texts, subs[i := other]) == Front(texts, subs, i) + other + Back(texts, subs, i)
    ensures var w, at := Weave(texts, subs), |Front(texts, subs, i)|;
            at + |subs[i]| <= |w| && w[..at] == Front(texts, subs, i) && w[at + |subs[i]|..] == Back(texts, subs, i)
  {
    hide Weave;
    WeaveSplit(texts, subs, i);
    WeaveSplit(texts, subs[i := other], i);
    assert subs[i := other][..i] == subs[..i] && subs[i := other][i + 1..] == subs[i + 1..];
  }

  lemma FoundInside(p: string, s: string)
    ensures Find(p, s).Some? ==> Find(p, s).value + |p| <= |s|
  {
  }

  /** One round of buildFinalQuery. */
  lemma ReplaceNext(split: Split, placeholders: seq<string>, finals: seq<string>, i: nat)
    requires FreshRun(split, placeholders) && i < |placeholders| == |finals|
    requires forall k :: 0 <= k <= i ==> IsFinal(finals[k])
    ensures ReplaceFirst(placeholders[i], finals[i], Between(split.texts, placeholders, finals, i))
            == Some(Between(split.texts, placeholders, finals, i + 1))
  {
    hide Weave, Find, Occurs, IsPlaceholder, At;
    var subs := finals[..i] + placeholders[i..];
    FoundAtItsPlace(split, placeholders, finals, i);
    Exchange(split.texts, subs, i, finals[i]);
    assert subs[i := finals[i]] == finals[..i + 1] + placeholders[i + 1..];
  }

  // -------- quoted text

  predicate IsQuote(c: char) { c == '\'' || c == '"' }

  /** Where SQL is in a text: behind a quote that is still open, or outside, and whether a backslash inside the quotes
      takes the next character. */
  datatype SqlState = SqlState(quoted: char, escaped: bool)

  function Unescaping(quoted: char): SqlState { SqlState(quoted, false) }

  /** SQL reads one character. Outside quotes a backslash is nothing special, and a doubled quote closes and opens. */
  function SqlNext(c: char, st: SqlState): SqlState {
    if st.quoted == NONE then Unescaping(if IsQuote(c) then c else NONE)
    else if st.escaped then Unescaping(st.quoted)
    else if c == '\\' then SqlState(st.quoted, true)
    else Unescaping(if c == st.quoted then NONE else st.quoted)
  }

  predicate SqlMark(c: char, st: SqlState) { st.quoted == NONE && (c == '?' || c == '@') }

  /** The cut that SQL quoting asks for, character by character. */
  function SqlScan(q: string, st: SqlState): (r: Option<Split>)
    ensures r.Some? ==> r.value.texts != []
    decreases |q|
  {
    if q == "" then Some(Split([""], []))
    else if SqlMark(q[0], st) then
      var mark := MarkAt(q, NONE);
      if mark == "@" then None
      else
        match SqlScan(q[|mark|..], st)
        case None => None
        case Some(rest) => Some(Split([""] + rest.texts, [mark] + rest.marks))
    else
      match SqlScan(q[1..], SqlNext(q[0], st))
      case None => None
      case Some(rest) => Some(Prepend(q[..1], rest))
  }

  /** How many characters one step of the scan takes, a marker included. */
  function Stride(q: string, quoted: char): (n: nat)
    requires q != ""
    ensures 1 <= n <= |q|
  {
    if MarkAt(q, quoted) != "" then |MarkAt(q, quoted)| else Step(q, quoted)
  }

  /** No quoted text contains the other kind of quote, except behind a backslash, and outside quotes no backslash
      stands in front of a quote or a marker. */
  predicate Clean(q: string, quoted: char)
    decreases |q|
  {
    q != "" ==>
      && (quoted != NONE && IsQuote(q[0]) ==> q[0] == quoted)
      && (quoted == NONE && q[0] == '\\' && |q| > 1 ==> !IsQuote(q[1]) && q[1] != '?' && q[1] != '@')
      && Clean(q[Stride(q, quoted)..], NextQuote(q, quoted))
  }

  /** The step at the head of the text is one for SQL, too: the same marker, or none, and the same quotes behind it. */
  predicate SameStep(q: string, quoted: char)
    requires q != ""
  {
    var st := Unescaping(quoted);
    && (SqlMark(q[0], st) <==> MarkAt(q, quoted) != "")
    && (MarkAt(q, quoted) == "" ==>
          var next := SqlNext(q[0], st);
          if Step(q, quoted) == 1 then next.quoted == NextQuote(q, quoted) && (|q| > 1 ==> !next.escaped)
          else !SqlMark(q[1], next) && SqlNext(q[1], next) == Unescaping(NextQuote(q, quoted)))
  }

  predicate SameSteps(q: string, quoted: char)
    decreases |q|
  {
    q != "" ==> SameStep(q, quoted) && SameSteps(q[Stride(q, quoted)..], NextQuote(q, quoted))
  }

  lemma CleanStep(q: string, quoted: char)
    requires q != "" && (quoted == NONE || IsQuote(quoted))
    ensures SameStep(q, quoted) <==>
              && (quoted != NONE && IsQuote(q[0]) ==> q[0] == quoted)
              && (quoted == NONE && q[0] == '\\' && |q| > 1 ==> !IsQuote(q[1]) && q[1] != '?' && q[1] != '@')
    ensures MarkAt(q, quoted) != "" ==> NextQuote(q, quoted) == quoted == NONE
  {
    hide NameEnd;
  }

  /** The scan takes the same steps as SQL exactly when no quoted text contains the other kind of quote and no backslash
      outside quotes stands in front of a quote or a marker, and then it finds exactly the markers that SQL leaves. */
  lemma {:induction false} ScanFollowsSql(q: string, quoted: char)
    requires quoted == NONE || IsQuote(quoted)
    ensures SameSteps(q, quoted) <==> Clean(q, quoted)
    ensures Clean(q, quoted) ==> Scan(q, quoted) == SqlScan(q, Unescaping(quoted))
    decreases |q|
  {
    hide Weave, NameEnd, MarkAt, Step, NextQuote, SqlNext, SqlMark, SameStep, Scan, SqlScan;
    if q == "" {
      ScanEnds(quoted);
    } else {
      CleanStep(q, quoted);
      QuoteStays(q, quoted);
      ScanFollowsSql(q[Stride(q, quoted)..], NextQuote(q, quoted));
      if Clean(q, quoted) {
        SameRound(q, quoted);
      }
    }
  }

  lemma QuoteStays(q: string, quoted: char)
    requires q != "" && (quoted == NONE || IsQuote(quoted))
    ensures NextQuote(q, quoted) == NONE || IsQuote(NextQuote(q, quoted))
  {
  }

  lemma SameRound(q: string, quoted: char)
    requires q != "" && SameStep(q, quoted) && (MarkAt(q, quoted) != "" ==> NextQuote(q, quoted) == quoted == NONE)
    requires var rest := q[Stride(q, quoted)..];
             Scan(rest, NextQuote(q, quoted)) == SqlScan(rest, Unescaping(NextQuote(q, quoted)))
    ensures Scan(q, quoted) == SqlScan(q, Unescaping(quoted))
  {
    hide Weave, NameEnd, SqlNext, SqlMark, NextQuote;
    if MarkAt(q, quoted) == "" {
      if Step(q, quoted) == 2 {
        assert q[1..][1..] == q[2..] && q[1..][0] == q[1];
        var more := SqlScan(q[2..], Unescaping(NextQuote(q, quoted)));
        if more.Some? {
          TwoSteps(q, more.value);
        }
      } else if |q| == 1 {
        assert q[1..] == "";
      }
    }
  }

  lemma TwoSteps(q: string, rest: Split)
    requires |q| > 1 && rest.texts != []
    ensures Prepend(q[..1], Prepend(q[1..][..1], rest)) == Prepend(q[..2], rest)
  {
    assert q[..1] + (q[1..][..1] + rest.texts[0]) == q[..2] + rest.texts[0];
  }

  /** A character that is neither a marker nor the first of a pair is one step of both scans. */
  predicate Single(c: char, rest: string, quoted: char) {
    MarkAt([c] + rest, quoted) == "" && Step([c] + rest, quoted) == 1
  }

  lemma ScanOver(c: char, rest: string, quoted: char, first: string, more: seq<string>, marks: seq<string>)
    requires Single(c, rest, quoted)
    requires Scan(rest, NextQuote([c] + rest, quoted)) == Some(Split([first] + more, marks))
    ensures Scan([c] + rest, quoted) == Some(Split([[c] + first] + more, marks))
  {
    hide Weave, MarkAt, Step, NextQuote;
    assert ([c] + rest)[1..] == rest && ([c] + rest)[..1] == [c];
  }

  lemma SqlOver(c: char, rest: string, st: SqlState, first: string, more: seq<string>, marks: seq<string>)
    requires !SqlMark(c, st) && SqlScan(rest, SqlNext(c, st)) == Some(Split([first] + more, marks))
    ensures SqlScan([c] + rest, st) == Some(Split([[c] + first] + more, marks))
  {
    hide MarkAt, SqlNext, SqlMark;
    assert ([c] + rest)[1..] == rest && ([c] + rest)[..1] == [c];
  }

  lemma ScanEnds(quoted: char)
    ensures Scan("", quoted) == Some(Split([""] + [], []))
    ensures forall st :: SqlScan("", st) == Some(Split([""] + [], []))
  {
    assert [""] + [] == [""];
  }

  /** A marker at the end of the text. */
  lemma MarkAtEnd()
    ensures SqlScan("?", Unescaping(NONE)) == Some(Split([""] + [""], ["?"]))
  {
    assert "?"[1..] == "" && ["?"] + [] == ["?"];
    ScanEnds(NONE);
  }

  /** A double quote inside single quotes makes the scan miss the marker that follows. */
  lemma ForeignQuoteHidesMarker()
    ensures Scan(['\''] + (['"'] + (['\''] + "?")), NONE) == Some(Split([['\''] + (['"'] + (['\''] + "?"))], []))
    ensures SqlScan(['\''] + (['"'] + (['\''] + "?")), Unescaping(NONE))
            == Some(Split([['\''] + (['"'] + ['\'']), ""], ["?"]))
  {
    hide Scan, SqlScan;
    ScanEnds('\'');
    assert "?" == ['?'] + "" && ['\''] + "" == ['\''];
    ScanOver('?', "", '\'', "", [], []);
    ScanOver('\'', "?", '"', "?", [], []);
    ScanOver('"', ['\''] + "?", '\'', ['\''] + "?", [], []);
    ScanOver('\'', ['"'] + (['\''] + "?"), NONE, ['"'] + (['\''] + "?"), [], []);
    MarkAtEnd();
    SqlOver('\'', "?", Unescaping('\''), "", [""], ["?"]);
    SqlOver('"', ['\''] + "?", Unescaping('\''), ['\''], [""], ["?"]);
    SqlOver('\'', ['"'] + (['\''] + "?"), Unescaping(NONE), ['"'] + ['\''], [""], ["?"]);
    var all := ['\''] + (['"'] + (['\''] + "?"));
    assert [all] + [] == [all];
    var quotes := ['\''] + (['"'] + ['\'']);
    assert [quotes] + [""] == [quotes, ""];
  }

  /** A backslash outside quotes hides the marker behind it from the scan, and not from SQL. */
  lemma BackslashHidesMarker()
    ensures Scan("\\?", NONE) == Some(Split(["\\?"], []))
    ensures SqlScan("\\?", Unescaping(NONE)) == Some(Split(["\\", ""], ["?"]))
  {
    hide Weave;
    ScanEnds(NONE);
    var q := "\\?";
    assert Step(q, NONE) == 2 && q[2..] == "" && q[..2] == q;
    assert q + "" == q && [q] + [""][1..] == [q];
    MarkAtEnd();
    assert ['\\'] + "?" == q && ['\\'] + "" == "\\";
    SqlOver('\\', "?", Unescaping(NONE), "", [""], ["?"]);
    assert ["\\"] + [""] == ["\\", ""];
  }

  // -------- the names of markers

  predicate IsNameChar(q: string, k: nat)
    requires k < |q|
  {
    q[k] == '_' || IsAlpha(q[k]) || (IsDigit(q[k]) && k > 1)
  }

  /** A name behind '@' is as long as it can be: letters, digits and underscores, with no digit in front. */
  lemma {:induction false} NameIsMaximal(q: string, j: nat)
    requires 1 <= j <= |q|
    ensures var end := NameEnd(q, j);
            && (forall k :: j <= k < end ==> IsNameChar(q, k)) && (end < |q| ==> !IsNameChar(q, end))
    decreases |q| - j
  {
    if j < |q| && IsNameChar(q, j) {
      NameIsMaximal(q, j + 1);
    }
  }

  /** What is a marker: outside quotes '?', or '@' with the longest name behind it. */
  lemma MarkExactly(q: string, quoted: char)
    requires q != ""
    ensures var mark := MarkAt(q, quoted);
            if quoted == NONE && q[0] == '?' then mark == "?"
            else if quoted == NONE && q[0] == '@' then
              && 1 <= |mark| <= |q| && mark == q[..|mark|]
              && (forall k :: 1 <= k < |mark| ==> IsNameChar(q, k)) && (|mark| < |q| ==> !IsNameChar(q, |mark|))
            else mark == ""
  {
    NameIsMaximal(q, 1);
  }
}
