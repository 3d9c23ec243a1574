/** Texts that the lexer does not know as tokens, and words that are not what they look like. */
module TokenErrors {
  import opened Text
  import opened Lexing
  import opened EscapeProperties
  import opened EscapeItems

  // -------- tokens that are invalid

  lemma {:induction false} NeverClosed(s: string, i: nat, slash: bool)
    requires i <= |s| && forall k :: i <= k < |s| ==> s[k] != '\''
    ensures StringEnd(s, i, slash) == None
    decreases |s| - i
  {
    if i < |s| {
      NeverClosed(s, i + 1, s[i] == '\\' && !slash);
    }
  }

  /** A quote that no other quote follows. */
  lemma OpenQuote(rest: string)
    requires '\'' !in rest
    ensures Here("'" + rest) == Lexed(Token(INVALID, "'" + rest), |rest| + 1)
  {
    hide StringEnd, Name, Number, OtherEnd;
    var s := "'" + rest;
    NeverClosed(s, 1, false);
  }

  lemma {:induction false} NoBacktick(s: string, i: nat)
    requires i <= |s| && forall k :: i <= k < |s| ==> s[k] != '`'
    ensures BacktickEnd(s, i) == None
    decreases |s| - i
  {
    if i < |s| {
      NoBacktick(s, i + 1);
    }
  }

  /** A backtick that no other one follows. */
  lemma OpenBacktick(rest: string)
    requires '`' !in rest
    ensures Here("`" + rest) == Lexed(Token(INVALID, "`" + rest), |rest| + 1)
  {
    hide BacktickEnd, NameTail;
    var s := "`" + rest;
    NoBacktick(s, 1);
    HereName(s);
  }

  lemma {:induction false} NumberBreaks(t: string, after: string, i: nat, dot: bool, minus: bool)
    requires NumeralFrom(t, i, dot) && after != ""
    requires if after[0] == '.' then dot || exists k :: i <= k < |t| && t[k] == '.' else after[0] == '-' && minus
    ensures i <= |t| && Number(t + after, i, dot, minus) == Lexed(Token(INVALID, t), |t|)
    decreases |t| - i
  {
    var s := t + after;
    assert s[..|t|] == t;
    if i < |t| {
      assert s[i] == t[i];
      NumberBreaks(t, after, i + 1, dot || t[i] == '.', minus);
    }
  }

  /** A number that a second point or a second minus follows. */
  lemma BrokenNumber(t: string, after: string)
    requires IsNumeral(t) && after != ""
    requires if after[0] == '.' then '.' in t else after[0] == '-' && t[0] == '-'
    ensures Here(t + after) == Lexed(Token(INVALID, t), |t|)
  {
    hide Number, NumeralFrom, Here;
    var s := t + after;
    assert s[0] == t[0];
    HereNumber(s);
    NumberBreaks(t, after, 1, t[0] == '.', t[0] == '-');
  }

  lemma {:induction false} NameBreaks(t: string, after: string, i: nat, plain: bool)
    requires i <= |t| && IsNameFrom(t, i) && after != "" && after[0] == '.'
    requires |after| > 1 && after[1] != '`' && !IsIdentStart(after[1])
    ensures Name(t + after, i, plain) == Lexed(Token(INVALID, t + "."), |t| + 1)
    decreases |t| - i
  {
    hide LookupIdent, Upper, PartEnd, NameTail, Name, EndsQuoted;
    var s, e := t + after, PartEnd(t, i).value;
    assert s[..|t| + 1] == t + ".";
    BreakingPart(t, after, i);
    NamePart(s, i, plain);
    assert s[e] == '.';
    NamePoint(s, e, plain && s[i] != '`');
    if e < |t| {
      NameBreaks(t, after, e + 1, false);
    } else {
      NoPart(s, e + 1);
    }
  }

  lemma BreakingPart(t: string, after: string, i: nat)
    requires i <= |t| && PartEnd(t, i).Some? && after != "" && after[0] == '.'
    ensures PartEnd(t + after, i) == PartEnd(t, i) && (t + after)[i] == t[i]
  {
    hide WordEnd, BacktickEnd;
    if t[i] == '`' {
      BacktickInside(t, after, i + 1);
    } else {
      WordEndInside(t, after, i + 1);
    }
  }

  lemma NoPart(s: string, i: nat)
    requires i < |s| && s[i] != '`' && !IsIdentStart(s[i])
    ensures Name(s, i, false) == Lexed(Token(INVALID, s[..i]), i)
  {
  }

  /** A name with a point behind it that no other part follows. */
  lemma BrokenName(t: string, c: char, rest: string)
    requires IsNameFrom(t, 0) && c != '`' && !IsIdentStart(c)
    ensures Here(t + ("." + ([c] + rest))) == Lexed(Token(INVALID, t + "."), |t| + 1)
  {
    hide Name, Here, IsNameFrom;
    var s := t + ("." + ([c] + rest));
    NameHead(t);
    assert s[0] == t[0];
    HereName(s);
    NameBreaks(t, "." + ([c] + rest), 0, true);
  }

  lemma NameHead(t: string)
    requires IsNameFrom(t, 0)
    ensures t != "" && (IsIdentStart(t[0]) || t[0] == '`')
  {
  }

  // -------- words

  lemma LengthNamesDiffer(name: string)
    requires IsLengthName(name)
    ensures |name| >= 2 && name != "FN" && name != "TS" && name != "FRAC_SECOND" && name != "DAY"
    ensures |name| >= 3 ==> name[0] != 'S' || name[1] != 'Q' || name[2] != 'L'
  {
  }

  lemma PartNamesDiffer(name: string)
    requires IsPartName(name)
    ensures |name| >= 2 && name != "FN" && name != "TS" && name != "FRAC_SECOND" && name != "DAY"
    ensures |name| >= 3 ==> name[0] != 'S' || name[1] != 'Q' || name[2] != 'L'
  {
  }

  lemma CaseNamesDiffer(name: string)
    requires IsCaseName(name)
    ensures |name| >= 2 && name != "FN" && name != "TS" && name != "FRAC_SECOND" && name != "DAY"
    ensures |name| >= 3 ==> name[0] != 'S' || name[1] != 'Q' || name[2] != 'L'
  {
  }

  lemma ArcNamesDiffer(name: string)
    requires IsArcName(name)
    ensures |name| >= 2 && name != "FN" && name != "TS" && name != "FRAC_SECOND" && name != "DAY"
    ensures |name| >= 3 ==> name[0] != 'S' || name[1] != 'Q' || name[2] != 'L'
  {
  }

  lemma CosineNamesDiffer(name: string)
    requires IsCosineName(name)
    ensures |name| >= 2 && name != "FN" && name != "TS" && name != "FRAC_SECOND" && name != "DAY"
    ensures |name| >= 3 ==> name[0] != 'S' || name[1] != 'Q' || name[2] != 'L'
  {
  }

  lemma PowerNamesDiffer(name: string)
    requires IsPowerName(name)
    ensures |name| >= 2 && name != "FN" && name != "TS" && name != "FRAC_SECOND" && name != "DAY"
    ensures |name| >= 3 ==> name[0] != 'S' || name[1] != 'Q' || name[2] != 'L'
  {
  }

  lemma NowNamesDiffer(name: string)
    requires IsNowName(name)
    ensures |name| >= 2 && name != "FN" && name != "TS" && name != "FRAC_SECOND" && name != "DAY"
    ensures |name| >= 3 ==> name[0] != 'S' || name[1] != 'Q' || name[2] != 'L'
  {
  }

  lemma ClockNamesDiffer(name: string)
    requires IsClockName(name)
    ensures |name| >= 2 && name != "FN" && name != "TS" && name != "FRAC_SECOND" && name != "DAY"
    ensures |name| >= 3 ==> name[0] != 'S' || name[1] != 'Q' || name[2] != 'L'
  {
  }

  lemma CalendarNamesDiffer(name: string)
    requires IsCalendarName(name)
    ensures |name| >= 2 && name != "FN" && name != "TS" && name != "FRAC_SECOND" && name != "DAY"
    ensures |name| >= 3 ==> name[0] != 'S' || name[1] != 'Q' || name[2] != 'L'
  {
  }

  lemma FunctionNamesDiffer(name: string)
    requires IsFunction(name)
    ensures |name| >= 2 && name != "FN" && name != "TS" && name != "FRAC_SECOND" && name != "DAY"
    ensures |name| >= 3 ==> name[0] != 'S' || name[1] != 'Q' || name[2] != 'L'
  {
    hide IsLengthName, IsPartName, IsCaseName, IsArcName, IsCosineName, IsPowerName, IsNowName, IsClockName,
         IsCalendarName;
    if IsLengthName(name) {
      LengthNamesDiffer(name);
    } else if IsPartName(name) {
      PartNamesDiffer(name);
    } else if IsCaseName(name) {
      CaseNamesDiffer(name);
    } else if IsArcName(name) {
      ArcNamesDiffer(name);
    } else if IsCosineName(name) {
      CosineNamesDiffer(name);
    } else if IsPowerName(name) {
      PowerNamesDiffer(name);
    } else if IsNowName(name) {
      NowNamesDiffer(name);
    } else if IsClockName(name) {
      ClockNamesDiffer(name);
    } else {
      CalendarNamesDiffer(name);
    }
  }

  /** A word for a unit of time that is also the name of a function is taken for the function: only with its prefix it
      is a unit. So TIMESTAMPADD knows FRAC_SECOND and DAY without the prefix, and no other. */
  lemma UnitsNeedPrefix(unit: string)
    requires unit in TimeUnits()
    ensures LookupIdent("SQL_TSI_" + unit) == TimeUnit(unit)
    ensures LookupIdent(unit) == TimeUnit(unit) <==> unit == "FRAC_SECOND" || unit == "DAY"
  {
    var name := "SQL_TSI_" + unit;
    assert name[8..] == unit && name[0] == 'S' && name[1] == 'Q' && name[2] == 'L' && |name| > 8;
    if IsFunction(name) {
      FunctionNamesDiffer(name);
    }
    UnitsAreFunctions(unit);
    hide IsFunction;
    assert name != "FN" && name != "D" && name != "T" && name != "TS";
    if unit == "FRAC_SECOND" || unit == "DAY" {
      assert unit[0] != 'S';
    }
  }

  lemma UnitsAreFunctions(unit: string)
    requires unit in TimeUnits()
    ensures IsFunction(unit) <==> unit != "FRAC_SECOND" && unit != "DAY"
  {
    if IsFunction(unit) {
      FunctionNamesDiffer(unit);
    }
  }
}
