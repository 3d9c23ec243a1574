/** Decimal values: as text, as a 64-bit integer with a scale, and as the 16 bytes of SQL_NUMERIC_STRUCT. */
module Decimals {
  import opened Text

  /** DataSourceType<Decimal>: the digits as one integer, and how many of them are behind the point. */
  datatype Decimal = Decimal(value: nat, sign: int, precision: int, scale: int)

  /** A conversion to std::int16_t, and one to signed char. */
  function Int16(n: int): int { (n + 0x8000) % 0x1_0000 - 0x8000 }

  function Int8(n: int): int { (n + 0x80) % 0x100 - 0x80 }

  // -------- text

  predicate IsSign(c: char) { c == '+' || c == '-' }

  /** The text behind its sign. */
  function Unsigned(s: string): string { if s != "" && IsSign(s[0]) then s[1..] else s }

  predicate IsNumberChar(c: char) { IsDigit(c) || c == '.' }

  /** Digits with at most one point among them, in front of them or behind them. */
  predicate IsDigitText(u: string) {
    && (forall i :: 0 <= i < |u| ==> IsNumberChar(u[i]))
    && (forall i, j :: 0 <= i < j < |u| ==> u[i] != '.' || u[j] != '.')
  }

  function Last(s: string): char
    requires s != ""
  {
    s[|s| - 1]
  }

  function Front(s: string): string
    requires s != ""
  {
    s[..|s| - 1]
  }

  /** The digits of a text. */
  function Digits(u: string): (d: string)
    ensures AllDigits(d)
  {
    if u == "" then "" else Digits(Front(u)) + (if IsDigit(Last(u)) then [Last(u)] else "")
  }

  /** How many digits are behind the point. */
  function Fraction(u: string): nat {
    if u == "" then 0 else Fraction(Front(u)) + (if IsDigit(Last(u)) && '.' in Front(u) then 1 else 0)
  }

  function Value(s: string): nat { DecimalValue(Digits(Unsigned(s))) }

  /** The meaning of a text, or None for the exceptions. */
  function Read(s: string): Option<Decimal> {
    var u := Unsigned(s);
    if IsDigitText(u) && Value(s) <= U64_MAX then
      var sign := if s != "" && s[0] == '-' && Value(s) != 0 then 0 else 1;
      Some(Decimal(Value(s), sign, Int16(|Digits(u)|), Int16(Fraction(u))))
    else None
  }

  lemma DigitsGrow(u: string, i: nat)
    requires i < |u|
    ensures Digits(u[..i + 1]) == if IsDigit(u[i]) then Digits(u[..i]) + [u[i]] else Digits(u[..i])
    ensures Fraction(u[..i + 1]) == Fraction(u[..i]) + (if IsDigit(u[i]) && '.' in u[..i] then 1 else 0)
  {
    assert Front(u[..i + 1]) == u[..i];
    assert Digits(u[..i]) + "" == Digits(u[..i]);
  }

  lemma AppendDigit(d: string, c: char)
    requires AllDigits(d) && IsDigit(c)
    ensures DecimalValue(d + [c]) == DecimalValue(d) * 10 + DigitValue(c)
  {
    assert (d + [c])[..|d|] == d;
  }

  /** More digits never make the value smaller. */
  lemma {:induction false} ValueGrows(u: string, i: nat)
    requires i <= |u|
    ensures DecimalValue(Digits(u[..i])) <= DecimalValue(Digits(u))
    decreases |u| - i
  {
    if i == |u| {
      assert u[..i] == u;
    } else {
      DigitsGrow(u, i);
      if IsDigit(u[i]) {
        AppendDigit(Digits(u[..i]), u[i]);
      }
      ValueGrows(u, i + 1);
    }
  }

  /** One character of the text behind the sign: the digits, their value, the digits behind the point. */
  lemma ReadOne(u: string, k: nat)
    requires k < |u| && IsDigitText(u[..k])
    ensures IsDigit(u[k]) ==>
              && IsDigitText(u[..k + 1])
              && DecimalValue(Digits(u[..k + 1])) == DecimalValue(Digits(u[..k])) * 10 + DigitValue(u[k])
    ensures u[k] == '.' ==> (IsDigitText(u[..k + 1]) <==> '.' !in u[..k])
    ensures u[k] == '.' && '.' in u[..k] ==> !IsDigitText(u)
    ensures !IsNumberChar(u[k]) ==> !IsDigitText(u)
  {
    hide Digits, DecimalValue;
    DigitsGrow(u, k);
    assert forall j :: 0 <= j < k ==> u[..k + 1][j] == u[..k][j] == u[j];
    assert u[..k + 1][k] == u[k];
    if IsDigit(u[k]) {
      AppendDigit(Digits(u[..k]), u[k]);
    }
  }

  lemma PrefixTooBig(u: string, k: nat)
    requires k <= |u| && DecimalValue(Digits(u[..k])) > U64_MAX
    ensures DecimalValue(Digits(u)) > U64_MAX
  {
    ValueGrows(u, k);
  }

  /** from_value<std::string>::to_value<Decimal> */
  method ReadText(src: string) returns (r: Option<Decimal>)
    ensures r == Read(src)
  {
    hide Digits, Fraction, DecimalValue, IsDigitText;
    var leftN, rightN := 0, 0;
    var signMet, dotMet, digMet := false, false, false;
    var value, sign := 0, 1;
    ghost var u := Unsigned(src);
    ghost var off := |src| - |u|;
    assert u[..0] == "";
    Nothing();
    for i := 0 to |src|
      invariant i == 0 <==> !signMet && !dotMet && !digMet
      invariant sign == if i > 0 && src[0] == '-' then 0 else 1
      invariant var k := if i < off then 0 else i - off;
                && value == DecimalValue(Digits(u[..k])) <= U64_MAX
                && leftN + rightN == |Digits(u[..k])| && rightN == Fraction(u[..k])
                && (dotMet <==> '.' in u[..k])
                && IsDigitText(u[..k])
    {
      var ch := src[i];
      if i >= off {
        assert u[i - off] == ch;
        ReadOne(u, i - off);
        DigitsGrow(u, i - off);
      }
      if IsSign(ch) {
        if signMet || dotMet || digMet {
          return None;
        }
        if ch == '-' {
          sign := 0;
        }
        signMet := true;
      } else if ch == '.' {
        if dotMet {
          return None;
        }
        dotMet := true;
      } else if IsDigit(ch) {
        var digit := DigitValue(ch);
        if value != 0 {
          if U64_MAX / 10 < value {
            PrefixTooBig(u, i - off + 1);
            return None;
          }
          value := value * 10;
        }
        if digit != 0 {
          if U64_MAX - digit < value {
            PrefixTooBig(u, i - off + 1);
            return None;
          }
          value := value + digit;
        }
        if dotMet {
          rightN := rightN + 1;
        } else {
          leftN := leftN + 1;
        }
        digMet := true;
      } else {
        return None;
      }
    }
    assert u[..|u|] == u;
    if value == 0 {
      sign := 1;
    }
    return Some(Decimal(value, sign, Int16(leftN + rightN), Int16(rightN)));
  }

  lemma Nothing()
    ensures Digits("") == "" && Fraction("") == 0 && DecimalValue("") == 0 && IsDigitText("")
  {
  }

  // -------- printing

  /** The digits, the last ones first, as the loop pushes them: `size` characters are there already. */
  function Spelled(value: nat, scale: nat, size: nat): string
    decreases value + (if size < scale then scale - size else 0)
  {
    if value == 0 && size >= scale then ""
    else
      var point := if size + 1 == scale then "." else "";
      Spelled(value / 10, scale, size + 1 + |point|) + point + [DigitChar(value % 10)]
  }

  function Printed(value: nat, sign: int, scale: nat): string {
    var s := Spelled(value, scale, 0);
    if s == "" then "0" else (if sign == 0 && value != 0 then "-" else "") + s
  }

  function Reversed(s: string): (r: string)
    ensures |r| == |s| && forall i :: 0 <= i < |s| ==> r[i] == s[|s| - 1 - i]
  {
    if s == "" then "" else Reversed(s[1..]) + [s[0]]
  }

  lemma ReversedPush(s: string, c: char)
    ensures Reversed(s + [c]) == [c] + Reversed(s)
  {
  }

  lemma SpellOne(value: nat, scale: nat, size: nat)
    requires value != 0 || size < scale
    ensures var point := if size + 1 == scale then "." else "";
            Spelled(value, scale, size) == Spelled(value / 10, scale, size + 1 + |point|) + point
                + [DigitChar(value % 10)]
  {
  }

  lemma SpellStep(value: nat, scale: nat, dest: string)
    requires value != 0 || |dest| < scale
    ensures var next := Pushed(dest, DigitChar(value % 10), scale);
            Spelled(value / 10, scale, |next|) + Reversed(next) == Spelled(value, scale, |dest|) + Reversed(dest)
  {
    hide Reversed, Spelled, DigitChar;
    var digit := DigitChar(value % 10);
    SpellOne(value, scale, |dest|);
    PushedReversed(dest, digit, scale);
    var point := if |dest| + 1 == scale then "." else "";
    JoinThree(Spelled(value / 10, scale, |dest| + 1 + |point|), point, [digit], Reversed(dest));
  }

  /** The text with a digit, and with the point when its place is behind that digit. */
  function Pushed(dest: string, digit: char, scale: nat): string {
    if |dest| + 1 == scale then dest + [digit] + ['.'] else dest + [digit]
  }

  lemma PushedReversed(dest: string, digit: char, scale: nat)
    ensures var point := if |dest| + 1 == scale then "." else "";
            Reversed(Pushed(dest, digit, scale)) == point + [digit] + Reversed(dest)
  {
    hide Reversed;
    ReversedPush(dest, digit);
    if |dest| + 1 == scale {
      ReversedPush(dest + [digit], '.');
      JoinTwo(".", [digit], Reversed(dest));
    } else {
      JoinTwo("", [digit], Reversed(dest));
    }
  }

  lemma JoinTwo(a: string, b: string, c: string)
    ensures a + b + c == a + (b + c) && (a == "" ==> a + b == b)
  {
  }

  lemma JoinThree(a: string, b: string, c: string, d: string)
    ensures a + b + c + d == a + (b + c + d)
  {
  }

  lemma NothingReversed()
    ensures Reversed("") == "" && Reversed("0") == "0"
  {
  }

  lemma SpelledAll(scale: nat, size: nat)
    requires size >= scale
    ensures Spelled(0, scale, size) == ""
  {
  }

  // std::string::max_size()
  const MAX_SIZE: nat := 0x7FFF_FFFF_FFFF_FFFF

  /** The scale, compared with a size: a negative one is converted to a very large number. */
  function Width(scale: int): (w: nat)
    requires -0x8000 <= scale < 0x8000
    ensures if scale < 0 then w > MAX_SIZE else w == scale
  {
    if scale < 0 then scale + U64_MAX + 1 else scale
  }

  /** from_value<Decimal>::to_value<std::string>, into an empty string. For a negative scale the loop wants more zeros
      than a string can hold; None stands for the exception. */
  method PrintText(value: nat, sign: int, scale: int) returns (text: Option<string>)
    requires value <= U64_MAX && -0x8000 <= scale < 0x8000
    ensures text == if scale < 0 then None else Some(Printed(value, sign, scale))
  {
    hide Spelled, Reversed;
    var dest := "";
    var rest: nat := value;
    NothingReversed();
    while rest != 0 || |dest| < Width(scale)
      invariant Spelled(rest, Width(scale), |dest|) + Reversed(dest) == Spelled(value, Width(scale), 0)
      invariant |dest| <= MAX_SIZE
      invariant scale >= 0 ==> (dest == "" && rest == value) || |dest| + rest <= U64_MAX / 10 + 0x8003
      decreases rest + (if |dest| < Width(scale) then Width(scale) - |dest| else 0)
    {
      if |dest| == MAX_SIZE {
        return None;
      }
      SpellStep(rest, Width(scale), dest);
      dest := dest + [DigitChar(rest % 10)];
      rest := rest / 10;
      if |dest| == Width(scale) {
        dest := dest + ['.'];
      }
    }
    assert scale >= 0 && Width(scale) == scale;
    SpelledAll(scale, |dest|);
    JoinTwo("", Reversed(dest), "");
    if dest == "" {
      dest := "0";
    } else if sign == 0 && value != 0 {
      ReversedPush(dest, '-');
      dest := dest + ['-'];
    }
    return Some(Reversed(dest));
  }

  lemma AppendChar(u: string, c: char)
    requires IsNumberChar(c)
    ensures Digits(u + [c]) == if IsDigit(c) then Digits(u) + [c] else Digits(u)
    ensures Fraction(u + [c]) == Fraction(u) + (if IsDigit(c) && '.' in u then 1 else 0)
    ensures IsDigitText(u) && (c == '.' ==> '.' !in u) ==> IsDigitText(u + [c])
    ensures '.' in u + [c] <==> c == '.' || '.' in u
  {
    assert Front(u + [c]) == u && Last(u + [c]) == c;
    assert Digits(u) + "" == Digits(u);
  }

  /** The spelled text has a point exactly when some of its places are behind the point, and its digits are
      those of the value. */
  lemma {:induction false} SpelledReads(value: nat, scale: nat, size: nat)
    ensures var u := Spelled(value, scale, size);
            && IsDigitText(u) && ('.' in u <==> size < scale)
            && DecimalValue(Digits(u)) == value
            && Fraction(u) == if size < scale then scale - size else 0
    decreases value + (if size < scale then scale - size else 0)
  {
    hide IsDigitText, Digits, Fraction, DecimalValue;
    Nothing();
    if value != 0 || size < scale {
      var point, digit := if size + 1 == scale then "." else "", DigitChar(value % 10);
      var front := Spelled(value / 10, scale, size + 1 + |point|);
      SpelledReads(value / 10, scale, size + 1 + |point|);
      if point == "." {
        AppendChar(front, '.');
        assert front + point == front + ['.'];
      } else {
        assert front + point == front;
      }
      AppendChar(front + point, digit);
      AppendDigit(Digits(front + point), digit);
    }
  }

  lemma SpelledIsUnsigned(value: nat, scale: nat, size: nat)
    ensures var u := Spelled(value, scale, size); u != "" ==> !IsSign(u[0])
  {
    hide Spelled, Digits, Fraction, DecimalValue;
    SpelledReads(value, scale, size);
    var u := Spelled(value, scale, size);
    assert u != "" ==> IsNumberChar(u[0]);
  }

  /** Reading a printed decimal gives back its value, its scale and its sign; zero is positive. */
  lemma RoundTrip(d: Decimal)
    requires d.value <= U64_MAX && 0 <= d.scale < 0x8000
    ensures var r := Read(Printed(d.value, d.sign, d.scale));
            && r.Some? && r.value.value == d.value && r.value.scale == d.scale
            && r.value.sign == if d.sign == 0 && d.value != 0 then 0 else 1
  {
    hide IsDigitText, Digits, Fraction, DecimalValue, Spelled;
    var u, text := Spelled(d.value, d.scale, 0), Printed(d.value, d.sign, d.scale);
    SpelledReads(d.value, d.scale, 0);
    SpelledIsUnsigned(d.value, d.scale, 0);
    if u == "" {
      Nothing();
      ZeroReads();
    } else if d.sign == 0 && d.value != 0 {
      assert text[1..] == u;
    } else {
      assert text == u;
    }
  }

  lemma ZeroReads()
    ensures IsDigitText("0") && DecimalValue(Digits("0")) == 0 && Fraction("0") == 0
  {
    hide IsDigitText, Digits, Fraction, DecimalValue;
    Nothing();
    assert "" + ['0'] == "0";
    AppendChar("", '0');
    AppendDigit("", '0');
  }

  // -------- SQL_NUMERIC_STRUCT

  /** SQL_NUMERIC_STRUCT, with the least significant byte first. */
  class Numeric {
    var precision: Byte
    var scale: int
    var sign: Byte
    const val: array<Byte>

    ghost predicate Valid()
      reads this, val
    {
      val.Length == 16 && -0x80 <= scale < 0x80
    }

    /** A struct that holds no value yet, with the precision and the scale that are asked for. */
    constructor (precision: Byte, scale: int)
      requires -0x80 <= scale < 0x80
      ensures Valid() && fresh(val) && this.precision == precision && this.scale == scale
      ensures forall i :: 0 <= i < 16 ==> val[i] == 0
    {
      this.precision, this.scale, sign := precision, scale, 0;
      val := new Byte[16](i => 0);
    }
  }

  /** The number that some bytes make, the least significant one first. */
  function LittleEndian(bytes: seq<Byte>): nat {
    if bytes == [] then 0 else LittleEndian(bytes[..|bytes| - 1]) + bytes[|bytes| - 1] * Pow(256, |bytes| - 1)
  }

  function Times(value: nat, e: nat): nat { value * Pow(10, e) }

  function Over(value: nat, e: nat): nat {
    value / Pow(10, e)
  }

  /** The integer moved to another scale: multiplied, or divided and cut off. */
  function Rescaled(value: nat, from: int, to: int): nat {
    if from <= to then Times(value, to - from) else Over(value, from - to)
  }

  datatype Outcome = Converted | BadSpecification | TooBig

  /** What a conversion into `precision` and `scale` comes to, and the precision and scale it uses. */
  function Specification(src: Decimal, precision: Byte, scale: int): (Byte, int) {
    if precision == 0 then (src.precision % 256, Int8(src.scale)) else (precision, scale)
  }

  function ToNumericOutcome(src: Decimal, precision: Byte, scale: int): Outcome {
    var (p, s) := Specification(src, precision, scale);
    if precision < scale then BadSpecification
    else if Rescaled(src.value, src.scale, s) > U64_MAX || Rescaled(src.value, src.scale, s) >= Pow(256, p + 1) then
        TooBig
    else Converted
  }

  lemma {:induction false} PowMonotone(b: nat, e: nat, f: nat)
    requires b > 0 && e <= f
    ensures Pow(b, e) <= Pow(b, f)
    decreases f - e
  {
    if e < f {
      PowMonotone(b, e, f - 1);
    }
  }

  lemma {:induction false} LittleEndianBound(bytes: seq<Byte>)
    ensures LittleEndian(bytes) < Pow(256, |bytes|)
  {
    if bytes != [] {
      var n := |bytes| - 1;
      LittleEndianBound(bytes[..n]);
      MulMono(bytes[n], 255, Pow(256, n));
    }
  }

  lemma DivUnique(v: nat, d: nat, q: nat, r: nat)
    requires d > 0 && v == q * d + r && r < d
    ensures v / d == q
  {
    var q1 := v / d;
    if q1 < q {
      MulMono(q1 + 1, q, d);
    } else if q1 > q {
      MulMono(q + 1, q1, d);
    }
  }

  lemma DivTen(v: nat, b: nat)
    requires b > 0
    ensures v / 10 / b == v / (10 * b)
  {
    var q, r := v / 10, v % 10;
    var q2, r2 := q / b, q % b;
    assert q == q2 * b + r2;
    assert v == 10 * (q2 * b) + 10 * r2 + r;
    assert q2 * (10 * b) == 10 * (q2 * b);
    DivUnique(v, 10 * b, q2, 10 * r2 + r);
  }

  function ByteCount(v: nat): nat { if v == 0 then 0 else 1 + ByteCount(v / 256) }

  lemma {:induction false} ByteCountBounds(v: nat, e: nat)
    ensures v < Pow(256, e) <==> ByteCount(v) <= e
    decreases e
  {
    if v == 0 {
    } else if e > 0 {
      ByteCountBounds(v / 256, e - 1);
    }
  }

  lemma U64Bytes()
    ensures Pow(256, 8) == U64_MAX + 1
  {
    assert Pow(256, 2) == 65536;
    assert Pow(256, 4) == 65536 * 65536;
  }

  lemma LittleEndianPush(bytes: seq<Byte>, b: Byte)
    ensures LittleEndian(bytes + [b]) == LittleEndian(bytes) + b * Pow(256, |bytes|)
  {
    assert (bytes + [b])[..|bytes|] == bytes;
  }

  lemma TimesStep(v: nat, e: nat)
    ensures Times(v, 0) == v
    ensures e > 0 ==> Times(v, e) == Times(v * 10, e - 1) && Times(v, e) >= v * 10
  {
    if e > 0 {
    }
  }

  lemma OverStep(v: nat, e: nat)
    ensures Over(v, 0) == v
    ensures e > 0 ==> Over(v, e) == Over(v / 10, e - 1)
    ensures Over(v, e) <= v
  {
    if e > 0 {
      DivTen(v, Pow(10, e - 1));
    }
    DivShrinks(v, Pow(10, e));
  }

  lemma DivShrinks(v: nat, d: nat)
    requires d > 0
    ensures v / d <= v
  {
    MulMono(1, d, v / d);
  }

  /** The loops that adjust the scale; None for the overflow. */
  method Rescale(value: nat, from: int, to: int) returns (r: Option<nat>)
    requires value <= U64_MAX
    ensures r == if Rescaled(value, from, to) <= U64_MAX then Some(Rescaled(value, from, to)) else None
  {
    hide Times, Over;
    var v: nat, scale := value, from;
    TimesStep(v, 0);
    OverStep(v, 0);
    while scale < to
      invariant if from <= to then scale <= to && Times(value, to - from) == Times(v, to - scale)
                else v == value && scale == from
      invariant v <= U64_MAX
    {
      TimesStep(v, to - scale);
      if U64_MAX / 10 < v {
        return None;
      }
      v, scale := v * 10, scale + 1;
      TimesStep(v, to - scale);
    }
    TimesStep(v, 0);
    if from > to {
      OverStep(value, from - to);
    }
    while to < scale
      invariant from <= to ==> scale == to && v == Times(value, to - from)
      invariant from > to ==> to <= scale && Over(value, from - to) == Over(v, scale - to)
      invariant v <= U64_MAX
    {
      OverStep(v, scale - to);
      v, scale := v / 10, scale - 1;
    }
    OverStep(v, 0);
    return Some(v);
  }

  /** The digit loop: None when a byte would be needed behind the precision. */
  method StoreBytes(value: nat, precision: Byte, val: array<Byte>) returns (ok: bool)
    requires value <= U64_MAX && val.Length == 16
    modifies val
    ensures ok <==> value < Pow(256, precision + 1)
    ensures ByteCount(value) <= 8
    ensures ok ==> LittleEndian(val[..ByteCount(value)]) == value
    ensures ok ==> val[ByteCount(value)..] == old(val[..])[ByteCount(value)..]
  {
    hide Pow, LittleEndian;
    var rest: nat, i: nat := value, 0;
    ghost var zeros := old(val[..]);
    U64Bytes();
    ByteCountBounds(value, 8);
    ByteCountBounds(value, precision + 1);
    assert val[..0] == [];
    JoinEnds([], value);
    while rest != 0
      invariant i <= 8 && i <= precision + 1 && ByteCount(value) == i + ByteCount(rest)
      invariant Joined(val[..i], rest) == value && val[i..] == zeros[i..]
    {
      if i >= val.Length || i > precision {
        return false;
      }
      JoinStep(val[..i], rest);
      val[i] := rest % 256;
      rest := rest / 256;
      i := i + 1;
      assert val[..i] == val[..i - 1] + [val[i - 1]];
    }
    JoinEnds(val[..i], 0);
    return true;
  }

  /** What the bytes and the part that is left to convert stand for. */
  function Joined(bytes: seq<Byte>, rest: nat): nat { LittleEndian(bytes) + rest * Pow(256, |bytes|) }

  lemma JoinEnds(bytes: seq<Byte>, rest: nat)
    ensures Joined([], rest) == rest && Joined(bytes, 0) == LittleEndian(bytes)
  {
  }

  lemma JoinStep(bytes: seq<Byte>, rest: nat)
    ensures Joined(bytes + [rest % 256], rest / 256) == Joined(bytes, rest)
  {
    hide LittleEndian;
    LittleEndianPush(bytes, rest % 256);
    Distribute(rest / 256, rest % 256, Pow(256, |bytes|));
  }

  lemma Distribute(q: nat, r: nat, p: nat)
    ensures q * (256 * p) + r * p == (q * 256 + r) * p
  {
  }

  lemma {:induction false} TrailingZeros(bytes: seq<Byte>, n: nat)
    requires n <= |bytes| && forall i :: n <= i < |bytes| ==> bytes[i] == 0
    ensures LittleEndian(bytes) == LittleEndian(bytes[..n])
    decreases |bytes|
  {
    if n == |bytes| {
      assert bytes[..n] == bytes;
    } else {
      TrailingZeros(bytes[..|bytes| - 1], n);
      assert bytes[..|bytes| - 1][..n] == bytes[..n];
    }
  }

  /** from_value<Decimal>::to_value<SQL_NUMERIC_STRUCT>: the outcome is known from the rescaled integer alone,
      and the bytes are its digits to the base 256. */
  method ToNumeric(src: Decimal, dest: Numeric) returns (r: Outcome)
    requires dest.Valid() && src.value <= U64_MAX
    modifies dest, dest.val
    ensures dest.Valid() && r == ToNumericOutcome(src, old(dest.precision), old(dest.scale))
    ensures r == Converted ==>
              && (dest.precision, dest.scale) == Specification(src, old(dest.precision), old(dest.scale))
              && dest.sign == src.sign % 256
    ensures r == Converted && (forall i :: 0 <= i < 16 ==> old(dest.val[i]) == 0) ==>
              LittleEndian(dest.val[..]) == Rescaled(src.value, src.scale, dest.scale)
  {
    hide Rescaled, Pow, LittleEndian;
    if dest.precision < dest.scale {
      return BadSpecification;
    }
    dest.sign := src.sign % 256;
    if dest.precision == 0 {
      dest.precision := src.precision % 256;
      dest.scale := Int8(src.scale);
    }
    var value := Rescale(src.value, src.scale, dest.scale);
    if value.None? {
      return TooBig;
    }
    ghost var before := dest.val[..];
    var ok := StoreBytes(value.value, dest.precision, dest.val);
    if !ok {
      return TooBig;
    }
    ghost var n := ByteCount(value.value);
    if forall i :: 0 <= i < 16 ==> before[i] == 0 {
      assert forall i :: n <= i < 16 ==> dest.val[i] == dest.val[n..][i - n] == before[n..][i - n] == before[i];
      TrailingZeros(dest.val[..], n);
      assert dest.val[..][..n] == dest.val[..n];
    }
    return Converted;
  }

  /** from_value<SQL_NUMERIC_STRUCT>::to_value<Decimal>: it fails exactly when the bytes make an integer of
      more than 64 bits. */
  method FromNumeric(src: Numeric) returns (r: Option<Decimal>)
    requires src.Valid()
    ensures r == if LittleEndian(src.val[..]) > U64_MAX then None
                 else Some(Decimal(LittleEndian(src.val[..]), Int8(src.sign), src.precision, src.scale))
  {
    hide LittleEndian, Joined;
    var value: nat := 0;
    var i := 1;
    ghost var all := src.val[..];
    assert all[..16] == all;
    JoinEnds(all, 0);
    while i <= src.val.Length
      invariant 1 <= i <= 17 && value <= U64_MAX && Joined(all[..17 - i], value) == LittleEndian(all)
    {
      var byte := src.val[src.val.Length - i];
      assert all[..17 - i] == all[..16 - i] + [byte];
      JoinStep(all[..16 - i], value * 256 + byte);
      JoinAtLeast(all[..16 - i], value * 256 + byte);
      if value != 0 {
        if U64_MAX / 256 < value {
          return None;
        }
        value := value * 256;
      }
      if byte != 0 {
        if U64_MAX - byte < value {
          return None;
        }
        value := value + byte;
      }
      i := i + 1;
    }
    assert all[..0] == [];
    JoinEnds([], value);
    return Some(Decimal(value, Int8(src.sign), src.precision, src.scale));
  }

  lemma JoinAtLeast(bytes: seq<Byte>, rest: nat)
    ensures Joined(bytes, rest) >= rest
  {
    MulMono(1, Pow(256, |bytes|), rest);
  }

  lemma {:induction false} TenToPrecision(p: nat)
    ensures Pow(10, p) <= Pow(256, p)
  {
    if p > 0 {
      TenToPrecision(p - 1);
    }
  }

  /** A rescaled integer that has no more digits than the precision allows is never too big for the bytes. */
  lemma FitsPrecision(src: Decimal, precision: Byte, scale: int)
    requires precision >= scale
    requires var (p, s) := Specification(src, precision, scale);
             Rescaled(src.value, src.scale, s) <= U64_MAX && Rescaled(src.value, src.scale, s) < Pow(10, p)
    ensures ToNumericOutcome(src, precision, scale) == Converted
  {
    hide Rescaled;
    var (p, s) := Specification(src, precision, scale);
    TenToPrecision(p);
    PowMonotone(256, p, p + 1);
  }

  /** What is converted into a fresh struct is read back as the same integer. */
  method ThereAndBack(src: Decimal, precision: Byte, scale: int) returns (r: Option<Decimal>)
    requires src.value <= U64_MAX && -0x80 <= scale < 0x80
    ensures r == if ToNumericOutcome(src, precision, scale) != Converted then None
                 else var (p, s) := Specification(src, precision, scale);
                      Some(Decimal(Rescaled(src.value, src.scale, s), Int8(src.sign % 256), p, s))
  {
    hide Rescaled, LittleEndian, Pow;
    var dest := new Numeric(precision, scale);
    var outcome := ToNumeric(src, dest);
    if outcome != Converted {
      return None;
    }
    r := FromNumeric(dest);
  }
}
