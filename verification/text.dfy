/** Bytes, powers, and characters, decimal numerals and substring search as the C locale and std::string define them. */
module Text {

  datatype Option<+T> = None | Some(value: T)

  // The largest value of std::uint64_t and of std::size_t on the supported platforms.
  const U64_MAX: nat := 0xFFFF_FFFF_FFFF_FFFF

  type Byte = x: int | 0 <= x < 256

  function Min(a: nat, b: nat): nat { if a < b then a else b }

  function Pow(b: nat, e: nat): (p: nat)
    ensures b > 0 ==> p > 0
  {
    if e == 0 then 1 else b * Pow(b, e - 1)
  }

  lemma MulMono(a: int, b: int, p: nat)
    requires a <= b
    ensures a * p <= b * p
  {
  }

  predicate IsDigit(c: char) { '0' <= c <= '9' }

  predicate IsAlpha(c: char) { 'a' <= c <= 'z' || 'A' <= c <= 'Z' }

  // isspace: blank, \t, \n, \v, \f, \r
  predicate IsSpace(c: char) { c == ' ' || 9 as char <= c <= 13 as char }

  function ToUpper(c: char): char {
    if 'a' <= c <= 'z' then c - 'a' + 'A' else c
  }

  function Upper(s: string): (u: string)
    ensures |u| == |s|
    ensures forall i :: 0 <= i < |s| ==> u[i] == ToUpper(s[i])
  {
    seq(|s|, i requires 0 <= i < |s| => ToUpper(s[i]))
  }

  /** The end of the digits from `i` on. */
  function DigitsEnd(s: string, i: nat): (end: nat)
    requires i <= |s|
    ensures i <= end <= |s| && (forall k :: i <= k < end ==> IsDigit(s[k])) && (end < |s| ==> !IsDigit(s[end]))
    decreases |s| - i
  {
    if i < |s| && IsDigit(s[i]) then DigitsEnd(s, i + 1) else i
  }

  predicate AllDigits(s: string) { forall i :: 0 <= i < |s| ==> IsDigit(s[i]) }

  predicate EndsInDigit(s: string) { s != [] && IsDigit(s[|s| - 1]) }

  predicate EndsWith(s: string, suffix: string) {
    |suffix| <= |s| && s[|s| - |suffix|..] == suffix
  }

  function DigitValue(c: char): (v: nat)
    requires IsDigit(c)
    ensures v < 10
  {
    c as int - '0' as int
  }

  function DigitChar(v: nat): (c: char)
    requires v < 10
    ensures IsDigit(c) && DigitValue(c) == v
  {
    '0' + v as char
  }

  function DecimalValue(s: string): nat
    requires AllDigits(s)
  {
    if s == [] then 0 else DecimalValue(s[..|s| - 1]) * 10 + DigitValue(s[|s| - 1])
  }

  lemma DigitAppended(front: string, v: nat)
    requires AllDigits(front) && v < 10
    ensures AllDigits(front + [DigitChar(v)]) && DecimalValue(front + [DigitChar(v)]) == DecimalValue(front) * 10 + v
  {
    assert (front + [DigitChar(v)])[..|front|] == front;
  }

  lemma NoDigits()
    ensures AllDigits("") && DecimalValue("") == 0
  {
  }

  /** std::to_string of a non-negative number. */
  function Decimal(n: nat): (s: string)
    ensures s != [] && AllDigits(s) && DecimalValue(s) == n
  {
    hide AllDigits, DecimalValue, DigitChar;
    var front := if n < 10 then "" else Decimal(n / 10);
    NoDigits();
    DigitAppended(front, n % 10);
    front + [DigitChar(n % 10)]
  }

  /** `p` stands in `s` at offset `i`. */
  predicate At(p: string, s: string, i: int) {
    0 <= i <= |s| - |p| && s[i..i + |p|] == p
  }

  predicate Occurs(p: string, s: string) {
    exists i :: 0 <= i <= |s| && At(p, s, i)
  }

  /** std::string::find: the first offset of `p` at or after `from`, or None. */
  function Find(p: string, s: string, from: nat := 0): (r: Option<nat>)
    requires from <= |s|
    ensures r.Some? ==> from <= r.value && At(p, s, r.value)
    ensures forall i :: from <= i < (if r.Some? then r.value else |s| + 1) ==> !At(p, s, i)
    decreases |s| - from
  {
    if At(p, s, from) then Some(from)
    else if from == |s| then None
    else Find(p, s, from + 1)
  }

  /** std::string::rfind: the last offset of `p`, or None. */
  function FindLast(p: string, s: string, from: nat): (r: Option<nat>)
    requires from <= |s|
    ensures r.Some? ==> r.value <= from && At(p, s, r.value)
    ensures forall i :: (if r.Some? then r.value + 1 else 0) <= i <= from ==> !At(p, s, i)
  {
    if At(p, s, from) then Some(from)
    else if from == 0 then None
    else FindLast(p, s, from - 1)
  }

  function Flatten(parts: seq<string>): string {
    if parts == [] then "" else parts[0] + Flatten(parts[1..])
  }

  lemma FlattenAppend(a: seq<string>, b: seq<string>)
    ensures Flatten(a + b) == Flatten(a) + Flatten(b)
  {
    if a == [] {
      assert a + b == b;
    } else {
      assert (a + b)[1..] == a[1..] + b;
      FlattenAppend(a[1..], b);
    }
  }

  lemma SplitEqual(a: string, b: string, c: string, d: string)
    requires a + b == c + d && (|a| == |c| || |b| == |d|)
    ensures a == c && b == d
  {
    assert |a| == |c|;
    assert a == (a + b)[..|a|] && b == (a + b)[|a|..];
    assert c == (c + d)[..|c|] && d == (c + d)[|c|..];
  }
}
