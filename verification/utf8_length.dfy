/** How many characters a UTF-8 string has; section 3 of RFC 3629. */
module Utf8Length {
  import opened Text

  /** A Unicode scalar value. */
  type CodePoint = x: int | 0 <= x < 0xD800 || 0xE000 <= x < 0x11_0000

  // U+FEFF, and its encoding, the signature of UTF-8
  const BYTE_ORDER_MARK: CodePoint := 0xFEFF
  const SIGNATURE: seq<Byte> := [0xEF, 0xBB, 0xBF]

  function Encode(c: CodePoint): (b: seq<Byte>)
    ensures 1 <= |b| <= 4
  {
    if c < 0x80 then [c]
    else if c < 0x800 then [0xC0 + c / 64, 0x80 + c % 64]
    else if c < 0x1_0000 then [0xE0 + c / 64 / 64, 0x80 + c / 64 % 64, 0x80 + c % 64]
    else [0xF0 + c / 64 / 64 / 64, 0x80 + c / 64 / 64 % 64, 0x80 + c / 64 % 64, 0x80 + c % 64]
  }

  function Utf8(cs: seq<CodePoint>): seq<Byte> { if cs == [] then [] else Encode(cs[0]) + Utf8(cs[1..]) }

  /** The bytes that are taken for continuation bytes behind a byte: those of the forms 110xxxxx, 1110xxxx and
      11110xxx announce one, two and three. */
  function Announced(b: Byte): (n: nat)
    ensures n <= 3
  {
    if b / 32 == 6 then 1 else if b / 16 == 14 then 2 else if b / 8 == 30 then 3 else 0
  }

  /** The loop on the bytes that are left: what remains of `len`, and whether a subtraction was cut off at zero. */
  function Count(s: seq<Byte>, len: nat): (r: (nat, bool))
    decreases |s|
  {
    if s == [] then (len, false)
    else
      var n := Announced(s[0]);
      var (rest, clamped) := Count(s[Min(n + 1, |s|)..], len - Min(n, len));
      (rest, clamped || len < n)
  }

  function WithoutSignature(s: seq<Byte>): seq<Byte> { if SIGNATURE <= s then s[3..] else s }

  function From(s: seq<Byte>, i: nat): seq<Byte> { if i < |s| then s[i..] else [] }

  /** stringLengthUTF8 */
  method StringLength(str: seq<Byte>) returns (len: nat, clamped: bool)
    ensures (len, clamped) == Count(WithoutSignature(str), |WithoutSignature(str)|)
  {
    hide Count, From, Announced;
    var s := WithoutSignature(str);
    var i: nat := 0;
    len, clamped := |s|, false;
    Ends(s, len, 0);
    while i < |s|
      invariant var r := Count(From(s, i), len); Count(s, |s|) == (r.0, clamped || r.1)
    {
      CountStep(s, i, len);
      var n := Announced(s[i]);
      clamped := clamped || len < n;
      len := len - (if len < n then len else n);
      i := i + n + 1;
    }
    Ends(s, len, i);
  }

  lemma CountStep(s: seq<Byte>, i: nat, len: nat)
    requires i < |s|
    ensures var n := Announced(s[i]);
            var (rest, clamped) := Count(From(s, i + n + 1), len - Min(n, len));
            Count(From(s, i), len) == (rest, clamped || len < n)
  {
    hide Announced, From;
    var n := Announced(s[i]);
    FromFrom(s, i, n + 1);
    CountOne(From(s, i), len);
  }

  lemma CountOne(s: seq<Byte>, len: nat)
    requires s != []
    ensures var n := Announced(s[0]);
            var (rest, clamped) := Count(s[Min(n + 1, |s|)..], len - Min(n, len));
            Count(s, len) == (rest, clamped || len < n)
  {
  }

  lemma Ends(s: seq<Byte>, len: nat, i: nat)
    ensures From(s, 0) == s && (i >= |s| ==> Count(From(s, i), len) == (len, false))
  {
  }

  lemma FromFrom(s: seq<Byte>, i: nat, n: nat)
    requires i < |s|
    ensures From(s, i) != [] && From(s, i)[0] == s[i]
    ensures From(s, i)[Min(n, |From(s, i)|)..] == From(s, i + n)
  {
  }

  /** The first byte of an encoding announces the others. */
  lemma AnnouncedByFirst(c: CodePoint)
    ensures Announced(Encode(c)[0]) == |Encode(c)| - 1
  {
  }

  /** Each character takes away its continuation bytes, and there is always enough to take them from. */
  lemma {:induction false} CountsCharacters(cs: seq<CodePoint>, len: nat)
    requires len >= |Utf8(cs)|
    ensures |Utf8(cs)| >= |cs| && Count(Utf8(cs), len) == (len - (|Utf8(cs)| - |cs|), false)
    decreases |cs|
  {
    hide Encode, Announced;
    if cs != [] {
      var first, more := Encode(cs[0]), Utf8(cs[1..]);
      AnnouncedByFirst(cs[0]);
      assert Utf8(cs)[0] == first[0] && Utf8(cs)[|first|..] == more;
      CountsCharacters(cs[1..], len - (|first| - 1));
    }
  }

  /** A string begins with the signature exactly when its first character is the byte order mark. */
  lemma SignatureIsMark(cs: seq<CodePoint>)
    ensures SIGNATURE <= Utf8(cs) <==> cs != [] && cs[0] == BYTE_ORDER_MARK
  {
    if cs != [] {
      var first, s := Encode(cs[0]), Utf8(cs);
      assert s[..|first|] == first;
      assert s[0] == first[0] && (|first| > 1 ==> s[1] == first[1]) && (|first| > 2 ==> s[2] == first[2]);
    }
  }

  lemma MarkEncoded()
    ensures Encode(BYTE_ORDER_MARK) == SIGNATURE
  {
  }

  /** For valid UTF-8 the length is the number of characters behind one leading byte order mark, and no
      subtraction is cut off. */
  lemma LengthOfValid(cs: seq<CodePoint>)
    ensures var s := WithoutSignature(Utf8(cs));
            Count(s, |s|) == (if cs != [] && cs[0] == BYTE_ORDER_MARK then |cs| - 1 else |cs|, false)
  {
    hide Encode, Count;
    SignatureIsMark(cs);
    if cs != [] && cs[0] == BYTE_ORDER_MARK {
      MarkEncoded();
      assert Utf8(cs)[3..] == Utf8(cs[1..]);
      CountsCharacters(cs[1..], |Utf8(cs[1..])|);
    } else {
      CountsCharacters(cs, |Utf8(cs)|);
    }
  }
}
