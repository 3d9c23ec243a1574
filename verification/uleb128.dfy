/** Sizes in the RowBinary format: unsigned LEB128, section 7.6 of DWARF 5, in 64 bits. */
module Uleb128 {
  import opened Text

  /** Undefined: a shift by the width of the type or more, for which the language gives no meaning. */
  datatype Outcome = Value(size: nat, rest: seq<Byte>) | TooBig | EndOfStream | Undefined

  // -------- 64-bit operations

  /** The bitwise or. */
  function Or(a: nat, b: nat): nat
    decreases a + b
  {
    if a == 0 && b == 0 then 0
    else (if a % 2 == 1 || b % 2 == 1 then 1 else 0) + 2 * Or(a / 2, b / 2)
  }

  function ShiftLeft(a: nat, k: nat): nat { a * Pow(2, k) % (U64_MAX + 1) }

  function ShiftRight(a: nat, k: nat): nat {
    hide Pow;
    a / Pow(2, k)
  }

  lemma {:induction false} OrZero(b: nat)
    ensures Or(0, b) == b
    decreases b
  {
    if b > 0 {
      OrZero(b / 2);
    }
  }

  /** The or of a number and a multiple of a larger power of two is their sum. */
  lemma {:induction false} OrIsSum(a: nat, c: nat, k: nat)
    requires a < Pow(2, k)
    ensures Or(a, c * Pow(2, k)) == a + c * Pow(2, k)
    decreases k
  {
    if k == 0 {
      OrZero(c);
    } else {
      var p := Pow(2, k - 1);
      assert c * Pow(2, k) == 2 * (c * p);
      OrIsSum(a / 2, c, k - 1);
      if a == 0 && c * p == 0 {
      } else {
        assert (2 * (c * p)) % 2 == 0 && 2 * (c * p) / 2 == c * p;
      }
    }
  }

  lemma {:induction false} PowSum(a: nat, b: nat)
    ensures Pow(2, a + b) == Pow(2, a) * Pow(2, b)
    decreases a
  {
    if a > 0 {
      PowSum(a - 1, b);
    }
  }

  lemma PowValues()
    ensures Pow(2, 7) == 128 && Pow(2, 56) * 128 == Pow(2, 63) && 2 * Pow(2, 63) == U64_MAX + 1
  {
    assert Pow(2, 4) == 16 && Pow(2, 7) == 128;
    PowSum(8, 8);
    PowSum(16, 16);
    PowSum(32, 16);
    PowSum(48, 8);
    PowSum(56, 7);
    assert Pow(2, 8) == 256 && Pow(2, 16) == 65536 && Pow(2, 32) == 65536 * 65536;
  }

  // -------- the numbers that bytes stand for

  /** An encoding: every byte but the last has its high bit set. */
  predicate IsEncoding(b: seq<Byte>) {
    b != [] && b[|b| - 1] < 128 && forall i :: 0 <= i < |b| - 1 ==> b[i] >= 128
  }

  /** The sum of the low seven bits of the bytes, the least significant ones first. */
  function Meaning(b: seq<Byte>): nat {
    if b == [] then 0 else Meaning(b[..|b| - 1]) + b[|b| - 1] % 128 * Pow(2, 7 * (|b| - 1))
  }

  function Encode(v: nat): (b: seq<Byte>)
    ensures IsEncoding(b)
  {
    if v < 128 then [v] else [v % 128 + 128] + Encode(v / 128)
  }

  // -------- the decoder

  /** readSize, with the bits read so far. */
  function Decode(s: seq<Byte>, shift: nat, acc: nat): Outcome
    decreases |s|
  {
    if s == [] then EndOfStream
    else if shift >= 64 then Undefined
    else
      var chunk := s[0] % 128;
      var segment := ShiftLeft(chunk, shift);
      if ShiftRight(segment, shift) != chunk then TooBig
      else if s[0] < 128 then Value(Or(acc, segment), s[1..])
      else Decode(s[1..], shift + 7, Or(acc, segment))
  }

  method ReadSize(s: seq<Byte>) returns (r: Outcome)
    ensures r == Decode(s, 0, 0)
  {
    var rest, acc: nat, shift: nat := s, 0, 0;
    while true
      invariant Decode(s, 0, 0) == Decode(rest, shift, acc)
      decreases |rest|
    {
      if rest == [] {
        return EndOfStream;
      }
      if shift >= 64 {
        return Undefined;
      }
      var byte := rest[0];
      rest := rest[1..];
      var chunk := byte % 128;
      var segment := ShiftLeft(chunk, shift);
      if ShiftRight(segment, shift) != chunk || 0xFF - 7 < shift {
        return TooBig;
      }
      acc := Or(acc, segment);
      if byte < 128 {
        return Value(acc, rest);
      }
      shift := shift + 7;
    }
  }

  lemma DivMul(c: nat, p: nat)
    requires p > 0
    ensures c * p / p == c
  {
    var q := c * p / p;
    if q < c {
      MulMono(q + 1, c, p);
    } else if q > c {
      MulMono(c + 1, q, p);
    }
  }

  lemma {:induction false} PowMono(a: nat, b: nat)
    requires a <= b
    ensures Pow(2, a) <= Pow(2, b)
    decreases b - a
  {
    if a < b {
      PowMono(a, b - 1);
    }
  }

  /** A segment that does not run over the 64 bits is shifted back to its chunk. */
  lemma Segment(chunk: nat, k: nat)
    requires chunk * Pow(2, k) <= U64_MAX
    ensures ShiftLeft(chunk, k) == chunk * Pow(2, k) && ShiftRight(ShiftLeft(chunk, k), k) == chunk
  {
    hide Pow;
    DivMul(chunk, Pow(2, k));
  }

  /** The tenth byte has room for one bit. */
  lemma LastSegment(chunk: nat)
    requires 2 <= chunk < 128
    ensures chunk * Pow(2, 63) > U64_MAX && ShiftRight(ShiftLeft(chunk, 63), 63) != chunk
  {
    hide Pow;
    PowValues();
    var p := Pow(2, 63);
    MulMono(2, chunk, p);
    var wrapped := ShiftLeft(chunk, 63);
    assert wrapped < 2 * p;
    if wrapped / p >= 2 {
      MulMono(2, wrapped / p, p);
    }
  }

  /** What one byte adds: it fits exactly when the sum does. */
  lemma OneByte(acc: nat, byte: Byte, i: nat)
    requires i < 10 && acc < Pow(2, 7 * i)
    ensures var chunk := byte % 128;
            var sum := acc + chunk * Pow(2, 7 * i);
            var segment := ShiftLeft(chunk, 7 * i);
            if sum <= U64_MAX then ShiftRight(segment, 7 * i) == chunk && Or(acc, segment) == sum
                && sum < Pow(2, 7 * (i + 1))
            else ShiftRight(segment, 7 * i) != chunk
  {
    hide Pow, Or, ShiftLeft, ShiftRight;
    var chunk, k := byte % 128, 7 * i;
    var p := Pow(2, k);
    PowValues();
    PowSum(7, k);
    MulMono(chunk, 127, p);
    if i == 9 && chunk >= 2 {
      LastSegment(chunk);
    } else {
      if i < 9 {
        PowMono(k + 7, 63);
      } else {
        MulMono(chunk, 1, p);
      }
      Segment(chunk, k);
      OrIsSum(acc, chunk, k);
    }
  }

  /** The bits that were read are the sum of the bytes that were read. */
  lemma {:induction false} DecodeFrom(b: seq<Byte>, after: seq<Byte>, i: nat)
    requires IsEncoding(b) && |b| <= 10 && i < |b| && Meaning(b[..i]) < Pow(2, 7 * i)
    ensures Decode(b[i..] + after, 7 * i, Meaning(b[..i])) == if Meaning(b) <= U64_MAX then Value(Meaning(b), after)
            else TooBig
    decreases |b| - i
  {
    hide Pow, Or, ShiftLeft, ShiftRight, Meaning;
    var s := b[i..] + after;
    OneByte(Meaning(b[..i]), b[i], i);
    MeaningNext(b, i);
    MeaningGrows(b, i + 1);
    assert s[0] == b[i] && s[1..] == b[i + 1..] + after;
    if i + 1 == |b| {
      assert b[..i + 1] == b && b[i + 1..] + after == after;
    } else if Meaning(b[..i + 1]) <= U64_MAX {
      DecodeFrom(b, after, i + 1);
    }
  }

  lemma MeaningNext(b: seq<Byte>, i: nat)
    requires i < |b|
    ensures Meaning(b[..i + 1]) == Meaning(b[..i]) + b[i] % 128 * Pow(2, 7 * i)
  {
    assert b[..i + 1][..i] == b[..i];
  }

  lemma {:induction false} MeaningGrows(b: seq<Byte>, i: nat)
    requires i <= |b|
    ensures Meaning(b[..i]) <= Meaning(b)
    decreases |b| - i
  {
    hide Pow;
    if i == |b| {
      assert b[..i] == b;
    } else {
      MeaningNext(b, i);
      MeaningGrows(b, i + 1);
    }
  }

  /** An encoding of at most ten bytes is decoded to its mathematical value, or refused exactly when that value
      does not fit 64 bits. */
  lemma DecodesExactly(b: seq<Byte>, after: seq<Byte>)
    requires IsEncoding(b) && |b| <= 10
    ensures Decode(b + after, 0, 0) == if Meaning(b) <= U64_MAX then Value(Meaning(b), after) else TooBig
  {
    hide Decode;
    assert b[..0] == [] && b[0..] == b;
    DecodeFrom(b, after, 0);
  }

  // -------- the encoder

  lemma MeaningFirst(byte: Byte, more: seq<Byte>)
    ensures Meaning([byte] + more) == byte % 128 + 128 * Meaning(more)
    decreases |more|
  {
    var b := [byte] + more;
    if more == [] {
      assert b[..0] == [];
    } else {
      var front, n := more[..|more| - 1], |more| - 1;
      assert b[..|b| - 1] == [byte] + front;
      MeaningFirst(byte, front);
      PowSum(7, 7 * n);
      PowSeven();
      ChunkTimes(more[n] % 128, Pow(2, 7 * n));
    }
  }

  lemma PowSeven()
    ensures Pow(2, 7) == 128
  {
    assert Pow(2, 4) == 16;
  }

  lemma ChunkTimes(c: nat, p: nat)
    ensures c * (128 * p) == 128 * (c * p)
  {
  }

  lemma {:induction false} EncodeMeans(v: nat)
    ensures Meaning(Encode(v)) == v
    decreases v
  {
    if v < 128 {
      assert [v as Byte][..0] == [];
      MeaningFirst(v, []);
    } else {
      EncodeMeans(v / 128);
      MeaningFirst(v % 128 + 128, Encode(v / 128));
    }
  }

  lemma {:induction false} EncodeLength(v: nat, n: nat)
    requires v < Pow(2, 7 * n) && n > 0
    ensures |Encode(v)| <= n
    decreases n
  {
    PowSeven();
    if v >= 128 {
      if n > 1 {
        PowSum(7, 7 * (n - 1));
        EncodeLength(v / 128, n - 1);
      }
    }
  }

  /** Every 64-bit integer is decoded from what the encoder makes of it. */
  lemma RoundTrip(v: nat, after: seq<Byte>)
    requires v <= U64_MAX
    ensures Decode(Encode(v) + after, 0, 0) == Value(v, after)
  {
    hide Decode, Pow, Encode, Meaning;
    PowValues();
    PowMono(64, 70);
    PowSum(1, 63);
    PowOne();
    EncodeLength(v, 10);
    EncodeMeans(v);
    DecodesExactly(Encode(v), after);
  }

  lemma PowOne()
    ensures Pow(2, 1) == 2
  {
  }

  predicate AsksForEleventh(s: seq<Byte>, i: nat) {
    && i <= 10 && |s| > 10 - i && (forall j :: 0 <= j < 10 - i ==> s[j] >= 128) && (i < 10 ==> s[9 - i] % 128 <= 1)
  }

  lemma AsksNext(s: seq<Byte>, i: nat)
    requires s != [] && i < 10
    ensures AsksForEleventh(s, i) <==> s[0] >= 128 && (i == 9 ==> s[0] % 128 <= 1) && AsksForEleventh(s[1..], i + 1)
  {
    if AsksForEleventh(s[1..], i + 1) && s[0] >= 128 {
      forall j | 0 <= j < 10 - i ensures s[j] >= 128 {
        assert j > 0 ==> s[1..][j - 1] == s[j];
      }
      assert i < 9 ==> s[1..][8 - i] == s[9 - i];
    }
    if AsksForEleventh(s, i) {
      assert i < 9 ==> s[1..][8 - i] == s[9 - i];
    }
  }

  lemma {:induction false} UndefinedFrom(s: seq<Byte>, i: nat, acc: nat)
    requires i <= 10 && acc < Pow(2, 7 * i)
    ensures Decode(s, 7 * i, acc) == Undefined <==> AsksForEleventh(s, i)
    decreases |s|
  {
    hide Pow, Or, ShiftLeft, ShiftRight, AsksForEleventh;
    if s == [] || i == 10 {
      AsksAtEnd(s, i);
    } else {
      OneByte(acc, s[0], i);
      ByteFits(acc, s[0], i);
      AsksNext(s, i);
      var segment := ShiftLeft(s[0] % 128, 7 * i);
      if ShiftRight(segment, 7 * i) == s[0] % 128 {
        UndefinedFrom(s[1..], i + 1, Or(acc, segment));
      }
    }
  }

  lemma AsksAtEnd(s: seq<Byte>, i: nat)
    requires i <= 10 && (s == [] || i == 10)
    ensures AsksForEleventh(s, i) <==> s != []
  {
  }

  /** Only the tenth byte can be too big. */
  lemma ByteFits(acc: nat, byte: Byte, i: nat)
    requires i < 10 && acc < Pow(2, 7 * i)
    ensures acc + byte % 128 * Pow(2, 7 * i) <= U64_MAX <==> i < 9 || byte % 128 <= 1
  {
    hide Pow;
    var chunk, p := byte % 128, Pow(2, 7 * i);
    PowValues();
    if i < 9 {
      PowSum(7, 7 * i);
      PowMono(7 * i + 7, 63);
      MulMono(chunk, 127, p);
    } else if chunk <= 1 {
      MulMono(chunk, 1, p);
    } else {
      MulMono(2, chunk, p);
    }
  }

  /** The shift runs over the width of the type exactly when ten bytes ask for an eleventh one, which is there,
      and the tenth has no more than one bit. */
  lemma UndefinedExactly(s: seq<Byte>)
    ensures Decode(s, 0, 0) == Undefined
            <==> |s| > 10 && (forall i :: 0 <= i < 10 ==> s[i] >= 128) && s[9] % 128 <= 1
  {
    hide Decode;
    UndefinedFrom(s, 0, 0);
  }

  /** Zero in eleven bytes. */
  lemma ElevenBytes()
    ensures Decode([128, 128, 128, 128, 128, 128, 128, 128, 128, 128, 0], 0, 0) == Undefined
  {
    hide Decode;
    UndefinedExactly([128, 128, 128, 128, 128, 128, 128, 128, 128, 128, 0]);
  }
}
