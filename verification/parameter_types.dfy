/** The ClickHouse types that parameters get from their SQL and C types. */
module ParameterTypes {
  import opened Text
  import opened Lexing
  import opened EscapeProperties

  /** The codes with the same treatment share a name: SqlChar is SQL_CHAR and SQL_WCHAR, SqlInterval any of the
      interval codes, SqlOther any code that the conversion does not know. */
  datatype SqlType =
    | SqlNull | SqlChar | SqlVarchar | SqlLongVarchar | SqlBit | SqlTinyInt | SqlSmallInt | SqlInteger | SqlBigInt
    | SqlReal | SqlDouble | SqlNumeric | SqlBinary | SqlVarBinary | SqlLongVarBinary | SqlGuid
    | SqlDate | SqlTime | SqlTimestamp | SqlInterval | SqlOther

  datatype CType =
    | CChar | CBit | CTinyInt | CUTinyInt | CShort | CUShort | CLong | CULong | CSBigInt | CUBigInt
    | CFloat | CDouble | CNumeric | CBinary | CGuid | CDate | CTime | CTimestamp | CInterval | COther

  /** BoundTypeInfo */
  datatype Bound = Bound(sqlType: SqlType, cType: CType, maxSize: int, precision: int, scale: int, nullable: bool)

  /** std::to_string of an int */
  function Signed(n: int): string { if n < 0 then "-" + Decimal(-n) else Decimal(n) }

  function Nullability(nullable: bool, name: string): string { if nullable then "Nullable(" + name + ")" else name }

  function DecimalType(b: Bound): string { "Decimal(" + Signed(b.precision) + ", " + Signed(b.scale) + ")" }

  function BinaryType(b: Bound): string {
    if b.maxSize > 0 then "FixedString(" + Signed(b.maxSize) + ")" else "String"
  }

  function LowCardinalityString(b: Bound): string { "LowCardinality(" + Nullability(b.nullable, "String") + ")" }

  /** The types that are plain names. */
  function SqlName(t: SqlType): string {
    match t
    case SqlNull => "Nothing"
    case SqlBit => "UInt8"
    case SqlTinyInt => "Int8"
    case SqlSmallInt => "Int16"
    case SqlInteger => "Int32"
    case SqlBigInt => "Int64"
    case SqlReal => "Float32"
    case SqlDouble => "Float64"
    case SqlGuid => "UUID"
    case SqlDate => "Date32"
    case SqlTimestamp => "DateTime64(9)"
    case _ => "String"
  }

  function CName(t: CType): string {
    match t
    case CBit => "UInt8"
    case CTinyInt => "Int8"
    case CUTinyInt => "UInt8"
    case CShort => "Int16"
    case CUShort => "UInt16"
    case CLong => "Int32"
    case CULong => "UInt32"
    case CSBigInt => "Int64"
    case CUBigInt => "UInt64"
    case CFloat => "Float32"
    case CDouble => "Float64"
    case CGuid => "UUID"
    case CDate => "Date32"
    case CTimestamp => "DateTime"
    case _ => "String"
  }

  /** convertSQLTypeToDataSourceType; None is the exception. */
  function FromSqlType(b: Bound): Option<string> {
    match b.sqlType
    case SqlOther => None
    case SqlVarchar => Some(LowCardinalityString(b))
    case SqlVarBinary => Some(LowCardinalityString(b))
    case SqlTime => Some(LowCardinalityString(b))
    case SqlInterval => Some(LowCardinalityString(b))
    case SqlNumeric => Some(Nullability(b.nullable, DecimalType(b)))
    case SqlBinary => Some(Nullability(b.nullable, BinaryType(b)))
    case t => Some(Nullability(b.nullable, SqlName(t)))
  }

  /** convertCTypeToDataSourceType */
  function FromCType(b: Bound): Option<string> {
    match b.cType
    case COther => None
    case CTime => Some(LowCardinalityString(b))
    case CInterval => Some(LowCardinalityString(b))
    case CNumeric => Some(Nullability(b.nullable, DecimalType(b)))
    case CBinary => Some(Nullability(b.nullable, BinaryType(b)))
    case t => Some(Nullability(b.nullable, CName(t)))
  }

  /** convertSQLOrCTypeToDataSourceType */
  function FromBound(b: Bound): Option<string> {
    if FromSqlType(b).Some? then FromSqlType(b) else FromCType(b)
  }

  /** The type that buildFinalQuery writes for the parameter at `i`. */
  function ParameterType(bindings: seq<Bound>, i: nat): Option<string> {
    if i < |bindings| then FromBound(bindings[i]) else Some("Nullable(Nothing)")
  }

  // -------- the alphabet and the head of a type

  /** A word that is no keyword of escape sequences, and nothing or a parenthesis behind it. */
  predicate IsTypeName(s: string) {
    IsTypeText(s) && exists k :: 0 < k <= |s| && TypeHead(s, k)
  }

  predicate TypeHead(s: string, k: int)
    requires 0 < k <= |s|
  {
    IsParameterName(s[..k]) && (k == |s| || s[k] == '(')
  }

  lemma SignedText(n: int)
    ensures IsTypeText(Signed(n))
  {
  }

  lemma Wrapped(word: string, inner: string)
    requires IsParameterName(word) && IsTypeText(inner)
    ensures IsTypeName(word + "(" + inner + ")")
  {
    hide IsIdentPart;
    var s := word + "(" + inner + ")";
    assert s[..|word|] == word && s[|word|] == '(';
    assert TypeHead(s, |word|);
  }

  lemma PlainName(word: string)
    requires IsParameterName(word)
    ensures IsTypeName(word)
  {
    assert word[..|word|] == word;
    assert TypeHead(word, |word|);
  }

  lemma Keyword(word: string)
    requires IsIdentifier(word) && |word| > 2
    ensures IsParameterName(word)
  {
  }

  lemma MaybeNullable(nullable: bool, name: string)
    requires IsTypeName(name)
    ensures IsTypeName(Nullability(nullable, name))
  {
    Keyword("Nullable");
    if nullable {
      Wrapped("Nullable", name);
      assert "Nullable" + "(" + name + ")" == "Nullable(" + name + ")";
    }
  }

  lemma SqlNames(t: SqlType)
    ensures IsTypeName(SqlName(t))
  {
    hide IsTypeName, IsParameterName;
    Keyword("DateTime64");
    Wrapped("DateTime64", "9");
    assert "DateTime64" + "(" + "9" + ")" == "DateTime64(9)";
    var name := SqlName(t);
    if t != SqlTimestamp {
      Keyword(name);
      PlainName(name);
    }
  }

  lemma CNames(t: CType)
    ensures IsTypeName(CName(t))
  {
    Keyword(CName(t));
    PlainName(CName(t));
  }

  lemma ListText(a: string, b: string)
    requires IsTypeText(a) && IsTypeText(b)
    ensures IsTypeText(a + ", " + b)
  {
    hide IsIdentPart;
  }

  lemma DecimalTypes(b: Bound)
    ensures IsTypeName(DecimalType(b))
  {
    hide IsTypeName, IsParameterName, IsTypeText, Signed;
    Keyword("Decimal");
    SignedText(b.precision);
    SignedText(b.scale);
    var inner := Signed(b.precision) + ", " + Signed(b.scale);
    ListText(Signed(b.precision), Signed(b.scale));
    Wrapped("Decimal", inner);
    assert DecimalType(b) == "Decimal" + "(" + inner + ")";
  }

  lemma BinaryTypes(b: Bound)
    ensures IsTypeName(BinaryType(b))
  {
    hide IsTypeName, IsParameterName;
    Keyword("FixedString");
    Keyword("String");
    PlainName("String");
    SignedText(b.maxSize);
    Wrapped("FixedString", Signed(b.maxSize));
    assert "FixedString" + "(" + Signed(b.maxSize) + ")" == "FixedString(" + Signed(b.maxSize) + ")";
  }

  lemma LowCardinalityTypes(b: Bound)
    ensures IsTypeName(LowCardinalityString(b))
  {
    hide IsTypeName, IsParameterName, Nullability;
    Keyword("String");
    Keyword("LowCardinality");
    PlainName("String");
    var inner := Nullability(b.nullable, "String");
    MaybeNullable(b.nullable, "String");
    TextOf(inner);
    Wrapped("LowCardinality", inner);
    assert "LowCardinality" + "(" + inner + ")" == "LowCardinality(" + inner + ")";
  }

  lemma TextOf(s: string)
    requires IsTypeName(s)
    ensures IsTypeText(s)
  {
  }

  lemma NullableNothing()
    ensures Nullability(true, "Nothing") == "Nullable(Nothing)"
  {
  }

  /** Whatever a parameter is bound to, its type is a word that no escape sequence begins with, followed by
      nothing or by a list in parentheses, and it holds no brace, quote or '@'. */
  lemma ParameterTypesAreNames(bindings: seq<Bound>, i: nat)
    requires ParameterType(bindings, i).Some?
    ensures IsTypeName(ParameterType(bindings, i).value)
  {
    hide IsTypeName, IsParameterName, SqlName, CName, DecimalType, BinaryType, LowCardinalityString, Nullability;
    if i < |bindings| {
      var b := bindings[i];
      SqlNames(b.sqlType);
      CNames(b.cType);
      DecimalTypes(b);
      BinaryTypes(b);
      LowCardinalityTypes(b);
      MaybeNullable(b.nullable, SqlName(b.sqlType));
      MaybeNullable(b.nullable, CName(b.cType));
      MaybeNullable(b.nullable, DecimalType(b));
      MaybeNullable(b.nullable, BinaryType(b));
    } else {
      Keyword("Nothing");
      PlainName("Nothing");
      MaybeNullable(true, "Nothing");
      NullableNothing();
    }
  }

  // -------- what the types hold

  /** What a type holds. Shared strings are stored in a dictionary; an instant has so many digits behind the seconds. */
  datatype Kind =
    | Nothing | Characters | SharedCharacters | Whole(bits: nat, signed: bool) | Floating(bits: nat)
    | Exact(precision: int, scale: int) | Fixed(size: int) | Unique | Day | Instant(digits: nat)

  function Spelling(k: Kind): string {
    match k
    case Nothing => "Nothing"
    case Characters => "String"
    case SharedCharacters => "String"
    case Whole(bits, signed) => (if signed then "Int" else "UInt") + Decimal(bits)
    case Floating(bits) => "Float" + Decimal(bits)
    case Exact(precision, scale) => "Decimal(" + Signed(precision) + ", " + Signed(scale) + ")"
    case Fixed(size) => "FixedString(" + Signed(size) + ")"
    case Unique => "UUID"
    case Day => "Date32"
    case Instant(digits) => if digits == 0 then "DateTime" else "DateTime64(" + Decimal(digits) + ")"
  }

  /** The type of values of a kind, with NULL among them or without. */
  function TypeOfKind(k: Kind, nullable: bool): string {
    var inner := if nullable then "Nullable(" + Spelling(k) + ")" else Spelling(k);
    if k == SharedCharacters then "LowCardinality(" + inner + ")" else inner
  }

  /** What a column of an SQL type holds, as the ODBC standard says: whole numbers of one, two, four and eight bytes,
      floating-point numbers of four and eight, and so on. */
  function KindOfSql(b: Bound): Option<Kind> {
    match b.sqlType
    case SqlNull => Some(Nothing)
    case SqlBit => Some(Whole(8, false))
    case SqlTinyInt => Some(Whole(8 * 1, true))
    case SqlSmallInt => Some(Whole(8 * 2, true))
    case SqlInteger => Some(Whole(8 * 4, true))
    case SqlBigInt => Some(Whole(8 * 8, true))
    case SqlReal => Some(Floating(8 * 4))
    case SqlDouble => Some(Floating(8 * 8))
    case SqlNumeric => Some(Exact(b.precision, b.scale))
    case SqlBinary => Some(if b.maxSize > 0 then Fixed(b.maxSize) else Characters)
    case SqlChar | SqlLongVarchar | SqlLongVarBinary => Some(Characters)
    case SqlVarchar | SqlVarBinary | SqlTime | SqlInterval => Some(SharedCharacters)
    case SqlGuid => Some(Unique)
    case SqlDate => Some(Day)
    case SqlTimestamp => Some(Instant(9))
    case SqlOther => None
  }

  /** What a C variable holds. */
  function KindOfC(b: Bound): Option<Kind> {
    match b.cType
    case CBit => Some(Whole(8, false))
    case CTinyInt => Some(Whole(8 * 1, true))
    case CUTinyInt => Some(Whole(8 * 1, false))
    case CShort => Some(Whole(8 * 2, true))
    case CUShort => Some(Whole(8 * 2, false))
    case CLong => Some(Whole(8 * 4, true))
    case CULong => Some(Whole(8 * 4, false))
    case CSBigInt => Some(Whole(8 * 8, true))
    case CUBigInt => Some(Whole(8 * 8, false))
    case CFloat => Some(Floating(8 * 4))
    case CDouble => Some(Floating(8 * 8))
    case CNumeric => Some(Exact(b.precision, b.scale))
    case CBinary => Some(if b.maxSize > 0 then Fixed(b.maxSize) else Characters)
    case CChar => Some(Characters)
    case CTime | CInterval => Some(SharedCharacters)
    case CGuid => Some(Unique)
    case CDate => Some(Day)
    case CTimestamp => Some(Instant(0))
    case COther => None
  }

  function KindOf(b: Bound): Option<Kind> { if KindOfSql(b).Some? then KindOfSql(b) else KindOfC(b) }

  lemma WholeSpelled(signed: bool)
    ensures Spelling(Whole(8, signed)) == (if signed then "Int8" else "UInt8")
    ensures Spelling(Whole(16, signed)) == (if signed then "Int16" else "UInt16")
    ensures Spelling(Whole(32, signed)) == (if signed then "Int32" else "UInt32")
    ensures Spelling(Whole(64, signed)) == (if signed then "Int64" else "UInt64")
  {
    Numerals();
    hide Decimal;
  }

  lemma PlainSpelled()
    ensures Spelling(Nothing) == "Nothing" && Spelling(Characters) == "String" && Spelling(SharedCharacters) == "String"
    ensures Spelling(Unique) == "UUID" && Spelling(Day) == "Date32" && Spelling(Instant(0)) == "DateTime"
  {
  }

  lemma OthersSpelled()
    ensures Spelling(Floating(32)) == "Float32" && Spelling(Floating(64)) == "Float64"
    ensures Spelling(Instant(9)) == "DateTime64(9)"
  {
    Numerals();
    hide Decimal;
  }

  lemma Numerals()
    ensures Decimal(8) == "8" && Decimal(9) == "9" && Decimal(16) == "16" && Decimal(32) == "32" && Decimal(64) == "64"
  {
    assert Decimal(1) == "1" && Decimal(3) == "3" && Decimal(6) == "6";
  }

  predicate IsNamed(t: SqlType) { t !in {SqlVarchar, SqlVarBinary, SqlTime, SqlInterval, SqlNumeric, SqlBinary,
      SqlOther} }

  lemma SqlNameSpelled(b: Bound)
    requires IsNamed(b.sqlType)
    ensures KindOfSql(b).Some? && KindOfSql(b).value != SharedCharacters
            && SqlName(b.sqlType) == Spelling(KindOfSql(b).value)
  {
    hide Spelling;
    WholeSpelled(true);
    WholeSpelled(false);
    OthersSpelled();
    PlainSpelled();
  }

  lemma SqlTypeHolds(b: Bound)
    ensures FromSqlType(b) == if KindOfSql(b).Some? then Some(TypeOfKind(KindOfSql(b).value, b.nullable)) else None
  {
    hide Decimal, Signed, SqlName;
    if IsNamed(b.sqlType) {
      SqlNameSpelled(b);
    }
  }

  lemma CTypeHolds(b: Bound)
    ensures FromCType(b) == if KindOfC(b).Some? then Some(TypeOfKind(KindOfC(b).value, b.nullable)) else None
  {
    hide Decimal, Signed;
    WholeSpelled(true);
    WholeSpelled(false);
    OthersSpelled();
  }

  /** A parameter is sent as a type that holds what its SQL type holds or, if that is not known, what its C type holds,
      and NULL exactly when it is nullable; without a binding the type has no values but NULL. */
  lemma ParameterTypeHolds(bindings: seq<Bound>, i: nat)
    ensures ParameterType(bindings, i) ==
              if i >= |bindings| then Some(TypeOfKind(Nothing, true))
              else if KindOf(bindings[i]).Some? then Some(TypeOfKind(KindOf(bindings[i]).value, bindings[i].nullable))
              else None
  {
    hide FromSqlType, FromCType, KindOfSql, KindOfC;
    if i < |bindings| {
      SqlTypeHolds(bindings[i]);
      CTypeHolds(bindings[i]);
    } else {
      NullableNothing();
    }
  }
}
