/** The functions that only get another name in ClickHouse, and the types of CONVERT. */
module EscapeNames {
  import opened Text
  import opened EscapeItems
  import opened EscapeTranslation
  import opened Lexing
  import P = ParameterTypes

  /** What a function computes of its arguments. */
  datatype Operation =
    | CodeOfFirst | CharacterOfCode | CountCharacters | Join | LowerCase | LeftPart | CountWithoutEnd | CountBytes
    | PositionIn | RepeatText | ReplaceAll | RightPart | TrimEnd | SoundexCode | MiddlePart | UpperCase
    | AbsoluteValue | ArcCosine | ArcSine | ArcTangent | ArcTangentOfPoint | RoundUp | Cosine | RadiansToDegrees
    | Exponential | RoundDown | NaturalLogarithm | DecimalLogarithm | Remainder | PiConstant | RaiseTo
    | DegreesToRadians | RandomFraction | RoundToPlaces | SignOf | Sine | SquareRoot | Tangent | CutToPlaces
    | CurrentDay | CurrentTimeOfDay | DayOfMonth | DayOfYear | ExtractPart | HourOf | MinuteOf | MonthOf
    | CurrentSecond | SecondOf | UnitsBetween | WeekOfYear | QuarterOf | YearOf | CurrentDatabase | FirstNotNull
    | CurrentUser | CurrentMoment

  function LengthOperation(name: string): Option<Operation> {
    if name == "ASCII" then Some(CodeOfFirst)
    else if name == "CHAR" then Some(CharacterOfCode)
    else if name == "CHAR_LENGTH" then Some(CountCharacters)
    else if name == "CHARACTER_LENGTH" then Some(CountCharacters)
    else if name == "CONCAT" then Some(Join)
    else if name == "LCASE" then Some(LowerCase)
    else if name == "LEFT" then Some(LeftPart)
    else if name == "LENGTH" then Some(CountWithoutEnd)
    else None
  }

  function PartOperation(name: string): Option<Operation> {
    if name == "OCTET_LENGTH" then Some(CountBytes)
    else if name == "POSITION" then Some(PositionIn)
    else if name == "REPEAT" then Some(RepeatText)
    else if name == "REPLACE" then Some(ReplaceAll)
    else if name == "RIGHT" then Some(RightPart)
    else if name == "RTRIM" then Some(TrimEnd)
    else None
  }

  function CaseOperation(name: string): Option<Operation> {
    if name == "SOUNDEX" then Some(SoundexCode)
    else if name == "SUBSTRING" then Some(MiddlePart)
    else if name == "UCASE" then Some(UpperCase)
    else if name == "LOWER" then Some(LowerCase)
    else if name == "UPPER" then Some(UpperCase)
    else None
  }

  function ArcOperation(name: string): Option<Operation> {
    if name == "ABS" then Some(AbsoluteValue)
    else if name == "ACOS" then Some(ArcCosine)
    else if name == "ASIN" then Some(ArcSine)
    else if name == "ATAN" then Some(ArcTangent)
    else if name == "ATAN2" then Some(ArcTangentOfPoint)
    else if name == "CEILING" then Some(RoundUp)
    else None
  }

  function PowerOperation(name: string): Option<Operation> {
    if name == "COS" then Some(Cosine)
    else if name == "DEGREES" then Some(RadiansToDegrees)
    else if name == "EXP" then Some(Exponential)
    else if name == "FLOOR" then Some(RoundDown)
    else if name == "LOG" then Some(NaturalLogarithm)
    else None
  }

  function RemainderOperation(name: string): Option<Operation> {
    if name == "LOG10" then Some(DecimalLogarithm)
    else if name == "MOD" then Some(Remainder)
    else if name == "PI" then Some(PiConstant)
    else if name == "POWER" then Some(RaiseTo)
    else if name == "RADIANS" then Some(DegreesToRadians)
    else if name == "RAND" then Some(RandomFraction)
    else None
  }

  function RoundOperation(name: string): Option<Operation> {
    if name == "ROUND" then Some(RoundToPlaces)
    else if name == "SIGN" then Some(SignOf)
    else if name == "SIN" then Some(Sine)
    else if name == "SQRT" then Some(SquareRoot)
    else if name == "TAN" then Some(Tangent)
    else if name == "TRUNCATE" then Some(CutToPlaces)
    else None
  }

  function NowOperation(name: string): Option<Operation> {
    if name == "CURRENT_DATE" then Some(CurrentDay)
    else if name == "CURDATE" then Some(CurrentDay)
    else if name == "CURTIME" then Some(CurrentTimeOfDay)
    else if name == "DAYOFMONTH" then Some(DayOfMonth)
    else if name == "DAYOFYEAR" then Some(DayOfYear)
    else if name == "EXTRACT" then Some(ExtractPart)
    else None
  }

  function ClockOperation(name: string): Option<Operation> {
    if name == "HOUR" then Some(HourOf)
    else if name == "MINUTE" then Some(MinuteOf)
    else if name == "MONTH" then Some(MonthOf)
    else if name == "NOW" then Some(CurrentSecond)
    else if name == "SECOND" then Some(SecondOf)
    else if name == "TIMESTAMPDIFF" then Some(UnitsBetween)
    else None
  }

  function CalendarOperation(name: string): Option<Operation> {
    if name == "WEEK" then Some(WeekOfYear)
    else if name == "QUARTER" then Some(QuarterOf)
    else if name == "YEAR" then Some(YearOf)
    else if name == "DATABASE" then Some(CurrentDatabase)
    else if name == "IFNULL" then Some(FirstNotNull)
    else if name == "USER" then Some(CurrentUser)
    else None
  }

  /** ODBC's names. LENGTH leaves the blanks at the end out, CURTIME is a time of day. */
  function OdbcOperation(name: string): Option<Operation> {
    if LengthOperation(name).Some? then LengthOperation(name)
    else if PartOperation(name).Some? then PartOperation(name)
    else if CaseOperation(name).Some? then CaseOperation(name)
    else if ArcOperation(name).Some? then ArcOperation(name)
    else if PowerOperation(name).Some? then PowerOperation(name)
    else if RemainderOperation(name).Some? then RemainderOperation(name)
    else if RoundOperation(name).Some? then RoundOperation(name)
    else if NowOperation(name).Some? then NowOperation(name)
    else if ClockOperation(name).Some? then ClockOperation(name)
    else CalendarOperation(name)
  }

  /** ClickHouse's names, DAYOFYEAR's with the blank in front of it. */
  function ClickHouseName(operation: Operation): Option<string> {
    match operation
    case CodeOfFirst => Some("ascii")
    case CharacterOfCode => Some("char")
    case CountCharacters => Some("lengthUTF8")
    case Join => Some("concat")
    case LowerCase => Some("lowerUTF8")
    case LeftPart => Some("leftUTF8")
    case CountWithoutEnd => None
    case CountBytes => Some("length")
    case PositionIn => Some("POSITION")
    case RepeatText => Some("repeat")
    case ReplaceAll => Some("replaceAll")
    case RightPart => Some("rightUTF8")
    case TrimEnd => Some("trimRight")
    case SoundexCode => Some("soundex")
    case MiddlePart => Some("substringUTF8")
    case UpperCase => Some("upperUTF8")
    case AbsoluteValue => Some("abs")
    case ArcCosine => Some("acos")
    case ArcSine => Some("asin")
    case ArcTangent => Some("atan")
    case ArcTangentOfPoint => Some("atan2")
    case RoundUp => Some("ceil")
    case Cosine => Some("cos")
    case RadiansToDegrees => Some("degrees")
    case Exponential => Some("exp")
    case RoundDown => Some("floor")
    case NaturalLogarithm => Some("log")
    case DecimalLogarithm => Some("log10")
    case Remainder => Some("modulo")
    case PiConstant => Some("pi")
    case RaiseTo => Some("pow")
    case DegreesToRadians => Some("radians")
    case RandomFraction => Some("randCanonical")
    case RoundToPlaces => Some("round")
    case SignOf => Some("sign")
    case Sine => Some("sin")
    case SquareRoot => Some("sqrt")
    case Tangent => Some("tan")
    case CutToPlaces => Some("trunc")
    case CurrentDay => Some("today")
    case CurrentTimeOfDay => None
    case DayOfMonth => Some("toDayOfMonth")
    case DayOfYear => Some(" toDayOfYear")
    case ExtractPart => Some("EXTRACT")
    case HourOf => Some("toHour")
    case MinuteOf => Some("toMinute")
    case MonthOf => Some("toMonth")
    case CurrentSecond => Some("now")
    case SecondOf => Some("toSecond")
    case UnitsBetween => Some("dateDiff")
    case WeekOfYear => Some("toISOWeek")
    case QuarterOf => Some("toQuarter")
    case YearOf => Some("toYear")
    case CurrentDatabase => Some("database")
    case FirstNotNull => Some("ifNull")
    case CurrentUser => Some("user")
    case CurrentMoment => Some("now64")
  }

  /** What ClickHouse is told to compute. */
  function Renamed(operation: Operation): Operation {
    if operation == CountWithoutEnd then CountCharacters
    else if operation == CurrentTimeOfDay then CurrentMoment
    else operation
  }

  /** The operation that ClickHouse is told to do for an operation of ODBC. */
  predicate Names(target: Option<string>, operation: Option<Operation>) {
    if operation.None? then target.None? else target.Some? && target == ClickHouseName(Renamed(operation.value))
  }

  lemma LengthTargets(name: string)
    ensures Names(LengthTarget(name), LengthOperation(name))
  {
  }

  lemma PartTargets(name: string)
    ensures Names(PartTarget(name), PartOperation(name))
  {
  }

  lemma CaseTargets(name: string)
    ensures Names(CaseTarget(name), CaseOperation(name))
  {
  }

  lemma ArcTargets(name: string)
    ensures Names(ArcTarget(name), ArcOperation(name))
  {
  }

  lemma PowerTargets(name: string)
    ensures Names(PowerTarget(name), PowerOperation(name))
  {
  }

  lemma RemainderTargets(name: string)
    ensures Names(RemainderTarget(name), RemainderOperation(name))
  {
  }

  lemma RoundTargets(name: string)
    ensures Names(RoundTarget(name), RoundOperation(name))
  {
  }

  lemma NowTargets(name: string)
    ensures Names(NowTarget(name), NowOperation(name))
  {
  }

  lemma ClockTargets(name: string)
    ensures Names(ClockTarget(name), ClockOperation(name))
  {
  }

  lemma CalendarTargets(name: string)
    ensures Names(CalendarTarget(name), CalendarOperation(name))
  {
  }

  /** A function is renamed to ClickHouse's function for the same operation, but for two: LENGTH counts the blanks at
      the end, too, and CURTIME gives the date with the time. */
  lemma TargetsMean(name: string)
    ensures Names(Target(name), OdbcOperation(name))
  {
    hide ClickHouseName, LengthTarget, PartTarget, CaseTarget, ArcTarget, PowerTarget, RemainderTarget, RoundTarget,
         NowTarget, ClockTarget, CalendarTarget, LengthOperation, PartOperation, CaseOperation, ArcOperation,
             PowerOperation, RemainderOperation, RoundOperation, NowOperation, ClockOperation, CalendarOperation;
    LengthTargets(name);
    PartTargets(name);
    CaseTargets(name);
    ArcTargets(name);
    PowerTargets(name);
    RemainderTargets(name);
    RoundTargets(name);
    NowTargets(name);
    ClockTargets(name);
    CalendarTargets(name);
  }

  /** The functions that the code handles one by one. */
  predicate IsSpecial(name: string) {
    name == "CONVERT" || name == "CURRENT_TIME" || name == "CURRENT_TIMESTAMP" || name == "TIMESTAMPADD"
    || name == "LOCATE"
  }

  /** Every function of the lexer is renamed, rewritten, or handled by itself, and there are no others. */
  lemma FunctionsExactly(name: string)
    ensures IsFunction(name) <==> OdbcOperation(name).Some? || Arity(name) > 0 || IsSpecial(name)
  {
  }

  // -------- the types of CONVERT

  /** What a value of the type holds. */
  function KindOf(name: string): Option<P.Kind> {
    if name == "SQL_TINYINT" then Some(P.Whole(8 * 1, false))
    else if name == "SQL_SMALLINT" then Some(P.Whole(8 * 2, false))
    else if name == "SQL_INTEGER" then Some(P.Whole(8 * 4, true))
    else if name == "SQL_BIGINT" then Some(P.Whole(8 * 8, true))
    else if name == "SQL_REAL" then Some(P.Floating(8 * 4))
    else if name == "SQL_DOUBLE" then Some(P.Floating(8 * 8))
    else if name == "SQL_CHAR" || name == "SQL_VARCHAR" then Some(P.Characters)
    else if name == "SQL_DATE" || name == "SQL_TYPE_DATE" then Some(P.Day)
    else if name == "SQL_TIMESTAMP" || name == "SQL_TYPE_TIMESTAMP" then Some(P.Instant(0))
    else None
  }

  /** CONVERT to a type is a cast to the ClickHouse type that holds the same; a time of day has a type of its own. */
  lemma ConvertTypeHolds(name: string)
    ensures ConvertType(name) ==
              if name == "SQL_TIME" || name == "SQL_TYPE_TIME" then Some("Time")
              else if KindOf(name).Some? then Some(P.Spelling(KindOf(name).value))
              else None
  {
    P.WholeSpelled(true);
    P.WholeSpelled(false);
    P.OthersSpelled();
    P.PlainSpelled();
    hide P.Spelling;
  }

  /** The SQL types of whole numbers. */
  function TypeNamed(name: string): Option<P.SqlType> {
    if name == "SQL_TINYINT" then Some(P.SqlTinyInt)
    else if name == "SQL_SMALLINT" then Some(P.SqlSmallInt)
    else if name == "SQL_INTEGER" then Some(P.SqlInteger)
    else if name == "SQL_BIGINT" then Some(P.SqlBigInt)
    else None
  }

  /** A parameter of such a type has as many bits as what CONVERT gives, and the same sign if and only if the type is
      one of the two larger ones: CONVERT to SQL_TINYINT and SQL_SMALLINT has no negative numbers. */
  lemma ConvertLosesSign(name: string, b: P.Bound)
    requires TypeNamed(name) == Some(b.sqlType)
    ensures KindOf(name).Some? && KindOf(name).value.Whole?
    ensures P.KindOfSql(b).Some? && P.KindOfSql(b).value.Whole? && P.KindOfSql(b).value.signed
    ensures KindOf(name).value.bits == P.KindOfSql(b).value.bits
    ensures KindOf(name) == P.KindOfSql(b) <==> name == "SQL_INTEGER" || name == "SQL_BIGINT"
  {
  }

  // -------- dates and times

  /** {d} and {ts} give values of the types that parameters of SQL_TYPE_DATE and SQL_TYPE_TIMESTAMP have, {t} one of
      the type that CONVERT to SQL_TIME gives. */
  lemma DatesMean(b: P.Bound)
    ensures DateText("D") == ("to" + P.Spelling(P.Day) + "(", ")")
    ensures b.sqlType == P.SqlDate ==> P.KindOfSql(b) == Some(P.Day)
    ensures ConvertType("SQL_TIME").Some? && DateText("T") == ("cast(", " as " + ConvertType("SQL_TIME").value + ")")
    ensures DateText("TS").0 + DateText("TS").1 == "toDateTime64(, 9)" && P.Spelling(P.Instant(9)) == "DateTime64(9)"
    ensures b.sqlType == P.SqlTimestamp ==> P.KindOfSql(b) == Some(P.Instant(9))
  {
    P.OthersSpelled();
    P.PlainSpelled();
    ConvertTypeHolds("SQL_TIME");
    hide P.Spelling, ConvertType;
    assert "to" + "Date32" + "(" == "toDate32(" && " as " + "Time" + ")" == " as Time)";
    assert "toDateTime64(" + ", 9)" == "toDateTime64(, 9)";
  }
}
