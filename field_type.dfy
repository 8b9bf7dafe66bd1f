/**
 * `FieldType`: a tagged union of column types, each with its own `parse` from the textual form
 * of a filter value to a typed value.
 */
module FieldTypes {
  import opened Wrappers
  import opened JavaText

  datatype FieldType = BOOLEAN | CHAR | DATE | DOUBLE | INTEGER | LONG | UUID | STRING

  /** A `java.util.UUID`: two 64-bit halves. */
  datatype Uuid = Uuid(mostSignificantBits: bv64, leastSignificantBits: bv64)

  /** A `java.time.Instant`. */
  datatype Instant = Instant(epochSecond: int, nano: int)

  /** The `Object` that `parse` returns; `Null` is Java's `null`. */
  datatype Value =
    | Null
    | BooleanValue(b: bool)
    | CharValue(c: char)
    | DateValue(instant: Instant)
    | DoubleValue(bits: bv64)
    | IntegerValue(i: int)
    | LongValue(l: int)
    | UuidValue(uuid: Uuid)
    | StringValue(s: string)

  /** The exceptions that escape `parse`. */
  datatype ParseException = NullPointerException | StringIndexOutOfBoundsException | NumberFormatException

  /**
   * The library parsers that `parse` calls and whose grammar is not part of this model; `None` is the
   * exception each raises on malformed input (`IllegalArgumentException` for UUID, `DateTimeParseException`
   * for the two date parsers, `NumberFormatException` for `Double.valueOf`).
   */
  datatype Libraries = Libraries(
    uuidFromString: string -> Option<Uuid>,
    instantParse: string -> Option<Instant>,
    patternParse: string -> Option<Instant>,
    doubleValueOf: string -> Option<bv64>)

  const IntegerMin: int := -0x8000_0000
  const IntegerMax: int := 0x7FFF_FFFF
  const LongMin: int := -0x8000_0000_0000_0000
  const LongMax: int := 0x7FFF_FFFF_FFFF_FFFF

  /** The date pattern used for inputs without a 'T'. */
  const LocalDatePattern: string := "dd/MM/yyyy HH:mm:ss"

  predicate IsDigit(c: char) {
    '0' <= c <= '9'
  }

  predicate IsDigits(s: string) {
    |s| > 0 && forall i :: 0 <= i < |s| ==> IsDigit(s[i])
  }

  /** The number a string of decimal digits denotes, read left to right. */
  function DigitsValue(s: string): nat
    requires forall i :: 0 <= i < |s| ==> IsDigit(s[i])
  {
    if s == [] then 0
    else
      assert IsDigit(s[|s| - 1]);
      10 * DigitsValue(s[..|s| - 1]) + (s[|s| - 1] as int - '0' as int)
  }

  /** The text after one leading sign, if there is one. */
  function Unsigned(s: string): string
    requires |s| > 0
  {
    if s[0] == '-' || s[0] == '+' then s[1..] else s
  }

  /** The signed number a sign-and-digits text denotes; "-0" is 0. */
  function SignedValue(s: string): int
    requires |s| > 0 && IsDigits(Unsigned(s))
  {
    var magnitude: int := DigitsValue(Unsigned(s));
    if s[0] == '-' then -magnitude else magnitude
  }

  /**
   * `Integer.parseInt(s, 10)` and `Long.parseLong(s, 10)` with the type's range `min..max`: an optional
   * leading '-' or '+', then at least one decimal digit (leading zeros allowed), and a value inside the
   * range. Every such text is accepted, and nothing else.
   */
  function ParseDecimal(s: string, min: int, max: int): (r: Option<int>)
    ensures r.Some? <==> |s| > 0 && IsDigits(Unsigned(s)) && min <= SignedValue(s) <= max
    ensures r.Some? ==> r.value == SignedValue(s) && min <= r.value <= max
  {
    if |s| == 0 then None
    else
      var negative := s[0] == '-';
      var digits := if s[0] == '-' || s[0] == '+' then s[1..] else s;
      if !IsDigits(digits) then None
      else
        var magnitude: int := DigitsValue(digits);
        var v := if negative then -magnitude else magnitude;
        if min <= v <= max then Some(v) else None
  }

  /** `FieldType.parse`: one decoder per variant; exceptions that escape become `Err`. */
  function Parse(t: FieldType, value: Option<string>, lib: Libraries): (r: Result<Value, ParseException>)
    ensures t in {BOOLEAN, DATE, STRING} ==> r.Ok?
    ensures t == UUID ==> (r.Err? <==> value.None?)
    ensures t == CHAR ==> (r.Ok? <==> value.Some? && |value.value| > 0)
    ensures r.Ok? && t == INTEGER ==> r.value.IntegerValue? && IntegerMin <= r.value.i <= IntegerMax
    ensures r.Ok? && t == LONG ==> r.value.LongValue? && LongMin <= r.value.l <= LongMax
  {
    match t
    case BOOLEAN =>
      // Boolean.valueOf(s) is "true".equalsIgnoreCase(s), false for null.
      Ok(BooleanValue(EqualsIgnoreCase("true", value)))
    case CHAR =>
      if value.None? then Err(NullPointerException)
      else if |value.value| == 0 then Err(StringIndexOutOfBoundsException)
      else Ok(CharValue(value.value[0]))
    case DATE =>
      // Every exception, the NullPointerException of `value.contains` included, is caught and logged.
      if value.None? then Ok(Null)
      else
        var parsed := if ContainsChar(value.value, 'T') then lib.instantParse(value.value)
                      else lib.patternParse(value.value);
        Ok(if parsed.Some? then DateValue(parsed.value) else Null)
    case DOUBLE =>
      if value.None? then Err(NullPointerException)
      else if lib.doubleValueOf(value.value).None? then Err(NumberFormatException)
      else Ok(DoubleValue(lib.doubleValueOf(value.value).value))
    case INTEGER =>
      if value.None? then Err(NumberFormatException)
      else if ParseDecimal(value.value, IntegerMin, IntegerMax).None? then Err(NumberFormatException)
      else Ok(IntegerValue(ParseDecimal(value.value, IntegerMin, IntegerMax).value))
    case LONG =>
      if value.None? then Err(NumberFormatException)
      else if ParseDecimal(value.value, LongMin, LongMax).None? then Err(NumberFormatException)
      else Ok(LongValue(ParseDecimal(value.value, LongMin, LongMax).value))
    case UUID =>
      // Only IllegalArgumentException is caught; UUID.fromString(null) throws NullPointerException.
      if value.None? then Err(NullPointerException)
      else
        var parsed := lib.uuidFromString(value.value);
        Ok(if parsed.Some? then UuidValue(parsed.value) else Null)
    case STRING =>
      Ok(if value.None? then Null else StringValue(value.value))
  }

  /** BOOLEAN: true exactly for "true" in any mix of cases, false for everything else and for null. */
  lemma BooleanParse(s: string, lib: Libraries)
    ensures Parse(BOOLEAN, Some(s), lib) == Ok(BooleanValue(LowerCase(s) == "true"))
    ensures Parse(BOOLEAN, None, lib) == Ok(BooleanValue(false))
  {
    if |s| == 4 {
      forall i | 0 <= i < 4 ensures CharEqualsIgnoreCase("true"[i], s[i]) <==> LowerCase(s)[i] == "true"[i] {
        assert LowerCase(s)[i] == ToLowerCase(s[i]);
      }
    }
  }

  /** CHAR: the first character of a non-empty string. */
  lemma CharParse(s: string, lib: Libraries)
    requires |s| > 0
    ensures Parse(CHAR, Some(s), lib) == Ok(CharValue(s[0]))
    ensures Parse(CHAR, Some([]), lib) == Err(StringIndexOutOfBoundsException)
  {
  }

  /** STRING: the input comes back unchanged. */
  lemma StringParse(s: string, lib: Libraries)
    ensures Parse(STRING, Some(s), lib) == Ok(StringValue(s))
  {
  }

  /** Reading back the decimal text of a natural number gives the number. */
  lemma {:induction false} DigitsValueOfNaturalText(n: nat)
    ensures IsDigits(NaturalText(n)) && DigitsValue(NaturalText(n)) == n
    decreases n
  {
    var t := NaturalText(n);
    if n >= 10 {
      DigitsValueOfNaturalText(n / 10);
      assert t[..|t| - 1] == NaturalText(n / 10);
    }
  }

  lemma ParseDecimalOfNatural(n: nat, min: int, max: int)
    requires min <= n <= max
    ensures ParseDecimal(NaturalText(n), min, max) == Some(n)
  {
    var t := NaturalText(n);
    DigitsValueOfNaturalText(n);
    assert '0' <= t[0] <= '9';
  }

  lemma ParseDecimalOfNegative(n: int, min: int, max: int)
    requires n < 0 && min <= n <= max
    ensures ParseDecimal("-" + NaturalText(-n), min, max) == Some(n)
  {
    var digits := NaturalText(-n);
    var t := "-" + digits;
    DigitsValueOfNaturalText(-n);
    assert t[0] == '-' && t[1..] == digits;
    assert IsDigits(t[1..]) && DigitsValue(t[1..]) == -n;
  }

  /** `parseInt(Integer.toString(n))` is `n` for every `n` inside the range. */
  lemma ParseDecimalOfText(n: int, min: int, max: int)
    requires min <= n <= max
    ensures ParseDecimal(IntegerText(n), min, max) == Some(n)
  {
    if n < 0 {
      ParseDecimalOfNegative(n, min, max);
    } else {
      ParseDecimalOfNatural(n, min, max);
    }
  }

  /** INTEGER and LONG read back the canonical decimal text of every value of their range. */
  lemma NumberRoundTrip(n: int, lib: Libraries)
    ensures IntegerMin <= n <= IntegerMax ==> Parse(INTEGER, Some(IntegerText(n)), lib) == Ok(IntegerValue(n))
    ensures LongMin <= n <= LongMax ==> Parse(LONG, Some(IntegerText(n)), lib) == Ok(LongValue(n))
  {
    if IntegerMin <= n <= IntegerMax {
      ParseDecimalOfText(n, IntegerMin, IntegerMax);
    }
    if LongMin <= n <= LongMax {
      ParseDecimalOfText(n, LongMin, LongMax);
    }
  }

  /** One past the top of the range is a NumberFormatException, for INTEGER and for LONG. */
  lemma NumberOverflow(lib: Libraries)
    ensures Parse(INTEGER, Some(IntegerText(IntegerMax + 1)), lib) == Err(NumberFormatException)
    ensures Parse(LONG, Some(IntegerText(LongMax + 1)), lib) == Err(NumberFormatException)
  {
    DigitsValueOfNaturalText(IntegerMax + 1);
    DigitsValueOfNaturalText(LongMax + 1);
  }

  /** A sign alone, the empty string and null are rejected. */
  lemma NumberMalformed(lib: Libraries)
    ensures Parse(INTEGER, Some("-"), lib) == Err(NumberFormatException)
    ensures Parse(INTEGER, Some("+"), lib) == Err(NumberFormatException)
    ensures Parse(INTEGER, Some(""), lib) == Err(NumberFormatException)
    ensures Parse(INTEGER, None, lib) == Err(NumberFormatException)
  {
  }

  /** One below the bottom of the range is a NumberFormatException, for INTEGER and for LONG. */
  lemma NumberUnderflow(lib: Libraries)
    ensures Parse(INTEGER, Some(IntegerText(IntegerMin - 1)), lib) == Err(NumberFormatException)
    ensures Parse(LONG, Some(IntegerText(LongMin - 1)), lib) == Err(NumberFormatException)
  {
    DigitsValueOfNaturalText(-(IntegerMin - 1));
    DigitsValueOfNaturalText(-(LongMin - 1));
    assert Unsigned(IntegerText(IntegerMin - 1)) == NaturalText(-(IntegerMin - 1));
    assert Unsigned(IntegerText(LongMin - 1)) == NaturalText(-(LongMin - 1));
  }

  /** Texts other than the canonical one: a '+' sign, leading zeros and "-0" are read as their value. */
  lemma NumberNonCanonical(lib: Libraries)
    ensures Parse(INTEGER, Some("+5"), lib) == Ok(IntegerValue(5))
    ensures Parse(INTEGER, Some("007"), lib) == Ok(IntegerValue(7))
    ensures Parse(INTEGER, Some("-0"), lib) == Ok(IntegerValue(0))
    ensures Parse(LONG, Some("+5"), lib) == Ok(LongValue(5))
  {
    assert Unsigned("+5") == "5" && DigitsValue("5") == 5;
    assert "007"[..2] == "00" && "00"[..1] == "0";
    assert Unsigned("-0") == "0" && DigitsValue("0") == 0;
  }

  /** UUID: a malformed string yields null instead of an exception. */
  lemma UuidParse(s: string, lib: Libraries)
    ensures lib.uuidFromString(s).None? ==> Parse(UUID, Some(s), lib) == Ok(Null)
    ensures lib.uuidFromString(s).Some? ==> Parse(UUID, Some(s), lib) == Ok(UuidValue(lib.uuidFromString(s).value))
  {
  }

  /** DATE: input with a 'T' takes the ISO-8601 parser, other input the local pattern; failure is null. */
  lemma DateParse(s: string, lib: Libraries)
    ensures 'T' in s ==> Parse(DATE, Some(s), lib) == Ok(if lib.instantParse(s).Some? then DateValue(lib.instantParse(s).value) else Null)
    ensures 'T' !in s ==> Parse(DATE, Some(s), lib) == Ok(if lib.patternParse(s).Some? then DateValue(lib.patternParse(s).value) else Null)
    ensures Parse(DATE, None, lib) == Ok(Null)
  {
  }
}
