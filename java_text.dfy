/**
 * The parts of `java.lang.String` and `java.lang.Character` that the core relies on:
 * `equalsIgnoreCase`, `toLowerCase` and `contains` on a single character.
 *
 * Java strings are modelled as `seq<char>`.
 */
module JavaText {
  import opened Wrappers

  /**
   * `Character.toUpperCase` restricted to the characters whose mapping can make a character
   * match an ASCII letter: the ASCII lower-case letters, LATIN SMALL LETTER LONG S (U+017F)
   * and LATIN SMALL LETTER DOTLESS I (U+0131). Every other character maps to itself here.
   */
  function ToUpperCase(c: char): (u: char)
    ensures 'a' <= c <= 'z' ==> u as int == c as int - 32
    ensures !('a' <= c <= 'z') && c != 'ſ' && c != 'ı' ==> u == c
  {
    if 'a' <= c <= 'z' then (c as int - 32) as char
    else if c == 'ſ' then 'S'
    else if c == 'ı' then 'I'
    else c
  }

  /**
   * `Character.toLowerCase` restricted in the same way: the ASCII upper-case letters,
   * KELVIN SIGN (U+212A) and LATIN CAPITAL LETTER I WITH DOT ABOVE (U+0130).
   */
  function ToLowerCase(c: char): (l: char)
    ensures 'A' <= c <= 'Z' ==> l as int == c as int + 32
    ensures !('A' <= c <= 'Z') && c != 'K' && c != 'İ' ==> l == c
  {
    if 'A' <= c <= 'Z' then (c as int + 32) as char
    else if c == 'K' then 'k'
    else if c == 'İ' then 'i'
    else c
  }

  /** The per-character test of `String.regionMatches(true, ...)`, which `equalsIgnoreCase` uses. */
  predicate CharEqualsIgnoreCase(a: char, b: char) {
    a == b
    || ToUpperCase(a) == ToUpperCase(b)
    || ToLowerCase(ToUpperCase(a)) == ToLowerCase(ToUpperCase(b))
  }

  /** `s.equalsIgnoreCase(t)`: false for a null argument, otherwise same length and every position matches. */
  predicate EqualsIgnoreCase(s: string, t: Option<string>) {
    t.Some? && |s| == |t.value| && forall i :: 0 <= i < |s| ==> CharEqualsIgnoreCase(s[i], t.value[i])
  }

  /** `String.toLowerCase` on the characters above, position by position. */
  function LowerCase(s: string): (r: string)
    ensures |r| == |s|
    ensures forall i :: 0 <= i < |s| ==> r[i] == ToLowerCase(s[i])
  {
    if s == [] then [] else [ToLowerCase(s[0])] + LowerCase(s[1..])
  }

  predicate IsAsciiLetter(c: char) {
    'a' <= c <= 'z' || 'A' <= c <= 'Z'
  }

  /** A non-letter ASCII character matches only itself; a letter matches only its two cases and the specials listed above. */
  lemma CharEqualsIgnoreCaseAscii(a: char, b: char)
    requires a < '\U{80}' && b < '\U{80}'
    ensures CharEqualsIgnoreCase(a, b) <==> a == b || (IsAsciiLetter(a) && IsAsciiLetter(b) && ToLowerCase(a) == ToLowerCase(b))
  {
  }

  /** Case-insensitive equality is reflexive whatever the string. */
  lemma {:induction false} EqualsIgnoreCaseReflexive(s: string)
    ensures EqualsIgnoreCase(s, Some(s))
  {
  }

  /** Two strings that differ in length never match, whatever their characters. */
  lemma EqualsIgnoreCaseLength(s: string, t: string)
    requires EqualsIgnoreCase(s, Some(t))
    ensures |s| == |t|
  {
  }

  predicate IsAscii(s: string) {
    forall i :: 0 <= i < |s| ==> s[i] < '\U{80}'
  }

  /** Between ASCII strings, case-insensitive equality is equality of the lower-cased strings. */
  lemma {:induction false} EqualsIgnoreCaseAsciiLower(s: string, t: string)
    requires IsAscii(s) && IsAscii(t)
    ensures EqualsIgnoreCase(s, Some(t)) <==> LowerCase(s) == LowerCase(t)
  {
    if EqualsIgnoreCase(s, Some(t)) {
      forall i | 0 <= i < |s| ensures LowerCase(s)[i] == LowerCase(t)[i] {
        CharEqualsIgnoreCaseAscii(s[i], t[i]);
      }
    }
    if LowerCase(s) == LowerCase(t) {
      assert |s| == |t|;
      forall i | 0 <= i < |s| ensures CharEqualsIgnoreCase(s[i], t[i]) {
        assert LowerCase(s)[i] == LowerCase(t)[i];
        CharEqualsIgnoreCaseAscii(s[i], t[i]);
      }
    }
  }

  /** `s.contains(String.valueOf(c))` for a single character. */
  predicate ContainsChar(s: string, c: char) {
    c in s
  }

  /** Every character matches its own lower-case form, so a string matches its `LowerCase`. */
  lemma {:induction false} EqualsIgnoreCaseLowerCase(s: string)
    ensures EqualsIgnoreCase(s, Some(LowerCase(s)))
  {
    forall i | 0 <= i < |s| ensures CharEqualsIgnoreCase(s[i], LowerCase(s)[i]) {
      var c := s[i];
      assert LowerCase(s)[i] == ToLowerCase(c);
      if 'A' <= c <= 'Z' {
        assert ToUpperCase(ToLowerCase(c)) == c;
      }
    }
  }

  /** String concatenation `"..." + value` of a nullable `String`: `null` prints as "null". */
  function TextOf(value: Option<string>): string {
    if value.None? then "null" else value.value
  }

  /** The ASCII digit for `d`. */
  function DigitChar(d: nat): (c: char)
    requires d < 10
    ensures '0' <= c <= '9' && c as int - '0' as int == d
  {
    ('0' as int + d) as char
  }

  /** `Long.toString` of a non-negative number: its decimal digits, most significant first, no leading zero. */
  function NaturalText(n: nat): (r: string)
    ensures |r| > 0
    ensures forall i :: 0 <= i < |r| ==> '0' <= r[i] <= '9'
    ensures r[0] == '0' ==> n == 0
    decreases n
  {
    if n < 10 then [DigitChar(n)] else NaturalText(n / 10) + [DigitChar(n % 10)]
  }

  /** `Long.toString` / `Integer.toString` and the string form of an `Integer` in a concatenation. */
  function IntegerText(n: int): (r: string)
    ensures |r| > 0
  {
    if n < 0 then "-" + NaturalText(-n) else NaturalText(n)
  }
}
