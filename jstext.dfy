/**
 * The few pieces of JavaScript string semantics the bot relies on: the set of
 * characters `\s` and `String.prototype.trim` treat as white space, the
 * UTF-16 `length`, `toLowerCase` on the ASCII letters, `includes` and `join`.
 * Characters are Unicode scalar values.
 */
module JsText {

  /** ECMAScript WhiteSpace and LineTerminator code points (the class `\s`). */
  predicate IsSpace(c: char) {
    || c == '\t' || c == '\n' || c == '\U{B}' || c == '\U{C}' || c == '\r' || c == ' '
    || c == '\U{A0}' || c == '\U{1680}' || ('\U{2000}' <= c <= '\U{200A}')
    || c == '\U{2028}' || c == '\U{2029}' || c == '\U{202F}' || c == '\U{205F}'
    || c == '\U{3000}' || c == '\U{FEFF}'
  }

  /** `string.length`: code points above U+FFFF take two UTF-16 code units. */
  function JsLength(s: string): (n: nat)
    ensures n >= |s|
    ensures n <= 2 * |s|
  {
    if s == [] then 0 else (if s[0] > '\U{FFFF}' then 2 else 1) + JsLength(s[1..])
  }

  /** `toLowerCase` restricted to ASCII letters; other characters are kept. */
  function LowerChar(c: char): (d: char)
    ensures 'A' <= c <= 'Z' ==> 'a' <= d <= 'z'
    ensures !('A' <= c <= 'Z') ==> d == c
  {
    if 'A' <= c <= 'Z' then (c as int - 'A' as int + 'a' as int) as char else c
  }

  function ToLower(s: string): (r: string)
    ensures |r| == |s|
    ensures forall i :: 0 <= i < |s| ==> r[i] == LowerChar(s[i])
  {
    if s == [] then [] else [LowerChar(s[0])] + ToLower(s[1..])
  }

  /** Concatenation regrouped, stated once so that callers need not search for it. */
  lemma ConcatAssoc(x: string, y: string, z: string)
    ensures x + y + z == x + (y + z)
  {
  }

  /** The lowercase of the upper-case spelling of the end command. */
  lemma LowercasedEndTrivia()
    ensures ToLower("ENDTRIVIA") == "endtrivia"
  {
    EndTriviaLetters();
    var l := ToLower("ENDTRIVIA");
    assert l[0] == 'e' && l[1] == 'n' && l[2] == 'd';
    assert l[3] == 't' && l[4] == 'r' && l[5] == 'i';
    assert l[6] == 'v' && l[7] == 'i' && l[8] == 'a';
    SameNine(l, "endtrivia");
  }

  /** Two strings of nine characters that agree at every position are equal. */
  lemma SameNine(x: string, y: string)
    requires |x| == 9 && |y| == 9
    requires x[0] == y[0] && x[1] == y[1] && x[2] == y[2]
    requires x[3] == y[3] && x[4] == y[4] && x[5] == y[5]
    requires x[6] == y[6] && x[7] == y[7] && x[8] == y[8]
    ensures x == y
  {
    forall i | 0 <= i < 9 ensures x[i] == y[i] {
      if i < 3 {
      } else if i < 6 {
      } else {
      }
    }
  }

  lemma EndTriviaLetters()
    ensures LowerChar('E') == 'e' && LowerChar('N') == 'n' && LowerChar('D') == 'd'
    ensures LowerChar('T') == 't' && LowerChar('R') == 'r' && LowerChar('I') == 'i'
    ensures LowerChar('V') == 'v' && LowerChar('A') == 'a'
  {
  }

  /** `haystack.includes(needle)`. */
  predicate Includes(haystack: string, needle: string)
    decreases |haystack|
  {
    || (|needle| <= |haystack| && haystack[..|needle|] == needle)
    || (haystack != [] && Includes(haystack[1..], needle))
  }

  /** `parts.join(sep)`. */
  function Join(parts: seq<string>, sep: string): (r: string)
    ensures parts == [] ==> r == ""
    ensures |parts| == 1 ==> r == parts[0]
  {
    if parts == [] then "" else if |parts| == 1 then parts[0] else parts[0] + sep + Join(parts[1..], sep)
  }

  /** The decimal digit `d`. */
  function DigitChar(d: nat): (c: char)
    requires d < 10
    ensures '0' <= c <= '9'
  {
    ('0' as int + d) as char
  }

  /** The decimal numeral of `n`, without leading zeros. */
  function Digits(n: nat): (s: string)
    ensures |s| >= 1
    ensures forall i :: 0 <= i < |s| ==> '0' <= s[i] <= '9'
    decreases n
  {
    if n < 10 then [DigitChar(n)] else Digits(n / 10) + [DigitChar(n % 10)]
  }

  /** `String(n)` (or `${n}`) for an integer `n`. */
  function NumberText(n: int): (s: string)
    ensures s != [] && (n < 0 <==> s[0] == '-')
    ensures forall i :: 0 <= i < |s| ==> s[i] == '-' || '0' <= s[i] <= '9'
  {
    if n < 0 then "-" + Digits(-n) else Digits(n)
  }

  /** The value of a string of decimal digits. */
  function DigitsValue(s: string): nat
    requires forall i :: 0 <= i < |s| ==> '0' <= s[i] <= '9'
  {
    if s == [] then 0 else DigitsValue(s[..|s| - 1]) * 10 + (s[|s| - 1] as int - '0' as int)
  }

  /** Reading a numeral back gives the number. */
  lemma {:induction false} DigitsRoundTrip(n: nat)
    ensures DigitsValue(Digits(n)) == n
    decreases n
  {
    if n >= 10 {
      DigitsRoundTrip(n / 10);
      var s := Digits(n);
      assert s[..|s| - 1] == Digits(n / 10);
    }
  }

  /** Different integers print differently. */
  lemma NumberTextInjective(a: int, b: int)
    requires NumberText(a) == NumberText(b)
    ensures a == b
  {
    if a < 0 {
      NegativeText(a);
      NegativeText(b);
      DigitsInjective(-a, -b);
    } else {
      DigitsInjective(a, b);
    }
  }

  lemma NegativeText(n: int)
    requires n < 0
    ensures NumberText(n)[1..] == Digits(-n)
  {
    var d := Digits(-n);
    assert ("-" + d)[1..] == d;
  }

  lemma DigitsInjective(a: nat, b: nat)
    requires Digits(a) == Digits(b)
    ensures a == b
  {
    DigitsRoundTrip(a);
    DigitsRoundTrip(b);
  }

  /** The number of occurrences of `c` in `s`. */
  function Count(s: string, c: char): nat {
    if s == [] then 0 else (if s[0] == c then 1 else 0) + Count(s[1..], c)
  }

  lemma {:induction false} CountAppend(a: string, b: string, c: char)
    ensures Count(a + b, c) == Count(a, c) + Count(b, c)
    decreases |a|
  {
    if a != [] {
      assert (a + b)[1..] == a[1..] + b;
      CountAppend(a[1..], b, c);
    } else {
      assert a + b == b;
    }
  }

  lemma {:induction false} CountAbsent(s: string, c: char)
    requires c !in s
    ensures Count(s, c) == 0
    decreases |s|
  {
    if s != [] {
      CountAbsent(s[1..], c);
    }
  }
}
