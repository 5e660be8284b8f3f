/** The JavaScript string primitives the flashcard code relies on:
    `String.prototype.trim`, `toLowerCase` (as used to compare a category with
    "all"), `.length` (which counts UTF-16 code units), and the decimal
    spelling of an integer. */
module JsText {

  /** The code points `trim` strips: ECMAScript WhiteSpace and LineTerminator. */
  predicate IsWhitespace(c: char) {
    || c == '\t' || c == '\n' || c == '\U{000B}' || c == '\U{000C}' || c == '\r'
    || c == ' ' || c == '\U{00A0}' || c == '\U{1680}'
    || ('\U{2000}' <= c <= '\U{200A}')
    || c == '\U{2028}' || c == '\U{2029}' || c == '\U{202F}' || c == '\U{205F}'
    || c == '\U{3000}' || c == '\U{FEFF}'
  }

  predicate AllWhitespace(s: string) {
    forall i :: 0 <= i < |s| ==> IsWhitespace(s[i])
  }

  /** Number of whitespace characters that open `s`. */
  function LeadingWhitespace(s: string): (n: nat)
    ensures n <= |s|
    ensures forall i :: 0 <= i < n ==> IsWhitespace(s[i])
    ensures n < |s| ==> !IsWhitespace(s[n])
  {
    if s == [] || !IsWhitespace(s[0]) then 0 else 1 + LeadingWhitespace(s[1..])
  }

  /** Number of whitespace characters that close `s`. */
  function TrailingWhitespace(s: string): (n: nat)
    ensures n <= |s|
    ensures forall i :: |s| - n <= i < |s| ==> IsWhitespace(s[i])
    ensures n < |s| ==> !IsWhitespace(s[|s| - 1 - n])
  {
    if s == [] || !IsWhitespace(s[|s| - 1]) then 0 else 1 + TrailingWhitespace(s[..|s| - 1])
  }

  /** `s.trim()`: `s` without its leading and trailing whitespace. The result
      is empty exactly for blank text, and otherwise neither starts nor ends
      with whitespace. */
  function Trim(s: string): (r: string)
    ensures |r| <= |s|
    ensures r == [] <==> AllWhitespace(s)
    ensures r != [] ==> !IsWhitespace(r[0]) && !IsWhitespace(r[|r| - 1])
  {
    var lead := LeadingWhitespace(s);
    if lead == |s| then
      assert s[..lead] == s;
      []
    else
      s[lead..|s| - TrailingWhitespace(s)]
  }

  /** The trimmed text is a contiguous part of `s`, and what was cut off on
      either side of it is whitespace only. */
  lemma TrimCutsWhitespace(s: string)
    ensures var r, lead := Trim(s), LeadingWhitespace(s);
      && lead + |r| <= |s|
      && r == s[lead..lead + |r|]
      && AllWhitespace(s[..lead])
      && AllWhitespace(s[lead + |r|..])
  {
    var lead := LeadingWhitespace(s);
    if lead == |s| {
      assert s[lead..] == [];
    }
  }

  /** Trimming twice is trimming once. */
  lemma TrimIdempotent(s: string)
    ensures Trim(Trim(s)) == Trim(s)
  {
    var r := Trim(s);
    if r != [] {
      assert LeadingWhitespace(r) == 0 && TrailingWhitespace(r) == 0;
      assert r[0..|r|] == r;
    }
  }

  /** `.length` of a JavaScript string: characters outside the Basic
      Multilingual Plane are stored as a surrogate pair and count twice. */
  function Utf16Length(s: string): (n: nat)
    ensures |s| <= n <= 2 * |s|
    ensures n == 0 <==> s == []
    ensures |s| == 1 ==> n == if s[0] as int > 0xFFFF then 2 else 1
  {
    if s == [] then 0
    else (if s[0] as int > 0xFFFF then 2 else 1) + Utf16Length(s[1..])
  }

  /** The code units of two strings put together are those of each. With the
      count of a single character, this fixes `.length` for every string. */
  lemma {:induction false} Utf16LengthAppend(a: string, b: string)
    ensures Utf16Length(a + b) == Utf16Length(a) + Utf16Length(b)
  {
    if a != [] {
      assert (a + b)[0] == a[0];
      assert (a + b)[1..] == a[1..] + b;
      Utf16LengthAppend(a[1..], b);
    } else {
      assert a + b == b;
    }
  }

  /** On text of the Basic Multilingual Plane, `.length` is the number of characters. */
  lemma {:induction false} Utf16LengthOfBmp(s: string)
    requires forall i :: 0 <= i < |s| ==> s[i] as int <= 0xFFFF
    ensures Utf16Length(s) == |s|
  {
    if s != [] {
      Utf16LengthOfBmp(s[1..]);
    }
  }

  function LowerChar(c: char): char {
    if 'A' <= c <= 'Z' then (c as int + 32) as char else c
  }

  /** `s.toLowerCase()` on ASCII letters; every other character is kept. */
  function ToLower(s: string): string {
    seq(|s|, i requires 0 <= i < |s| => LowerChar(s[i]))
  }

  /** `s.toLowerCase() === "all"` holds exactly for the eight spellings of
      "all" in any mix of upper and lower case. */
  lemma LowerIsAll(s: string)
    ensures ToLower(s) == "all" <==>
      && |s| == 3
      && (s[0] == 'a' || s[0] == 'A')
      && (s[1] == 'l' || s[1] == 'L')
      && (s[2] == 'l' || s[2] == 'L')
  {
    var t := ToLower(s);
    if t == "all" {
      assert t[0] == 'a' && t[1] == 'l' && t[2] == 'l';
      assert LowerChar(s[0]) == 'a' && LowerChar(s[1]) == 'l' && LowerChar(s[2]) == 'l';
    }
  }

  /** The character of decimal digit `d`. */
  function DigitChar(d: nat): char
    requires d < 10
  {
    ('0' as int + d) as char
  }

  /** The digit a character stands for. */
  function DigitValue(c: char): nat
    requires '0' <= c <= '9'
  {
    c as int - '0' as int
  }

  predicate Digits(r: string) {
    forall i :: 0 <= i < |r| ==> '0' <= r[i] <= '9'
  }

  /** The number a string of decimal digits spells, most significant digit first. */
  function DecimalValue(r: string): nat
    requires Digits(r)
  {
    if r == [] then 0 else 10 * DecimalValue(r[..|r| - 1]) + DigitValue(r[|r| - 1])
  }

  /** Decimal spelling of a natural number, most significant digit first,
      without leading zeros. */
  function NatToDecimal(n: nat): (r: string)
    ensures 1 <= |r|
    ensures Digits(r)
    ensures |r| > 1 ==> r[0] != '0'
  {
    if n < 10 then [DigitChar(n)] else NatToDecimal(n / 10) + [DigitChar(n % 10)]
  }

  /** The spelling reads back as the number it spells. */
  lemma {:induction false} NatToDecimalValue(n: nat)
    ensures DecimalValue(NatToDecimal(n)) == n
  {
    var r := NatToDecimal(n);
    if n >= 10 {
      assert r[..|r| - 1] == NatToDecimal(n / 10);
      NatToDecimalValue(n / 10);
    }
  }

  /** A digit string without leading zero that starts with a non-zero digit
      spells a positive number. */
  lemma {:induction false} LeadingDigitPositive(r: string)
    requires r != [] && Digits(r) && r[0] != '0'
    ensures DecimalValue(r) >= 1
  {
    if |r| > 1 {
      LeadingDigitPositive(r[..|r| - 1]);
    }
  }

  /** Conversely, every digit string without leading zeros is the spelling of
      the number it spells: the spelling is the only one. */
  lemma {:induction false} DecimalValueSpelled(r: string)
    requires Canonical(r)
    ensures NatToDecimal(DecimalValue(r)) == r
  {
    var p, d := r[..|r| - 1], DigitValue(r[|r| - 1]);
    if |r| > 1 {
      DecimalValueSpelled(p);
      LeadingDigitPositive(p);
      var n := DecimalValue(r);
      assert n == 10 * DecimalValue(p) + d;
      assert n / 10 == DecimalValue(p) && n % 10 == d;
      assert r == p + [r[|r| - 1]];
    }
  }

  /** `d` is a decimal numeral without leading zeros. */
  predicate Canonical(d: string) {
    d != [] && Digits(d) && (|d| > 1 ==> d[0] != '0')
  }

  /** `s` is the decimal spelling of the integer `n`: a minus sign exactly
      when `n` is negative, then the digits of its magnitude, without leading
      zeros. */
  predicate Spells(s: string, n: int) {
    if n < 0 then |s| >= 2 && s[0] == '-' && Canonical(s[1..]) && DecimalValue(s[1..]) == -n
    else Canonical(s) && DecimalValue(s) == n
  }

  /** An integer has one spelling only: the one `String(n)` gives. */
  lemma SpellingUnique(s: string, n: int)
    requires Spells(s, n)
    ensures s == IntToDecimal(n)
  {
    if n < 0 {
      DecimalValueSpelled(s[1..]);
      assert s == "-" + s[1..];
    } else {
      DecimalValueSpelled(s);
    }
  }

  /** `String(n)` for an integer: a minus sign before the magnitude when negative. */
  function IntToDecimal(n: int): (r: string)
    ensures r != []
    ensures r[0] == '-' <==> n < 0
    ensures Spells(r, n)
  {
    if n < 0 then
      NatToDecimalValue(-n);
      assert ("-" + NatToDecimal(-n))[1..] == NatToDecimal(-n);
      "-" + NatToDecimal(-n)
    else
      NatToDecimalValue(n);
      NatToDecimal(n)
  }
}
