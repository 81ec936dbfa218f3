/**
 * The pieces of JavaScript's string and number semantics that the services rely on:
 * the `\s`, `\d` and `\b` character classes of its regular expressions, `toLowerCase`,
 * `includes`, `trim`, UTF-16 `length`, `parseFloat`, `parseInt` and `Number`.
 */
module JsText {

  /** The characters JavaScript's `\s` and `String.prototype.trim` treat as white space. */
  predicate IsSpace(c: char) {
    c == '\t' || c == '\n' || c == '\U{B}' || c == '\U{C}' || c == '\r' || c == ' ' ||
    c == '\U{A0}' || c == '\U{1680}' || ('\U{2000}' <= c <= '\U{200A}') ||
    c == '\U{2028}' || c == '\U{2029}' || c == '\U{202F}' || c == '\U{205F}' ||
    c == '\U{3000}' || c == '\U{FEFF}'
  }

  /** `\d`: the ASCII digits only. */
  predicate IsDigit(c: char) { '0' <= c <= '9' }

  predicate IsAsciiLetter(c: char) { 'a' <= c <= 'z' || 'A' <= c <= 'Z' }

  /** The characters `\b` counts as word characters: `[A-Za-z0-9_]`. */
  predicate IsWordChar(c: char) { IsAsciiLetter(c) || IsDigit(c) || c == '_' }

  predicate IsAsciiUpper(c: char) { 'A' <= c <= 'Z' }

  /** Upper-case letters of the Latin-1 Supplement (U+00C0..U+00DE, except the multiplication sign). */
  predicate IsLatin1Upper(c: char) { '\U{C0}' <= c <= '\U{DE}' && c != '\U{D7}' }

  /**
   * `toLowerCase` on one character, for ASCII and Latin-1 letters: both blocks place the
   * lower-case letter 32 code points above the upper-case one.
   */
  function ToLowerChar(c: char): (r: char)
    ensures IsAsciiUpper(c) || IsLatin1Upper(c) ==> r as int == c as int + 32
    ensures !(IsAsciiUpper(c) || IsLatin1Upper(c)) ==> r == c
    ensures !IsAsciiUpper(r) && !IsLatin1Upper(r)
  {
    if IsAsciiUpper(c) || IsLatin1Upper(c) then (c as int + 32) as char else c
  }

  /** `s.toLowerCase()`. */
  function Lower(s: string): (r: string)
    ensures |r| == |s|
    ensures forall i :: 0 <= i < |s| ==> r[i] == ToLowerChar(s[i])
  {
    seq(|s|, i requires 0 <= i < |s| => ToLowerChar(s[i]))
  }

  lemma {:induction false} LowerIdempotent(s: string)
    ensures Lower(Lower(s)) == Lower(s)
  {
  }

  /** `s.startsWith(prefix)`. */
  predicate StartsWith(s: string, prefix: string) {
    |prefix| <= |s| && s[..|prefix|] == prefix
  }

  /** `s.includes(sub)`, scanning left to right. */
  predicate Includes(s: string, sub: string)
    decreases |s|
  {
    StartsWith(s, sub) || (s != [] && Includes(s[1..], sub))
  }

  lemma {:induction false} LongerNotIncluded(s: string, sub: string)
    requires |sub| > |s|
    ensures !Includes(s, sub)
    decreases |s|
  {
    if s != [] {
      LongerNotIncluded(s[1..], sub);
    }
  }

  /** A text without the first character of `sub` does not include it. */
  lemma {:induction false} FirstCharMissing(s: string, sub: string)
    requires sub != [] && sub[0] !in s
    ensures !Includes(s, sub)
    decreases |s|
  {
    if s != [] {
      assert s[0] != sub[0];
      FirstCharMissing(s[1..], sub);
    }
  }

  /** `sub` occurs in `s` starting at index `i`. */
  predicate OccursAt(s: string, sub: string, i: int) {
    0 <= i && i + |sub| <= |s| && s[i..i + |sub|] == sub
  }

  /** `Includes` holds exactly when `sub` occurs at some index of `s`. */
  lemma {:induction false} IncludesIffOccurs(s: string, sub: string)
    ensures Includes(s, sub) <==> exists i :: OccursAt(s, sub, i)
    decreases |s|
  {
    if StartsWith(s, sub) {
      assert OccursAt(s, sub, 0);
    } else if s != [] {
      IncludesIffOccurs(s[1..], sub);
      if Includes(s[1..], sub) {
        var i :| OccursAt(s[1..], sub, i);
        assert s[i + 1..i + 1 + |sub|] == s[1..][i..i + |sub|];
        assert OccursAt(s, sub, i + 1);
      }
      if i :| OccursAt(s, sub, i) {
        assert i != 0;
        assert s[1..][i - 1..i - 1 + |sub|] == s[i..i + |sub|];
        assert OccursAt(s[1..], sub, i - 1);
      }
    }
  }

  /** The number of UTF-16 code units of `s`: JavaScript's `s.length`. */
  function Utf16Length(s: string): (n: nat)
    ensures |s| <= n <= 2 * |s|
  {
    if s == [] then 0 else (if s[0] as int > 0xFFFF then 2 else 1) + Utf16Length(s[1..])
  }

  /** `s.trimStart()`. */
  function TrimStart(s: string): (r: string)
    ensures |r| <= |s| && r == s[|s| - |r|..]
    ensures r == [] || !IsSpace(r[0])
    ensures forall i :: 0 <= i < |s| - |r| ==> IsSpace(s[i])
  {
    if s != [] && IsSpace(s[0]) then TrimStart(s[1..]) else s
  }

  /** `s.trimEnd()`. */
  function TrimEnd(s: string): (r: string)
    ensures |r| <= |s| && r == s[..|r|]
    ensures r == [] || !IsSpace(r[|r| - 1])
    ensures forall i :: |r| <= i < |s| ==> IsSpace(s[i])
  {
    if s != [] && IsSpace(s[|s| - 1]) then TrimEnd(s[..|s| - 1]) else s
  }

  /** `s.trim()`. */
  function Trim(s: string): string {
    TrimEnd(TrimStart(s))
  }

  // ---------------------------------------------------------------------------------------
  // Numbers

  function DigitValue(c: char): nat
    requires IsDigit(c)
  {
    c as int - '0' as int
  }

  predicate AllDigits(s: string) {
    forall i :: 0 <= i < |s| ==> IsDigit(s[i])
  }

  /** The length of the longest prefix of `s` made of digits. */
  function DigitRun(s: string): (n: nat)
    ensures n <= |s| && AllDigits(s[..n])
    ensures n < |s| ==> !IsDigit(s[n])
  {
    if s != [] && IsDigit(s[0]) then 1 + DigitRun(s[1..]) else 0
  }

  /** The value of a string of decimal digits. */
  function DigitsValue(d: string): nat
    requires AllDigits(d)
  {
    if d == [] then 0 else 10 * DigitsValue(d[..|d| - 1]) + DigitValue(d[|d| - 1])
  }

  function Pow10(k: nat): (r: nat)
    ensures r >= 1
  {
    if k == 0 then 1 else 10 * Pow10(k - 1)
  }

  /**
   * The first `places` digits of the fraction digits `d`, padded with zeros, as a whole number:
   * "9" with 4 places is 9000.
   */
  function FractionUnits(d: string, places: nat): (r: nat)
    requires AllDigits(d)
    ensures r < Pow10(places)
  {
    if places == 0 then 0
    else if d == [] then 0
    else
      var rest := FractionUnits(d[1..], places - 1);
      LeadingDigitBound(DigitValue(d[0]), Pow10(places - 1), rest);
      DigitValue(d[0]) * Pow10(places - 1) + rest
  }

  /** A digit times a power of ten, plus less than that power, stays below the next power. */
  lemma {:induction false} LeadingDigitBound(digit: nat, p: nat, rest: nat)
    requires digit <= 9 && rest < p
    ensures digit * p + rest < 10 * p
  {
    assert digit * p <= 9 * p;
  }

  /** Decimal places kept when a decimal string is read: amounts are held in 1/10000 units. */
  const Places: nat := 4
  const Scale: nat := 10000

  /** A JavaScript number read from a decimal string: a fixed-point value, or NaN. */
  datatype Decimal = Finite(units: int) | NaN

  /**
   * `parseFloat(s)`: skips leading white space, reads an optional sign, digits, and an optional
   * fraction, and ignores whatever follows; NaN when no digit can be read.
   */
  function ParseFloat(s: string): Decimal {
    var t := TrimStart(s);
    var negative := t != [] && t[0] == '-';
    var body := if t != [] && (t[0] == '-' || t[0] == '+') then t[1..] else t;
    var n := DigitRun(body);
    var rest := body[n..];
    var m := if rest != [] && rest[0] == '.' then DigitRun(rest[1..]) else 0;
    var frac := if m == 0 then "" else rest[1..][..m];
    if n == 0 && m == 0 then NaN
    else
      var magnitude := DigitsValue(body[..n]) * Scale + FractionUnits(frac, Places);
      Finite(if negative then -magnitude else magnitude)
  }

  /** A JavaScript number produced by `Number(...)` or `parseInt(...)`: an integer, or NaN. */
  datatype JsNum = Int(value: int) | NotANumber {
    /** JavaScript truthiness of a number: false for 0 and NaN. */
    predicate Truthy() { Int? && value != 0 }
  }

  /**
   * `Number(s)` for a string: white space around the literal is ignored, an empty string is 0,
   * an optionally signed run of decimal digits is its value, anything else is NaN.
   */
  function NumberOf(s: string): (r: JsNum)
    ensures Trim(s) == "" ==> r == Int(0)
  {
    var t := Trim(s);
    if t == "" then Int(0)
    else
      var negative := t[0] == '-';
      var body := if t[0] == '-' || t[0] == '+' then t[1..] else t;
      if body != "" && AllDigits(body) then
        Int(if negative then -(DigitsValue(body) as int) else DigitsValue(body))
      else NotANumber
  }

  /** A plain run of digits reads as its decimal value. */
  lemma {:induction false} NumberOfDigits(s: string)
    requires s != [] && AllDigits(s)
    ensures NumberOf(s) == Int(DigitsValue(s))
  {
    assert !IsSpace(s[0]) && !IsSpace(s[|s| - 1]);
    assert TrimStart(s) == s;
    assert TrimEnd(s) == s;
  }

  predicate IsHexDigit(c: char) { IsDigit(c) || 'a' <= c <= 'f' || 'A' <= c <= 'F' }

  function HexValue(c: char): nat
    requires IsHexDigit(c)
  {
    if IsDigit(c) then DigitValue(c)
    else if 'a' <= c <= 'f' then c as int - 'a' as int + 10
    else c as int - 'A' as int + 10
  }

  function HexRun(s: string): (n: nat)
    ensures n <= |s|
    ensures forall i :: 0 <= i < n ==> IsHexDigit(s[i])
  {
    if s != [] && IsHexDigit(s[0]) then 1 + HexRun(s[1..]) else 0
  }

  function HexDigitsValue(d: string): nat
    requires forall i :: 0 <= i < |d| ==> IsHexDigit(d[i])
  {
    if d == [] then 0 else 16 * HexDigitsValue(d[..|d| - 1]) + HexValue(d[|d| - 1])
  }

  /**
   * `parseInt(s)` without a radix: leading white space and a sign are skipped, a "0x" or "0X"
   * prefix selects base 16, and the longest run of digits of the base is read; NaN when there
   * is none.
   */
  function ParseInt(s: string): JsNum {
    var t := TrimStart(s);
    var negative := t != [] && t[0] == '-';
    var body := if t != [] && (t[0] == '-' || t[0] == '+') then t[1..] else t;
    var hex := |body| >= 2 && body[0] == '0' && (body[1] == 'x' || body[1] == 'X');
    if hex then
      var n := HexRun(body[2..]);
      if n == 0 then NotANumber
      else
        var v: int := HexDigitsValue(body[2..][..n]);
        Int(if negative then -v else v)
    else
      var n := DigitRun(body);
      if n == 0 then NotANumber
      else
        var v: int := DigitsValue(body[..n]);
        Int(if negative then -v else v)
  }

  /** `Math.ceil(total / limit)` for a positive limit. */
  function CeilDiv(total: nat, limit: nat): (r: nat)
    requires limit > 0
    ensures (r - 1) * limit < total <= r * limit || (total == 0 && r == 0)
  {
    (total + limit - 1) / limit
  }
}
