/**
 * The parts of the Zod schema library the services' validators use: a request field as it arrives,
 * the issues a failed check reports, string length bounds counted in UTF-16 code units as
 * JavaScript's `length` does, and the `uuid` and `email` formats of Zod 3.22.
 */
module Zod {
  import opened Wrappers
  import opened JsText

  /**
   * One field of a request body or query: absent (`undefined`), JSON null, a string, or any other
   * value (a number, a boolean, an object, or an array from a repeated query parameter).
   */
  datatype Input = Absent | Null | Str(text: string) | Other

  /** One reported problem: the field and the message. */
  datatype Issue = Issue(path: string, message: string)

  /** Some issue is about the field `path`. */
  predicate Reports(issues: seq<Issue>, path: string) {
    exists i :: 0 <= i < |issues| && issues[i].path == path
  }

  /** Every issue is about the field `path`. */
  predicate About(issues: seq<Issue>, path: string) {
    forall i :: 0 <= i < |issues| ==> issues[i].path == path
  }

  /** The issues of two checks together report a field exactly when one of them does. */
  lemma {:induction false} ReportsConcat(a: seq<Issue>, b: seq<Issue>, path: string)
    ensures Reports(a + b, path) <==> Reports(a, path) || Reports(b, path)
  {
    if Reports(a + b, path) {
      var i :| 0 <= i < |a + b| && (a + b)[i].path == path;
      if i >= |a| {
        assert b[i - |a|].path == path;
      }
    }
    if Reports(a, path) {
      var i :| 0 <= i < |a| && a[i].path == path;
      assert (a + b)[i] == a[i];
    }
    if Reports(b, path) {
      var i :| 0 <= i < |b| && b[i].path == path;
      assert (a + b)[|a| + i] == b[i];
    }
  }

  /** Issues all about one field report that field exactly when there is one, and no other field. */
  lemma {:induction false} AboutOnly(issues: seq<Issue>, path: string, other: string)
    requires About(issues, path)
    ensures Reports(issues, path) <==> issues != []
    ensures other != path ==> !Reports(issues, other)
  {
    if issues != [] {
      assert issues[0].path == path;
    }
  }

  /** The type check of `z.string()`: an issue unless the field is a string. */
  function TypeIssues(path: string, v: Input): (r: seq<Issue>)
    ensures r == [] <==> v.Str?
    ensures About(r, path)
  {
    match v
    case Str(_) => []
    case Absent => [Issue(path, "Required")]
    case _ => [Issue(path, "Expected string")]
  }

  /** `.min(n, message)`: an issue when the string is shorter than `n` UTF-16 code units. */
  function MinIssues(path: string, s: string, n: nat, message: string): (r: seq<Issue>)
    ensures r == [] <==> Utf16Length(s) >= n
    ensures About(r, path)
  {
    if Utf16Length(s) < n then [Issue(path, message)] else []
  }

  /** `.max(n, message)`: an issue when the string is longer than `n` UTF-16 code units. */
  function MaxIssues(path: string, s: string, n: nat, message: string): (r: seq<Issue>)
    ensures r == [] <==> Utf16Length(s) <= n
    ensures About(r, path)
  {
    if Utf16Length(s) > n then [Issue(path, message)] else []
  }

  /** `.regex(re, message)` or a format check, given whether the string matches. */
  function FormatIssues(path: string, matches: bool, message: string): (r: seq<Issue>)
    ensures r == [] <==> matches
    ensures About(r, path)
  {
    if matches then [] else [Issue(path, message)]
  }

  /** The issues of one field's result: none when it passed. */
  function IssuesOf<T>(r: Result<T, seq<Issue>>): (issues: seq<Issue>)
    ensures r.Ok? ==> issues == []
  {
    if r.Ok? then [] else r.error
  }

  /** `z.string().optional()`: absent gives `None`, a string is kept as it is. */
  function OptionalString(path: string, v: Input): (r: Result<Option<string>, seq<Issue>>)
    ensures r.Ok? <==> v.Absent? || v.Str?
    ensures r.Ok? ==> r.value == (if v.Str? then Some(v.text) else None)
    ensures r.Err? ==> r.error != []
  {
    match v
    case Absent => Ok(None)
    case Str(s) => Ok(Some(s))
    case _ => Err(TypeIssues(path, v))
  }

  /**
   * `z.string().optional().default(d).transform(Number)`: the string, or `d` when absent, read
   * by `Number`; a string that is not a number is not rejected but becomes NaN.
   */
  function NumberWithDefault(path: string, v: Input, d: string): (r: Result<JsNum, seq<Issue>>)
    ensures r.Ok? <==> v.Absent? || v.Str?
    ensures r.Ok? ==> r.value == NumberOf(if v.Str? then v.text else d)
    ensures r.Err? ==> r.error != []
  {
    match v
    case Absent => Ok(NumberOf(d))
    case Str(s) => Ok(NumberOf(s))
    case _ => Err(TypeIssues(path, v))
  }

  // ---------------------------------------------------------------------------------------
  // uuid: ^[0-9a-f]{8}-[0-9a-f]{4}-[0-9a-f]{4}-[0-9a-f]{4}-[0-9a-f]{12}$, case-insensitive

  predicate HyphenAt(i: int) { i == 8 || i == 13 || i == 18 || i == 23 }

  /** Five groups of 8, 4, 4, 4 and 12 hexadecimal digits joined by hyphens. */
  predicate IsUuid(s: string) {
    |s| == 36 && forall i :: 0 <= i < 36 ==> if HyphenAt(i) then s[i] == '-' else IsHexDigit(s[i])
  }

  // ---------------------------------------------------------------------------------------
  // email: ^(?!\.)(?!.*\.\.)([A-Z0-9_'+\-\.]*)[A-Z0-9_+-]@([A-Z0-9][A-Z0-9\-]*\.)+[A-Z]{2,}$, case-insensitive

  predicate IsAlnum(c: char) { IsAsciiLetter(c) || IsDigit(c) }

  /** A character of the local part. */
  predicate LocalChar(c: char) { IsAlnum(c) || c == '_' || c == '\'' || c == '+' || c == '-' || c == '.' }

  /** The last character of the local part: no apostrophe, no dot. */
  predicate LocalLastChar(c: char) { IsAlnum(c) || c == '_' || c == '+' || c == '-' }

  /** The part before the `@`. */
  predicate EmailLocal(l: string) {
    l != [] && (forall i :: 0 <= i < |l| ==> LocalChar(l[i])) && LocalLastChar(l[|l| - 1])
  }

  /** A domain label: a letter or digit, then letters, digits and hyphens. */
  predicate Label(d: string) {
    d != [] && IsAlnum(d[0]) && forall i :: 0 < i < |d| ==> IsAlnum(d[i]) || d[i] == '-'
  }

  /** The top-level domain: two or more letters. */
  predicate Tld(d: string) {
    |d| >= 2 && forall i :: 0 <= i < |d| ==> IsAsciiLetter(d[i])
  }

  /** One or more labels, each followed by a dot, then the top-level domain. */
  predicate Domain(d: string)
    decreases |d|
  {
    exists i :: 0 < i < |d| && d[i] == '.' && Label(d[..i]) && (Tld(d[i + 1..]) || Domain(d[i + 1..]))
  }

  /** No two dots in a row anywhere. */
  predicate NoDoubleDot(s: string) {
    forall i :: 0 <= i < |s| - 1 ==> !(s[i] == '.' && s[i + 1] == '.')
  }

  /** The address matches Zod's email pattern. */
  predicate IsEmail(s: string) {
    s != [] && s[0] != '.' && NoDoubleDot(s) &&
    exists at :: 0 <= at < |s| && s[at] == '@' && EmailLocal(s[..at]) && Domain(s[at + 1..])
  }

  /** A domain is at least four characters long: a label, a dot and two letters. */
  lemma {:induction false} DomainLength(d: string)
    requires Domain(d)
    ensures |d| >= 4
    decreases |d|
  {
    var i :| 0 < i < |d| && d[i] == '.' && Label(d[..i]) && (Tld(d[i + 1..]) || Domain(d[i + 1..]));
    if !Tld(d[i + 1..]) {
      DomainLength(d[i + 1..]);
    }
  }

  /** Every address the email format accepts has at least six characters, such as "a@b.co". */
  lemma {:induction false} EmailLength(s: string)
    requires IsEmail(s)
    ensures |s| >= 6
  {
    var at :| 0 <= at < |s| && s[at] == '@' && EmailLocal(s[..at]) && Domain(s[at + 1..]);
    DomainLength(s[at + 1..]);
  }
}
