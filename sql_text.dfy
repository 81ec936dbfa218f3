/**
 * PostgreSQL's pattern match `s ILIKE p`, used by the list queries with the pattern `'%' || x || '%'`:
 * `%` stands for any sequence of characters, `_` for any one character, and a backslash makes the
 * next pattern character literal; ILIKE compares the lower-cased subject with the lower-cased
 * pattern.
 */
module SqlText {
  import opened JsText

  /**
   * `s LIKE p`. A pattern ending in a lone backslash, which PostgreSQL refuses with an error, is
   * matched here as if the backslash were an ordinary character; the `%text%` patterns of the
   * queries always end in `%` (Containing) and so never end in one.
   */
  predicate Like(s: string, p: string)
    decreases |p|, |s|
  {
    if p == [] then s == []
    else if p[0] == '%' then Like(s, p[1..]) || (s != [] && Like(s[1..], p))
    else if s == [] then false
    else if p[0] == '_' then Like(s[1..], p[1..])
    else if p[0] == '\\' && |p| >= 2 then s[0] == p[1] && Like(s[1..], p[2..])
    else s[0] == p[0] && Like(s[1..], p[1..])
  }

  /** `s ILIKE p`. */
  predicate ILike(s: string, p: string) {
    Like(Lower(s), Lower(p))
  }

  /** The pattern a search text becomes: `%text%`. */
  function Containing(text: string): (p: string)
    ensures |p| == |text| + 2 && p[0] == '%' && p[|p| - 1] == '%'
  {
    "%" + text + "%"
  }

  /** No character of `q` has a meaning in a LIKE pattern. */
  predicate Literal(q: string) {
    forall i :: 0 <= i < |q| ==> q[i] != '%' && q[i] != '_' && q[i] != '\\'
  }

  /** `%` matches every string. */
  lemma {:induction false} LikeAnything(s: string)
    ensures Like(s, "%")
    decreases |s|
  {
    if s != [] {
      LikeAnything(s[1..]);
    }
  }

  /** A literal followed by `%` matches exactly the strings that start with it. */
  lemma {:induction false} LikePrefix(s: string, q: string)
    requires Literal(q)
    ensures Like(s, q + "%") <==> StartsWith(s, q)
    decreases |q|
  {
    if q == [] {
      assert q + "%" == "%";
      LikeAnything(s);
    } else {
      assert (q + "%")[1..] == q[1..] + "%";
      if s != [] {
        LikePrefix(s[1..], q[1..]);
        if StartsWith(s, q) {
          assert s[1..][..|q| - 1] == s[..|q|][1..];
        }
        if StartsWith(s[1..], q[1..]) && s[0] == q[0] {
          assert s[..|q|] == [s[0]] + s[1..][..|q| - 1];
        }
      }
    }
  }

  /** `%q%` for a literal `q` is the substring test. */
  lemma {:induction false} LikeContaining(s: string, q: string)
    requires Literal(q)
    ensures Like(s, Containing(q)) <==> Includes(s, q)
    decreases |s|
  {
    var p := Containing(q);
    assert p[1..] == q + "%";
    LikePrefix(s, q);
    if s != [] {
      LikeContaining(s[1..], q);
    }
  }

  lemma {:induction false} LowerKeepsLiteral(q: string)
    requires Literal(q)
    ensures Literal(Lower(q))
  {
  }

  lemma {:induction false} LowerContaining(q: string)
    ensures Lower(Containing(q)) == Containing(Lower(q))
  {
    assert Lower(Containing(q))[0] == '%';
    forall i | 1 <= i <= |q| ensures Lower(Containing(q))[i] == Containing(Lower(q))[i] {
      assert Containing(q)[i] == q[i - 1];
    }
  }

  /**
   * `s ILIKE '%q%'` for a search text without `%`, `_` or `\` is case-insensitive substring
   * search; a search text with those characters is read as a pattern instead.
   */
  lemma {:induction false} ILikeContaining(s: string, q: string)
    requires Literal(q)
    ensures ILike(s, Containing(q)) <==> Includes(Lower(s), Lower(q))
  {
    LowerContaining(q);
    LowerKeepsLiteral(q);
    LikeContaining(Lower(s), Lower(q));
  }

  /** `%` inside the search text matches anything: "50%" finds "50 g". */
  lemma {:induction false} WildcardInSearch()
    ensures ILike("50 g", Containing("50%"))
    ensures !Includes("50 g", "50%")
  {
    var p := Containing("50%");
    assert p == "%50%%";
    assert Lower("50 g") == "50 g";
    assert Lower(p) == p;
    assert Like(" g", "%%") by {
      LikeAnything(" g");
      assert "%%"[1..] == "%";
    }
    assert Like("0 g", "0%%") by {
      assert "0 g"[1..] == " g" && "0%%"[1..] == "%%";
    }
    assert Like("50 g", "50%%") by {
      assert "50 g"[1..] == "0 g" && "50%%"[1..] == "0%%";
    }
    assert Like("50 g", p) by {
      assert p[1..] == "50%%";
    }
    LongerNotIncluded(" g", "50%");
    assert !StartsWith("50 g", "50%") by {
      assert "50 g"[..3][2] == ' ' != "50%"[2];
    }
    assert !StartsWith("0 g", "50%") by {
      assert "0 g"[..3][0] == '0' != "50%"[0];
    }
    assert "50 g"[1..] == "0 g" && "0 g"[1..] == " g";
  }
  // ---------------------------------------------------------------------------------------
  // ORDER BY on a text column

  /** Text order, character by character by code point; a prefix comes first. */
  predicate TextLe(a: string, b: string)
    decreases |a|
  {
    a == [] || (b != [] && (a[0] < b[0] || (a[0] == b[0] && TextLe(a[1..], b[1..]))))
  }

  lemma {:induction false} TextLeTotal(a: string, b: string)
    ensures TextLe(a, b) || TextLe(b, a)
    decreases |a|
  {
    if a != [] && b != [] && a[0] == b[0] {
      TextLeTotal(a[1..], b[1..]);
    }
  }

  lemma {:induction false} TextLeTransitive(a: string, b: string, c: string)
    requires TextLe(a, b) && TextLe(b, c)
    ensures TextLe(a, c)
    decreases |a|
  {
    if a != [] && a[0] == b[0] && b[0] == c[0] {
      TextLeTransitive(a[1..], b[1..], c[1..]);
    }
  }
}
