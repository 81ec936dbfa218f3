/**
 * The template substitution of the user-service's mailer (`services/email.service.ts`): each
 * variable's `{{key}}` placeholder is replaced by splitting the text on it and joining the pieces
 * with the value, one variable after another; and the link of the password reset email.
 */
module EmailTemplates {
  import opened Wrappers
  import opened JsText

  /** `s.split(p)` for a non-empty separator: the pieces between the occurrences of `p`, found left to right. */
  function Split(s: string, p: string): (parts: seq<string>)
    requires p != []
    ensures |parts| >= 1
    decreases |s|
  {
    if StartsWith(s, p) then [""] + Split(s[|p|..], p)
    else if s == [] then [""]
    else
      var rest := Split(s[1..], p);
      [[s[0]] + rest[0]] + rest[1..]
  }

  /** `parts.join(v)`. */
  function Join(parts: seq<string>, v: string): string
    decreases |parts|
  {
    if parts == [] then ""
    else if |parts| == 1 then parts[0]
    else parts[0] + v + Join(parts[1..], v)
  }

  /**
   * Every occurrence of `p` in `s`, found scanning left to right and not overlapping the previous
   * one, replaced by `v`; the rest of the text is kept.
   */
  function ReplaceAll(s: string, p: string, v: string): string
    requires p != []
    decreases |s|
  {
    if StartsWith(s, p) then v + ReplaceAll(s[|p|..], p, v)
    else if s == [] then ""
    else [s[0]] + ReplaceAll(s[1..], p, v)
  }

  /** Joining after a piece that starts with `c` puts `c` in front. */
  lemma {:induction false} JoinConsChar(c: char, parts: seq<string>, v: string)
    requires parts != []
    ensures Join([[c] + parts[0]] + parts[1..], v) == [c] + Join(parts, v)
  {
    var q := [[c] + parts[0]] + parts[1..];
    if |parts| > 1 {
      assert q[1..] == parts[1..];
    }
  }

  /** `split(p).join(v)` is the replacement of every occurrence of `p` by `v`. */
  lemma {:induction false} SplitJoin(s: string, p: string, v: string)
    requires p != []
    ensures Join(Split(s, p), v) == ReplaceAll(s, p, v)
    decreases |s|
  {
    if StartsWith(s, p) {
      var rest := Split(s[|p|..], p);
      assert Split(s, p) == [""] + rest;
      assert ([""] + rest)[1..] == rest;
      assert Join([""] + rest, v) == "" + v + Join(rest, v);
      SplitJoin(s[|p|..], p, v);
      assert ReplaceAll(s, p, v) == v + ReplaceAll(s[|p|..], p, v);
    } else if s != [] {
      var rest := Split(s[1..], p);
      assert Split(s, p) == [[s[0]] + rest[0]] + rest[1..];
      JoinConsChar(s[0], rest, v);
      SplitJoin(s[1..], p, v);
      assert ReplaceAll(s, p, v) == [s[0]] + ReplaceAll(s[1..], p, v);
    }
  }

  /** Replacing a text by itself changes nothing. */
  lemma {:induction false} ReplaceBySelf(s: string, p: string)
    requires p != []
    ensures ReplaceAll(s, p, p) == s
    decreases |s|
  {
    if StartsWith(s, p) {
      ReplaceBySelf(s[|p|..], p);
      assert s == p + s[|p|..];
    } else if s != [] {
      ReplaceBySelf(s[1..], p);
      assert s == [s[0]] + s[1..];
    }
  }

  /** Splitting on `p` and joining with `p` gives the text back. */
  lemma {:induction false} SplitJoinInverse(s: string, p: string)
    requires p != []
    ensures Join(Split(s, p), p) == s
  {
    SplitJoin(s, p, p);
    ReplaceBySelf(s, p);
  }

  /** A text without the placeholder is left as it is. */
  lemma {:induction false} AbsentKept(s: string, p: string, v: string)
    requires p != [] && !Includes(s, p)
    ensures ReplaceAll(s, p, v) == s
    decreases |s|
  {
    if s != [] {
      AbsentKept(s[1..], p, v);
      assert s == [s[0]] + s[1..];
    }
  }

  /** The placeholder alone becomes the value. */
  lemma {:induction false} ReplaceWhole(p: string, v: string)
    requires p != []
    ensures ReplaceAll(p, p, v) == v
  {
    assert StartsWith(p, p);
    assert p[|p|..] == [];
    assert v + "" == v;
  }

  /** Text before the first occurrence of the placeholder is kept as it is. */
  lemma {:induction false} PrefixKept(a: string, b: string, p: string, v: string)
    requires p != []
    requires forall i :: 0 <= i < |a| ==> !StartsWith((a + b)[i..], p)
    ensures ReplaceAll(a + b, p, v) == a + ReplaceAll(b, p, v)
    decreases |a|
  {
    var s := a + b;
    if a != [] {
      assert !StartsWith(s, p) by {
        assert s[0..] == s;
      }
      assert ReplaceAll(s, p, v) == [s[0]] + ReplaceAll(s[1..], p, v);
      assert s[1..] == a[1..] + b;
      forall i | 0 <= i < |a| - 1 ensures !StartsWith((a[1..] + b)[i..], p) {
        assert (a[1..] + b)[i..] == s[i + 1..];
      }
      PrefixKept(a[1..], b, p, v);
      assert a == [a[0]] + a[1..];
    } else {
      assert s == b;
    }
  }

  /** The placeholder of a variable: `{{key}}`, never empty. */
  function Placeholder(key: string): (p: string)
    ensures |p| == |key| + 4 && StartsWith(p, "{{")
  {
    "{{" + key + "}}"
  }

  /**
   * `replaceVariables` as a specification: the variables, in the order their keys were inserted,
   * each replaced in the output of the previous ones.
   */
  function ApplyVariables(template: string, vars: seq<(string, string)>): string
    decreases |vars|
  {
    if vars == [] then template
    else
      var (key, value) := vars[|vars| - 1];
      ReplaceAll(ApplyVariables(template, vars[..|vars| - 1]), Placeholder(key), value)
  }

  /**
   * `replaceVariables(template, variables)`: for each key in insertion order, the text so far is
   * split on the key's placeholder and joined with its value.
   */
  method ReplaceVariables(template: string, vars: seq<(string, string)>) returns (result: string)
    ensures result == ApplyVariables(template, vars)
  {
    result := template;
    var i := 0;
    while i < |vars|
      invariant 0 <= i <= |vars|
      invariant result == ApplyVariables(template, vars[..i])
    {
      var (key, value) := vars[i];
      SplitJoin(result, Placeholder(key), value);
      result := Join(Split(result, Placeholder(key)), value);
      assert vars[..i + 1][..i] == vars[..i];
      i := i + 1;
    }
    assert vars[..|vars|] == vars;
  }

  /** With no variables the template is returned unchanged. */
  lemma {:induction false} NoVariables(template: string)
    ensures ApplyVariables(template, []) == template
  {
  }

  /** A template holding no placeholder of any of the keys comes back unchanged. */
  lemma {:induction false} UnknownPlaceholdersKept(template: string, vars: seq<(string, string)>)
    requires forall k :: 0 <= k < |vars| ==> !Includes(template, Placeholder(vars[k].0))
    ensures ApplyVariables(template, vars) == template
    decreases |vars|
  {
    if vars != [] {
      var init := vars[..|vars| - 1];
      forall k | 0 <= k < |init| ensures !Includes(template, Placeholder(init[k].0)) {
        assert init[k] == vars[k];
      }
      UnknownPlaceholdersKept(template, init);
      AbsentKept(template, Placeholder(vars[|vars| - 1].0), vars[|vars| - 1].1);
    }
  }

  /** The default address of the web front end. */
  const DefaultFrontendUrl: string := "http://localhost:5173"

  /** `process.env.FRONTEND_URL || 'http://localhost:5173'`: an unset or empty setting falls back. */
  function FrontendUrl(setting: Option<string>): (url: string)
    ensures setting.Some? && setting.value != "" ==> url == setting.value
    ensures setting.None? || setting.value == "" ==> url == DefaultFrontendUrl
  {
    if setting.Some? && setting.value != "" then setting.value else DefaultFrontendUrl
  }

  /** The route of the reset page, which takes the token as its last segment. */
  const ResetPath: string := "/reset-password/"

  /** The link the reset email carries: the front end's address, the reset route and the token. */
  function ResetLink(setting: Option<string>, token: string): (link: string)
    ensures StartsWith(link, FrontendUrl(setting) + ResetPath)
  {
    var prefix := FrontendUrl(setting) + ResetPath;
    assert (prefix + token)[..|prefix|] == prefix;
    prefix + token
  }

  /**
   * The token the front end's reset page reads from the link: what follows the reset route. This
   * models the front end's route, not the mailer; it is here only to state what the link carries.
   */
  function TokenOfLink(link: string, url: string): (token: string)
    requires StartsWith(link, url + ResetPath)
    ensures |token| == |link| - |url| - |ResetPath|
  {
    link[|url| + |ResetPath|..]
  }

  /** The front end's reset page gets back exactly the token the email was built with. */
  lemma {:induction false} ResetLinkRoundTrip(setting: Option<string>, token: string)
    ensures TokenOfLink(ResetLink(setting, token), FrontendUrl(setting)) == token
  {
    var prefix := FrontendUrl(setting) + ResetPath;
    assert (prefix + token)[|prefix|..] == token;
  }

  /** The variables of the reset email, in the order the mailer inserts them. */
  function ResetEmailVariables(userName: string, resetLink: string): seq<(string, string)> {
    [("userName", userName), ("resetLink", resetLink)]
  }

  /**
   * Keys apply in insertion order, each to the output of the previous: a user name that is itself
   * the text "{{resetLink}}" is replaced by the reset link in the `{{userName}}` slot.
   */
  lemma {:induction false} UserNameReplacedAgain(link: string)
    ensures ApplyVariables(Placeholder("userName"), ResetEmailVariables(Placeholder("resetLink"), link)) == link
  {
    var vars := ResetEmailVariables(Placeholder("resetLink"), link);
    assert vars[..1] == [vars[0]] && vars[..1][..0] == [];
    ReplaceWhole(Placeholder("userName"), Placeholder("resetLink"));
    assert ApplyVariables(Placeholder("userName"), vars[..1]) == Placeholder("resetLink");
    ReplaceWhole(Placeholder("resetLink"), link);
  }
}
