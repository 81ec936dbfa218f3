/**
 * The products-service normaliser and categoriser (normalizationService.ts): the comparison key
 * of NameKey followed by a whole-word rewrite of unit synonyms, the ordered keyword categoriser,
 * the quantity-and-unit extractor, the category suggestion, and the find-or-create of a catalogue
 * product by its key.
 */
module NormalizationService {
  import opened Wrappers
  import opened JsText
  import opened NameKey
  import Storage
  import ProductModel

  // ---------------------------------------------------------------------------------------
  // Words

  /** A maximal run of `\w` characters, as `\b...\b` delimits it. */
  predicate IsWord(w: string) {
    |w| > 0 && forall i :: 0 <= i < |w| ==> IsWordChar(w[i])
  }

  /** Length of the run of word characters at the start of `s`. */
  function WordLen(s: string): (n: nat)
    ensures n <= |s|
    ensures forall i :: 0 <= i < n ==> IsWordChar(s[i])
    ensures n < |s| ==> !IsWordChar(s[n])
  {
    if s == [] || !IsWordChar(s[0]) then 0 else 1 + WordLen(s[1..])
  }

  /**
   * Applies `f` to every maximal run of word characters of `s`, keeping every other character.
   * With `f` replacing one word, this is `s.replace(/\bkey\b/g, value)`: a whole-word match of a
   * key made of word characters starts and ends exactly at the edges of such a run.
   */
  function MapWords(s: string, f: string -> string): string
    decreases |s|
  {
    if s == [] then []
    else if IsWordChar(s[0]) then
      var n := WordLen(s);
      f(s[..n]) + MapWords(s[n..], f)
    else [s[0]] + MapWords(s[1..], f)
  }

  /** Functions that map each word to a word. */
  ghost predicate WordToWord(f: string -> string) {
    forall w :: IsWord(w) ==> IsWord(f(w))
  }

  // ---------------------------------------------------------------------------------------
  // The abbreviation table

  datatype Rule = Rule(key: string, value: string)

  /** The abbreviation record of `normalizeProductName`, in its insertion order. */
  const Abbreviations: seq<Rule> := [
    Rule("kg", "kg"), Rule("kilo", "kg"), Rule("quilo", "kg"),
    Rule("l", "l"), Rule("lt", "l"), Rule("litro", "l"),
    Rule("ml", "ml"),
    Rule("g", "g"), Rule("gr", "g"), Rule("grama", "g"), Rule("gramas", "g"),
    Rule("un", "un"), Rule("unidade", "un"), Rule("pc", "un"),
    Rule("pct", "pct"), Rule("pacote", "pct")
  ]

  /** One rule applied to one word: `\bkey\b` with flag `i` matches a lower-case word iff it equals the key. */
  function Step(w: string, r: Rule): (o: string)
    ensures o == w || o == r.value
    ensures w == r.key ==> o == r.value
  {
    if w == r.key then r.value else w
  }

  /** `s.replace(new RegExp(`\\b${key}\\b`, 'gi'), value)` on lower-case text. */
  function ReplaceWord(s: string, r: Rule): string {
    MapWords(s, w => Step(w, r))
  }

  /** The rules of `rules` applied in order to the whole text, each on the result of the previous one. */
  function ApplyRules(s: string, rules: seq<Rule>): string
  {
    if rules == [] then s
    else ReplaceWord(ApplyRules(s, rules[..|rules| - 1]), rules[|rules| - 1])
  }

  /** Applying one more rule of the table rewrites the previous result with that rule. */
  lemma ApplyRulesSnoc(s: string, rules: seq<Rule>, i: nat)
    requires i < |rules|
    ensures ApplyRules(s, rules[..i + 1]) == ReplaceWord(ApplyRules(s, rules[..i]), rules[i])
  {
    assert rules[..i + 1][..i] == rules[..i];
  }

  /** The rules of `rules` applied in order to one word. */
  function RuleWord(w: string, rules: seq<Rule>): string
  {
    if rules == [] then w
    else Step(RuleWord(w, rules[..|rules| - 1]), rules[|rules| - 1])
  }

  /** A dictionary reading of the table: the value of the first rule whose key is `w`, else `w`. */
  function Lookup(w: string, rules: seq<Rule>): (o: string)
    ensures o == w || exists i :: 0 <= i < |rules| && o == rules[i].value
  {
    if rules == [] then w
    else if rules[0].key == w then rules[0].value
    else Lookup(w, rules[1..])
  }

  predicate HasKey(w: string, rules: seq<Rule>) {
    exists i :: 0 <= i < |rules| && rules[i].key == w
  }

  /** Every rule whose key is some rule's value maps that value to itself. */
  predicate Closed(rules: seq<Rule>) {
    forall i, j :: 0 <= i < |rules| && 0 <= j < |rules| && rules[j].key == rules[i].value ==> rules[j].value == rules[i].value
  }

  predicate ValuesAreWords(rules: seq<Rule>) {
    forall i :: 0 <= i < |rules| ==> IsWord(rules[i].value)
  }

  /** The normalised name of `normalizeProductName`. */
  function Normalize(name: string): string {
    ApplyRules(BaseKey(name), Abbreviations)
  }

  /** `normalizeProductName`: the comparison key, then each abbreviation rule in turn. */
  method NormalizeProductName(name: string) returns (normalized: string)
    ensures normalized == Normalize(name)
  {
    normalized := ReplaceEach(BaseKey(name), Abbreviations);
  }

  /** The loop over the entries of the abbreviation record, each rewriting the result of the previous one. */
  method ReplaceEach(text: string, rules: seq<Rule>) returns (out: string)
    ensures out == ApplyRules(text, rules)
  {
    out := text;
    var i := 0;
    while i < |rules|
      invariant 0 <= i <= |rules|
      invariant out == ApplyRules(text, rules[..i])
    {
      ApplyRulesSnoc(text, rules, i);
      out := ReplaceWord(out, rules[i]);
      i := i + 1;
    }
    assert rules[..i] == rules;
  }

  // ---------------------------------------------------------------------------------------
  // Lemmas about MapWords

  lemma {:induction false} WordLenOfWord(a: string, b: string)
    requires IsWord(a)
    requires b == [] || !IsWordChar(b[0])
    ensures WordLen(a + b) == |a|
    decreases |a|
  {
    assert (a + b)[0] == a[0];
    if |a| > 1 {
      assert (a + b)[1..] == a[1..] + b;
      assert IsWord(a[1..]);
      WordLenOfWord(a[1..], b);
    } else {
      assert (a + b)[1..] == b;
      assert WordLen(b) == 0;
    }
  }

  lemma {:induction false} MapWordsWordFirst(a: string, b: string, f: string -> string)
    requires IsWord(a)
    requires b == [] || !IsWordChar(b[0])
    ensures MapWords(a + b, f) == f(a) + MapWords(b, f)
  {
    WordLenOfWord(a, b);
    assert (a + b)[..|a|] == a;
    assert (a + b)[|a|..] == b;
  }

  lemma {:induction false} MapWordsOtherFirst(c: char, b: string, f: string -> string)
    requires !IsWordChar(c)
    ensures MapWords([c] + b, f) == [c] + MapWords(b, f)
  {
    assert ([c] + b)[1..] == b;
  }

  lemma {:induction false} MapWordsStartsOther(s: string, f: string -> string)
    requires s != [] && !IsWordChar(s[0])
    ensures MapWords(s, f) != [] && MapWords(s, f)[0] == s[0]
  {
  }

  /** Mapping `f` and then `g` over the words is mapping their composition. */
  lemma {:induction false} MapWordsCompose(s: string, f: string -> string, g: string -> string)
    requires WordToWord(f)
    ensures MapWords(MapWords(s, f), g) == MapWords(s, w => g(f(w)))
    decreases |s|
  {
    if s != [] {
      if IsWordChar(s[0]) {
        var n := WordLen(s);
        var rest := s[n..];
        assert IsWord(s[..n]);
        if rest != [] {
          MapWordsStartsOther(rest, f);
        }
        MapWordsWordFirst(f(s[..n]), MapWords(rest, f), g);
        MapWordsCompose(rest, f, g);
      } else {
        MapWordsOtherFirst(s[0], MapWords(s[1..], f), g);
        MapWordsCompose(s[1..], f, g);
      }
    }
  }

  /** Functions that agree on words map every text alike. */
  lemma {:induction false} MapWordsCongruence(s: string, f: string -> string, g: string -> string)
    requires forall w :: IsWord(w) ==> f(w) == g(w)
    ensures MapWords(s, f) == MapWords(s, g)
    decreases |s|
  {
    if s != [] {
      if IsWordChar(s[0]) {
        var n := WordLen(s);
        assert IsWord(s[..n]);
        MapWordsCongruence(s[n..], f, g);
      } else {
        MapWordsCongruence(s[1..], f, g);
      }
    }
  }

  lemma {:induction false} MapWordsIdentity(s: string, f: string -> string)
    requires forall w :: IsWord(w) ==> f(w) == w
    ensures MapWords(s, f) == s
    decreases |s|
  {
    if s != [] {
      if IsWordChar(s[0]) {
        var n := WordLen(s);
        assert IsWord(s[..n]);
        MapWordsIdentity(s[n..], f);
        assert s == s[..n] + s[n..];
      } else {
        MapWordsIdentity(s[1..], f);
        assert s == [s[0]] + s[1..];
      }
    }
  }

  /** Mapping distributes over a concatenation that does not cut a word. */
  lemma {:induction false} MapWordsAppend(a: string, b: string, f: string -> string)
    requires a == [] || b == [] || !IsWordChar(a[|a| - 1]) || !IsWordChar(b[0])
    ensures MapWords(a + b, f) == MapWords(a, f) + MapWords(b, f)
    decreases |a|
  {
    if a == [] {
      assert a + b == b;
    } else if IsWordChar(a[0]) {
      MapWordsAppendWord(a, b, f);
    } else {
      assert a + b == [a[0]] + (a[1..] + b);
      MapWordsOtherFirst(a[0], a[1..] + b, f);
      if |a| > 1 {
        MapWordsAppend(a[1..], b, f);
      } else {
        assert a[1..] + b == b;
      }
    }
  }

  lemma {:induction false} MapWordsAppendWord(a: string, b: string, f: string -> string)
    requires a != [] && IsWordChar(a[0])
    requires b == [] || !IsWordChar(a[|a| - 1]) || !IsWordChar(b[0])
    ensures MapWords(a + b, f) == MapWords(a, f) + MapWords(b, f)
    decreases |a|, 0
  {
    var n := WordLen(a);
    var w := a[..n];
    assert IsWord(w);
    if n < |a| {
      var rest := a[n..];
      assert a == w + rest && a + b == w + (rest + b);
      assert !IsWordChar(rest[0]);
      assert rest[|rest| - 1] == a[|a| - 1];
      MapWordsAppend(rest, b, f);
      WordThenAppend(w, rest, b, f);
    } else {
      assert w == a;
      WordAppend(a, b, f);
    }
  }

  /** A whole word followed by text that starts with a non-word character. */
  lemma {:induction false} WordThenAppend(w: string, rest: string, b: string, f: string -> string)
    requires IsWord(w) && rest != [] && !IsWordChar(rest[0])
    requires MapWords(rest + b, f) == MapWords(rest, f) + MapWords(b, f)
    ensures MapWords(w + (rest + b), f) == MapWords(w + rest, f) + MapWords(b, f)
  {
    assert (rest + b)[0] == rest[0];
    MapWordsWordFirst(w, rest + b, f);
    MapWordsWordFirst(w, rest, f);
  }

  /** A text that is one whole word, followed by text that cannot extend the word. */
  lemma {:induction false} WordAppend(a: string, b: string, f: string -> string)
    requires IsWord(a) && (b == [] || !IsWordChar(b[0]))
    ensures MapWords(a + b, f) == MapWords(a, f) + MapWords(b, f)
  {
    MapWordsWordFirst(a, b, f);
    MapWordsWordFirst(a, [], f);
    assert a + [] == a;
  }

  // ---------------------------------------------------------------------------------------
  // The table as a whole

  lemma {:induction false} RuleWordIsWord(w: string, rules: seq<Rule>)
    requires ValuesAreWords(rules)
    requires IsWord(w)
    ensures IsWord(RuleWord(w, rules))
    decreases |rules|
  {
    if rules != [] {
      RuleWordIsWord(w, rules[..|rules| - 1]);
    }
  }

  lemma {:induction false} RuleWordWordToWord(rules: seq<Rule>)
    requires ValuesAreWords(rules)
    ensures WordToWord(w => RuleWord(w, rules))
  {
    forall w | IsWord(w)
      ensures IsWord(RuleWord(w, rules))
    {
      RuleWordIsWord(w, rules);
    }
  }

  /** Applying the rules one after another to the whole text rewrites each word by the whole table. */
  lemma {:induction false} ApplyRulesPerWord(s: string, rules: seq<Rule>)
    requires ValuesAreWords(rules)
    ensures ApplyRules(s, rules) == MapWords(s, w => RuleWord(w, rules))
    decreases |rules|
  {
    if rules == [] {
      MapWordsIdentity(s, w => RuleWord(w, rules));
    } else {
      var init := rules[..|rules| - 1];
      var last := rules[|rules| - 1];
      assert ValuesAreWords(init) by {
        forall i | 0 <= i < |init| ensures IsWord(init[i].value) {
          assert init[i] == rules[i];
        }
      }
      ApplyRulesPerWord(s, init);
      var f := w => RuleWord(w, init);
      var g := w => Step(w, last);
      RuleWordWordToWord(init);
      assert ApplyRules(s, rules) == MapWords(MapWords(s, f), g);
      MapWordsCompose(s, f, g);
      forall w | IsWord(w)
        ensures g(f(w)) == RuleWord(w, rules)
      {
      }
      MapWordsCongruence(s, w => g(f(w)), w => RuleWord(w, rules));
    }
  }

  lemma {:induction false} LookupAppend(w: string, init: seq<Rule>, last: Rule)
    ensures HasKey(w, init) ==> Lookup(w, init + [last]) == Lookup(w, init)
    ensures !HasKey(w, init) ==> Lookup(w, init) == w && Lookup(w, init + [last]) == Step(w, last)
    ensures HasKey(w, init) ==> exists i :: 0 <= i < |init| && init[i].key == w && Lookup(w, init) == init[i].value
    decreases |init|
  {
    if init == [] {
      assert init + [last] == [last];
    } else {
      assert (init + [last])[1..] == init[1..] + [last];
      LookupAppend(w, init[1..], last);
      if init[0].key != w {
        if HasKey(w, init) {
          var i :| 0 <= i < |init| && init[i].key == w;
          assert init[1..][i - 1].key == w;
        }
        if HasKey(w, init[1..]) {
          var i :| 0 <= i < |init[1..]| && init[1..][i].key == w && Lookup(w, init[1..]) == init[1..][i].value;
          assert init[i + 1].key == w;
        }
      }
    }
  }

  /** Under `Closed`, running the table rule by rule is a single dictionary lookup. */
  lemma {:induction false} RuleWordIsLookup(w: string, rules: seq<Rule>)
    requires Closed(rules)
    ensures RuleWord(w, rules) == Lookup(w, rules)
    decreases |rules|
  {
    if rules != [] {
      var init := rules[..|rules| - 1];
      var last := rules[|rules| - 1];
      assert rules == init + [last];
      assert Closed(init) by {
        forall i, j | 0 <= i < |init| && 0 <= j < |init| && init[j].key == init[i].value
          ensures init[j].value == init[i].value
        {
          assert init[i] == rules[i] && init[j] == rules[j];
        }
      }
      RuleWordIsLookup(w, init);
      LookupAppend(w, init, last);
      if HasKey(w, init) {
        var i :| 0 <= i < |init| && init[i].key == w && Lookup(w, init) == init[i].value;
        assert rules[i] == init[i];
        if last.key == init[i].value {
          assert rules[|rules| - 1].key == rules[i].value;
        }
      }
    }
  }

  /** Looking a looked-up word up again changes nothing. */
  lemma {:induction false} LookupIdempotent(w: string, rules: seq<Rule>)
    requires Closed(rules)
    ensures Lookup(Lookup(w, rules), rules) == Lookup(w, rules)
  {
    var v := Lookup(w, rules);
    if v != w {
      var i :| 0 <= i < |rules| && v == rules[i].value;
      LookupValue(v, rules, i);
    }
  }

  /** The value of a rule is fixed by a closed table. */
  lemma {:induction false} LookupValue(v: string, rules: seq<Rule>, i: nat)
    requires Closed(rules)
    requires i < |rules| && rules[i].value == v
    ensures Lookup(v, rules) == v
  {
    LookupFirst(v, rules);
  }

  lemma {:induction false} LookupFirst(v: string, rules: seq<Rule>)
    ensures Lookup(v, rules) == v || exists j :: 0 <= j < |rules| && rules[j].key == v && Lookup(v, rules) == rules[j].value
    decreases |rules|
  {
    if rules != [] && rules[0].key != v {
      LookupFirst(v, rules[1..]);
      if Lookup(v, rules) != v {
        var j :| 0 <= j < |rules[1..]| && rules[1..][j].key == v && Lookup(v, rules[1..]) == rules[1..][j].value;
        assert rules[j + 1] == rules[1..][j];
      }
    }
  }

  // ---------------------------------------------------------------------------------------
  // The concrete table

  lemma {:induction false} AbbreviationsValuesAreWords()
    ensures ValuesAreWords(Abbreviations)
  {
    forall i | 0 <= i < |Abbreviations|
      ensures IsWord(Abbreviations[i].value)
    {
      var v := Abbreviations[i].value;
      assert v == "kg" || v == "l" || v == "ml" || v == "g" || v == "un" || v == "pct";
    }
  }

  /** Every value of the table ("kg", "l", "ml", "g", "un", "pct") maps to itself. */
  lemma {:induction false} AbbreviationsClosed()
    ensures Closed(Abbreviations)
  {
    var targets := ["kg", "l", "ml", "g", "un", "pct"];
    forall j | 0 <= j < |Abbreviations| && Abbreviations[j].key in targets
      ensures Abbreviations[j].value == Abbreviations[j].key
    {
    }
  }

  // ---------------------------------------------------------------------------------------
  // Spacing and characters survive the rewrite

  /** No character of `s` is left to lower-case, decompose or strip. */
  predicate KeyChars(s: string) {
    forall i :: 0 <= i < |s| ==> KeyChar(s[i])
  }

  lemma {:induction false} WordHasNoSpace(w: string)
    requires IsWord(w)
    ensures NoDoubleSpace(w)
    ensures forall i :: 0 <= i < |w| ==> !IsSpace(w[i])
  {
  }

  /** The rewrite keeps the text empty or not, and white space or not at either end. */
  lemma {:induction false} MapWordsEnds(s: string, f: string -> string)
    requires WordToWord(f)
    ensures (MapWords(s, f) == []) == (s == [])
    ensures s != [] ==> (IsSpace(MapWords(s, f)[0]) <==> IsSpace(s[0]))
    ensures s != [] ==> (IsSpace(MapWords(s, f)[|MapWords(s, f)| - 1]) <==> IsSpace(s[|s| - 1]))
    decreases |s|
  {
    if s != [] {
      var o := MapWords(s, f);
      if IsWordChar(s[0]) {
        var n := WordLen(s);
        var w := s[..n];
        var rest := s[n..];
        assert IsWord(w);
        assert IsWord(f(w));
        WordHasNoSpace(w);
        WordHasNoSpace(f(w));
        MapWordsEnds(rest, f);
        var m := MapWords(rest, f);
        assert o == f(w) + m;
        assert o[0] == f(w)[0] && s[0] == w[0];
        if rest == [] {
          assert o == f(w);
          assert s[|s| - 1] == w[|w| - 1];
        } else {
          assert o[|o| - 1] == m[|m| - 1];
          assert s[|s| - 1] == rest[|rest| - 1];
        }
      } else {
        var rest := s[1..];
        MapWordsEnds(rest, f);
        var m := MapWords(rest, f);
        assert o == [s[0]] + m;
        if rest != [] {
          assert o[|o| - 1] == m[|m| - 1];
          assert s[|s| - 1] == rest[|rest| - 1];
        }
      }
    }
  }

  /** The rewrite never puts two white-space characters next to each other. */
  lemma {:induction false} MapWordsNoDouble(s: string, f: string -> string)
    requires WordToWord(f) && NoDoubleSpace(s)
    ensures NoDoubleSpace(MapWords(s, f))
    decreases |s|
  {
    if s != [] {
      if IsWordChar(s[0]) {
        var n := WordLen(s);
        var w := s[..n];
        var rest := s[n..];
        assert IsWord(w);
        assert IsWord(f(w));
        WordHasNoSpace(f(w));
        NoDoubleSpaceSlice(s, n, |s|);
        MapWordsNoDouble(rest, f);
        assert MapWords(s, f) == f(w) + MapWords(rest, f);
        NoDoubleSpaceAppend(f(w), MapWords(rest, f));
      } else {
        var rest := s[1..];
        NoDoubleSpaceSlice(s, 1, |s|);
        MapWordsNoDouble(rest, f);
        MapWordsEnds(rest, f);
        assert MapWords(s, f) == [s[0]] + MapWords(rest, f);
        assert NoDoubleSpace([s[0]]);
        if rest != [] && IsSpace(s[0]) {
          assert !IsSpace(s[1]) && s[1] == rest[0];
        }
        NoDoubleSpaceAppend([s[0]], MapWords(rest, f));
      }
    }
  }

  lemma {:induction false} MapWordsKeyChars(s: string, f: string -> string)
    requires KeyChars(s)
    requires forall w :: IsWord(w) ==> f(w) == w || KeyChars(f(w))
    ensures KeyChars(MapWords(s, f))
    decreases |s|
  {
    if s != [] {
      if IsWordChar(s[0]) {
        var n := WordLen(s);
        assert IsWord(s[..n]);
        MapWordsKeyChars(s[n..], f);
        assert KeyChars(f(s[..n]));
      } else {
        MapWordsKeyChars(s[1..], f);
      }
    }
  }

  lemma {:induction false} MapWordsKeepsKey(s: string, f: string -> string)
    requires SingleSpaced(s) && KeyChars(s)
    requires WordToWord(f)
    requires forall w :: IsWord(w) ==> f(w) == w || KeyChars(f(w))
    ensures SingleSpaced(MapWords(s, f)) && KeyChars(MapWords(s, f))
  {
    SingleSpacedIff(s);
    MapWordsEnds(s, f);
    MapWordsNoDouble(s, f);
    SingleSpacedIff(MapWords(s, f));
    MapWordsKeyChars(s, f);
  }

  // ---------------------------------------------------------------------------------------
  // Properties of normalizeProductName

  /** The table as a function on words: its dictionary reading. */
  lemma {:induction false} TableAsLookup(w: string)
    ensures RuleWord(w, Abbreviations) == Lookup(w, Abbreviations)
  {
    AbbreviationsClosed();
    RuleWordIsLookup(w, Abbreviations);
  }

  predicate AsciiLowerWord(w: string) {
    forall i :: 0 <= i < |w| ==> 'a' <= w[i] <= 'z'
  }

  lemma {:induction false} AsciiLowerKeyChars(w: string)
    requires AsciiLowerWord(w)
    ensures KeyChars(w)
  {
  }

  lemma {:induction false} AbbreviationsValuesAsciiLower()
    ensures forall i :: 0 <= i < |Abbreviations| ==> AsciiLowerWord(Abbreviations[i].value)
  {
    forall i | 0 <= i < |Abbreviations|
      ensures AsciiLowerWord(Abbreviations[i].value)
    {
      var v := Abbreviations[i].value;
      assert v == "kg" || v == "l" || v == "ml" || v == "g" || v == "un" || v == "pct";
    }
  }

  lemma {:induction false} AbbreviationsValuesAreKeyChars(w: string)
    ensures RuleWord(w, Abbreviations) == w || KeyChars(RuleWord(w, Abbreviations))
  {
    TableAsLookup(w);
    var o := Lookup(w, Abbreviations);
    if o != w {
      var i :| 0 <= i < |Abbreviations| && o == Abbreviations[i].value;
      AbbreviationsValuesAsciiLower();
      AsciiLowerKeyChars(o);
    }
  }

  /** The key of a normalised name is the normalised name itself, and it is single-spaced. */
  lemma {:induction false} NormalizeIsKey(name: string)
    ensures SingleSpaced(Normalize(name)) && KeyChars(Normalize(name))
    ensures BaseKey(Normalize(name)) == Normalize(name)
  {
    var b := BaseKey(name);
    BaseKeySingleSpaced(name);
    BaseKeyChars(name);
    AbbreviationsValuesAreWords();
    ApplyRulesPerWord(b, Abbreviations);
    RuleWordWordToWord(Abbreviations);
    forall w | IsWord(w)
      ensures RuleWord(w, Abbreviations) == w || KeyChars(RuleWord(w, Abbreviations))
    {
      AbbreviationsValuesAreKeyChars(w);
    }
    MapWordsKeepsKey(b, w => RuleWord(w, Abbreviations));
    BaseKeyOfKey(Normalize(name));
  }

  /** The normalised name has no white space at either end and never two white-space characters in a row. */
  lemma {:induction false} NormalizeSingleSpaced(name: string)
    ensures SingleSpaced(Normalize(name))
  {
    NormalizeIsKey(name);
  }

  /** Normalising a normalised name gives it back. */
  lemma {:induction false} NormalizeIdempotent(name: string)
    ensures Normalize(Normalize(name)) == Normalize(name)
  {
    var b := BaseKey(name);
    var n := Normalize(name);
    var f := w => RuleWord(w, Abbreviations);
    NormalizeIsKey(name);
    AbbreviationsValuesAreWords();
    AbbreviationsClosed();
    ApplyRulesPerWord(b, Abbreviations);
    ApplyRulesPerWord(n, Abbreviations);
    RuleWordWordToWord(Abbreviations);
    MapWordsCompose(b, f, f);
    forall w | IsWord(w)
      ensures f(f(w)) == f(w)
    {
      TableAsLookup(w);
      TableAsLookup(Lookup(w, Abbreviations));
      LookupIdempotent(w, Abbreviations);
    }
    MapWordsCongruence(b, w => f(f(w)), f);
  }

  /** Names that differ only in letter case get the same normalised name. */
  lemma {:induction false} NormalizeIgnoresCase(name: string)
    ensures Normalize(Lower(name)) == Normalize(name)
  {
    BaseKeyIgnoresCase(name);
  }

  /** Inserting a combining diacritical mark anywhere in a name does not change its normalised name. */
  lemma {:induction false} NormalizeIgnoresMark(a: string, m: char, b: string)
    requires IsCombiningMark(m)
    ensures Normalize(a + [m] + b) == Normalize(a + b)
  {
    BaseKeyIgnoresMark(a, m, b);
  }

  // ---------------------------------------------------------------------------------------
  // Worked examples

  lemma {:induction false} LookupMissing(w: string, rules: seq<Rule>)
    requires forall i :: 0 <= i < |rules| ==> rules[i].key != w
    ensures Lookup(w, rules) == w
    decreases |rules|
  {
    if rules != [] {
      LookupMissing(w, rules[1..]);
    }
  }

  lemma {:induction false} LookupAt(w: string, rules: seq<Rule>, i: nat)
    requires i < |rules| && rules[i].key == w
    requires forall j :: 0 <= j < i ==> rules[j].key != w
    ensures Lookup(w, rules) == rules[i].value
    decreases i
  {
    if i > 0 {
      LookupAt(w, rules[1..], i - 1);
    }
  }

  const AbbreviationKeys: set<string> :=
    {"kg", "kilo", "quilo", "l", "lt", "litro", "ml", "g", "gr", "grama", "gramas", "un", "unidade", "pc", "pct", "pacote"}

  lemma {:induction false} AbbreviationKeysAre()
    ensures forall i :: 0 <= i < |Abbreviations| ==> Abbreviations[i].key in AbbreviationKeys
  {
  }

  /** A word that is no key of the table is left as it is. */
  lemma {:induction false} NotAbbreviation(w: string)
    requires w !in AbbreviationKeys
    ensures RuleWord(w, Abbreviations) == w
  {
    AbbreviationKeysAre();
    TableAsLookup(w);
    LookupMissing(w, Abbreviations);
  }

  lemma {:induction false} MapWordsSingle(w: string, f: string -> string)
    requires IsWord(w)
    ensures MapWords(w, f) == f(w)
  {
    MapWordsWordFirst(w, [], f);
    assert w + [] == w;
  }

  lemma {:induction false} MapWordsSpaced(a: string, b: string, f: string -> string)
    requires IsWord(a)
    ensures MapWords(a + " " + b, f) == f(a) + " " + MapWords(b, f)
  {
    assert a + " " + b == a + (" " + b);
    MapWordsWordFirst(a, " " + b, f);
    MapWordsOtherFirst(' ', b, f);
  }

  lemma {:induction false} RuleWordOfKilo()
    ensures RuleWord("kilo", Abbreviations) == "kg"
    ensures RuleWord("kg", Abbreviations) == "kg"
  {
    TableAsLookup("kilo");
    LookupAt("kilo", Abbreviations, 1);
    TableAsLookup("kg");
    LookupAt("kg", Abbreviations, 0);
  }

  lemma {:induction false} MapWordsThree(a: string, b: string, c: string, f: string -> string)
    requires IsWord(a) && IsWord(b) && IsWord(c)
    ensures MapWords(a + " " + b + " " + c, f) == f(a) + " " + f(b) + " " + f(c)
  {
    assert a + " " + b + " " + c == a + " " + (b + " " + c);
    MapWordsSpaced(a, b + " " + c, f);
    MapWordsSpaced(b, c, f);
    MapWordsSingle(c, f);
  }

  /** The rewrite of a three-word text whose first two words are no synonyms. */
  lemma {:induction false} RewriteThreeWords(a: string, b: string, c: string)
    requires IsWord(a) && IsWord(b) && IsWord(c)
    requires a !in AbbreviationKeys && b !in AbbreviationKeys
    ensures ApplyRules(a + " " + b + " " + c, Abbreviations) == a + " " + b + " " + RuleWord(c, Abbreviations)
  {
    AbbreviationsValuesAreWords();
    ApplyRulesPerWord(a + " " + b + " " + c, Abbreviations);
    MapWordsThree(a, b, c, w => RuleWord(w, Abbreviations));
    NotAbbreviation(a);
    NotAbbreviation(b);
  }

  /** The rewrite of a one-word text. */
  lemma {:induction false} RewriteOneWord(a: string)
    requires IsWord(a)
    ensures ApplyRules(a, Abbreviations) == RuleWord(a, Abbreviations)
  {
    AbbreviationsValuesAreWords();
    ApplyRulesPerWord(a, Abbreviations);
    MapWordsSingle(a, w => RuleWord(w, Abbreviations));
  }

  lemma {:induction false} KeyOfArrozKilo()
    ensures BaseKey("ARROZ 1 KILO") == "arroz 1 kilo"
  {
    var s := "ARROZ 1 KILO";
    LowerOf(s, "arroz 1 kilo");
    forall i | 0 <= i < |s| ensures '!' <= s[i] <= '~' || s[i] == ' ' { }
    assert SingleSpaced(s) by {
      forall i | 0 <= i < |s| && IsSpace(s[i])
        ensures s[i] == ' ' && 0 < i < |s| - 1 && !IsSpace(s[i + 1])
      {
        assert i == 5 || i == 7;
      }
    }
    BaseKeyOfAscii(s);
  }

  lemma {:induction false} KeyOfArrozKg()
    ensures BaseKey("ARROZ 1 KG") == "arroz 1 kg"
  {
    var s := "ARROZ 1 KG";
    LowerOf(s, "arroz 1 kg");
    forall i | 0 <= i < |s| ensures '!' <= s[i] <= '~' || s[i] == ' ' { }
    assert SingleSpaced(s) by {
      forall i | 0 <= i < |s| && IsSpace(s[i])
        ensures s[i] == ' ' && 0 < i < |s| - 1 && !IsSpace(s[i + 1])
      {
        assert i == 5 || i == 7;
      }
    }
    BaseKeyOfAscii(s);
  }

  /** Both spellings of the kilo unit after "arroz 1" are rewritten to "kg". */
  lemma {:induction false} RewriteArrozUnit(s: string, arroz: string, one: string, unit: string, kg: string)
    requires arroz == "arroz" && one == "1" && kg == "kg" && (unit == "kilo" || unit == "kg")
    requires s == arroz + " " + one + " " + unit
    ensures ApplyRules(s, Abbreviations) == arroz + " " + one + " " + kg
  {
    RuleWordOfKilo();
    assert IsWord(arroz) && IsWord(one) && IsWord(unit);
    assert arroz !in AbbreviationKeys && one !in AbbreviationKeys;
    RewriteThreeWords(arroz, one, unit);
  }

  /** "ARROZ 1 KILO" and "ARROZ 1 KG" both normalise to "arroz 1 kg". */
  lemma {:induction false} KiloIsKg()
    ensures Normalize("ARROZ 1 KILO") == "arroz 1 kg"
    ensures Normalize("ARROZ 1 KG") == "arroz 1 kg"
  {
    assert "arroz 1 kilo" == "arroz" + " " + "1" + " " + "kilo";
    RewriteArrozUnit("arroz 1 kilo", "arroz", "1", "kilo", "kg");
    assert "arroz 1 kg" == "arroz" + " " + "1" + " " + "kg";
    RewriteArrozUnit("arroz 1 kg", "arroz", "1", "kg", "kg");
    KeyOfArrozKilo();
    KeyOfArrozKg();
  }

  lemma {:induction false} KeyOfLeite()
    ensures BaseKey("LEITE") == "leite"
  {
    LowerOf("LEITE", "leite");
    BaseKeyOfAscii("LEITE");
  }

  lemma {:induction false} KeyOfFiveKilo()
    ensures BaseKey("5KILO") == "5kilo"
  {
    LowerOf("5KILO", "5kilo");
    BaseKeyOfAscii("5KILO");
  }

  lemma {:induction false} RewriteNonKey(w: string)
    requires IsWord(w) && w !in AbbreviationKeys
    ensures ApplyRules(w, Abbreviations) == w
  {
    RewriteOneWord(w);
    NotAbbreviation(w);
  }

  /** A synonym inside a longer word is not rewritten: "LEITE" keeps its "l", "5KILO" its "kilo". */
  lemma {:induction false} NoRewriteInsideWord()
    ensures Normalize("LEITE") == "leite"
    ensures Normalize("5KILO") == "5kilo"
  {
    RewriteNonKey("leite");
    RewriteNonKey("5kilo");
    KeyOfLeite();
    KeyOfFiveKilo();
  }

  // ---------------------------------------------------------------------------------------
  // categorizeProduct

  /** One `if` of `categorizeProduct`: its keywords, joined by `||`, and the category it returns. */
  datatype Group = Group(keywords: seq<string>, category: string)

  /** The groups in the order `categorizeProduct` tests them. */
  const Groups: seq<Group> := [
    Group(["arroz", "feijao", "macarrao", "massa"], "Gr\U{E3}os e Cereais"),
    Group(["leite", "queijo", "iogurte", "manteiga"], "Latic\U{ED}nios"),
    Group(["carne", "frango", "peixe", "linguica"], "Carnes e Peixes"),
    Group(["banana", "maca", "laranja", "tomate", "alface", "batata"], "Frutas e Verduras"),
    Group(["refrigerante", "suco", "agua", "cerveja", "vinho"], "Bebidas"),
    Group(["pao", "bolo", "biscoito", "torrada"], "Padaria"),
    Group(["sabao", "detergente", "amaciante", "desinfetante"], "Limpeza"),
    Group(["shampoo", "condicionador", "sabonete", "creme dental"], "Higiene Pessoal")
  ]

  const DefaultCategory: string := "Outros"

  /** Some keyword of the group is a substring of the text. */
  predicate GroupMatches(text: string, g: Group) {
    exists k :: 0 <= k < |g.keywords| && Includes(text, g.keywords[k])
  }

  /** The category of the first group that matches `text`, if any. */
  function FirstCategory(text: string, groups: seq<Group>): (r: Option<string>)
    ensures r.None? <==> forall i :: 0 <= i < |groups| ==> !GroupMatches(text, groups[i])
    ensures r.Some? ==> exists i :: 0 <= i < |groups| && GroupMatches(text, groups[i]) && r.value == groups[i].category &&
                                    forall j :: 0 <= j < i ==> !GroupMatches(text, groups[j])
    decreases |groups|
  {
    if groups == [] then None
    else if GroupMatches(text, groups[0]) then Some(groups[0].category)
    else
      var r := FirstCategory(text, groups[1..]);
      assert forall i :: 1 <= i < |groups| ==> groups[i] == groups[1..][i - 1];
      r
  }

  /** `categorizeProduct`: the category of the first group with a keyword in the lower-cased name, else "Outros". */
  function Categorize(name: string): (category: string)
    ensures category == DefaultCategory <==> forall i :: 0 <= i < |Groups| ==> !GroupMatches(Lower(name), Groups[i])
    ensures category != DefaultCategory ==>
      exists i :: 0 <= i < |Groups| && GroupMatches(Lower(name), Groups[i]) && category == Groups[i].category &&
                  forall j :: 0 <= j < i ==> !GroupMatches(Lower(name), Groups[j])
  {
    NoGroupIsDefault();
    match FirstCategory(Lower(name), Groups)
    case None => DefaultCategory
    case Some(c) => c
  }

  /** No group returns the fallback category, so "Outros" means that no group matched. */
  lemma {:induction false} NoGroupIsDefault()
    ensures forall i :: 0 <= i < |Groups| ==> Groups[i].category != DefaultCategory
  {
    forall i | 0 <= i < |Groups| ensures Groups[i].category != DefaultCategory {
      assert Groups[i].category[0] != 'O' == DefaultCategory[0];
    }
  }

  /**
   * `suggestCategory`: the first three words of the normalised name that it prepares for a
   * similarity search are never used, so the suggestion is the rule-based category.
   */
  function SuggestCategory(name: string): (category: string)
    ensures category == Categorize(name)
  {
    Categorize(name)
  }

  lemma {:induction false} LowerOfMacarrao()
    ensures Lower("MACARRAO") == "macarrao"
  {
    LowerOf("MACARRAO", "macarrao");
  }

  /**
   * "MACARRAO" also contains the fruit keyword "maca", but the grains group is tested first.
   */
  lemma {:induction false} MacarraoIsGrain()
    ensures GroupMatches(Lower("MACARRAO"), Groups[3])
    ensures Categorize("MACARRAO") == "Gr\U{E3}os e Cereais"
  {
    LowerOfMacarrao();
    assert Includes("macarrao", "maca");
    assert Groups[3].keywords[1] == "maca";
    assert Includes("macarrao", "macarrao");
    assert Groups[0].keywords[2] == "macarrao";
    assert GroupMatches("macarrao", Groups[0]);
  }

  lemma {:induction false} LowerOfPao()
    ensures Lower("P\U{C3}O") == "p\U{E3}o"
  {
    LowerOf("P\U{C3}O", "p\U{E3}o");
  }

  lemma {:induction false} KeywordLengths()
    ensures forall i, k :: 0 <= i < |Groups| && 0 <= k < |Groups[i].keywords| ==>
      |Groups[i].keywords[k]| >= 4 || Groups[i].keywords[k] == "pao"
  {
  }

  /** Categorisation does not fold accents: "PÃO" lower-cases to "pão", which contains no keyword. */
  lemma {:induction false} PaoWithTildeIsOther()
    ensures Categorize("P\U{C3}O") == DefaultCategory
  {
    LowerOfPao();
    var text := "p\U{E3}o";
    KeywordLengths();
    LongerNotIncluded(text[1..], "pao");
    assert text[..3] != "pao" by {
      assert text[1] != 'a';
    }
    assert !Includes(text, "pao");
    forall i, k | 0 <= i < |Groups| && 0 <= k < |Groups[i].keywords|
      ensures !Includes(text, Groups[i].keywords[k])
    {
      if Groups[i].keywords[k] != "pao" {
        LongerNotIncluded(text, Groups[i].keywords[k]);
      }
    }
  }

  // ---------------------------------------------------------------------------------------
  // extractUnitFromName

  /** The unit alternatives of `/(\d+(?:\.\d+)?)\s*(kg|l|ml|g|un|pc|pct)/i`, in the order the regex tries them. */
  const UnitAlternatives: seq<string> := ["kg", "l", "ml", "g", "un", "pc", "pct"]

  /** Flag `i`: the next `|u|` characters of `s` are `u` up to letter case. */
  predicate StartsWithIgnoringCase(s: string, u: string) {
    |u| <= |s| && Lower(s[..|u|]) == u
  }

  /** The first alternative, in order, that matches at the start of `s`. */
  function FirstUnit(s: string, units: seq<string>): (r: Option<string>)
    ensures r.None? <==> forall i :: 0 <= i < |units| ==> !StartsWithIgnoringCase(s, units[i])
    ensures r.Some? ==> exists i :: 0 <= i < |units| && r.value == units[i] && StartsWithIgnoringCase(s, units[i]) &&
                                    forall j :: 0 <= j < i ==> !StartsWithIgnoringCase(s, units[j])
    decreases |units|
  {
    if units == [] then None
    else if StartsWithIgnoringCase(s, units[0]) then Some(units[0])
    else
      var r := FirstUnit(s, units[1..]);
      assert forall i :: 1 <= i < |units| ==> units[i] == units[1..][i - 1];
      r
  }

  /** The alternative at `k` is the one taken when it matches and no earlier one does. */
  lemma {:induction false} FirstUnitAt(s: string, units: seq<string>, k: nat)
    requires k < |units| && StartsWithIgnoringCase(s, units[k])
    requires forall j :: 0 <= j < k ==> !StartsWithIgnoringCase(s, units[j])
    ensures FirstUnit(s, units) == Some(units[k])
  {
    var r := FirstUnit(s, units);
    var i :| 0 <= i < |units| && r.value == units[i] && StartsWithIgnoringCase(s, units[i]) &&
             forall j :: 0 <= j < i ==> !StartsWithIgnoringCase(s, units[j]);
    assert i == k;
  }

  /** An alternative whose first letter differs from the text's, up to case, does not match. */
  lemma {:induction false} FirstLetterDiffers(s: string, u: string)
    requires s != [] && u != [] && ToLowerChar(s[0]) != u[0]
    ensures !StartsWithIgnoringCase(s, u)
  {
    if |u| <= |s| {
      assert Lower(s[..|u|])[0] == ToLowerChar(s[0]);
    }
  }

  /**
   * The regex tried at the start of `s`, giving `quantity + unit.toLowerCase()`. `\d+` takes the
   * whole digit run and `(?:\.\d+)?` the whole fraction when a digit follows the point; the
   * shorter choices backtracking would try leave a digit or the point in front of the unit,
   * where no alternative can match, so they never succeed.
   */
  function MatchAt(s: string, units: seq<string>): (r: Option<string>)
    ensures r.Some? ==> |r.value| > 0 && IsDigit(r.value[0])
    ensures r.Some? ==> exists i :: 0 <= i < |units| && |units[i]| <= |r.value| && r.value[|r.value| - |units[i]|..] == units[i]
  {
    if s == [] || !IsDigit(s[0]) then None
    else
      var n := DigitRun(s);
      var rest := s[n..];
      var m := if |rest| >= 2 && rest[0] == '.' && IsDigit(rest[1]) then 1 + DigitRun(rest[1..]) else 0;
      var quantity := s[..n + m];
      match FirstUnit(TrimStart(s[n + m..]), units)
      case None => None
      case Some(u) => Some(quantity + u)
  }

  /** `s.match(regex)` without flag `g`: the match at the leftmost position where one exists. */
  function Scan(s: string, units: seq<string>): (r: Option<string>)
    ensures r.None? <==> forall i :: 0 <= i < |s| ==> MatchAt(s[i..], units).None?
    ensures r.Some? ==> exists i :: 0 <= i < |s| && r == MatchAt(s[i..], units) &&
                                    forall j :: 0 <= j < i ==> MatchAt(s[j..], units).None?
    decreases |s|
  {
    if s == [] then None
    else if MatchAt(s, units).Some? then
      assert s[0..] == s;
      MatchAt(s, units)
    else
      var r := Scan(s[1..], units);
      ScanShift(s, Matcher(units), r);
      r
  }

  /** The match attempt of `MatchAt` as a value, so that proofs about scanning need not look inside it. */
  function Matcher(units: seq<string>): string -> Option<string> {
    t => MatchAt(t, units)
  }

  /** When no match starts at the first character, the leftmost match of `s` is that of `s[1..]`. */
  lemma {:induction false} ScanShift(s: string, f: string -> Option<string>, r: Option<string>)
    requires s != [] && f(s).None?
    requires r.None? <==> forall i :: 0 <= i < |s[1..]| ==> f(s[1..][i..]).None?
    requires r.Some? ==> exists i :: 0 <= i < |s[1..]| && r == f(s[1..][i..]) &&
                                     forall j :: 0 <= j < i ==> f(s[1..][j..]).None?
    ensures r.None? <==> forall i :: 0 <= i < |s| ==> f(s[i..]).None?
    ensures r.Some? ==> exists i :: 0 <= i < |s| && r == f(s[i..]) &&
                                    forall j :: 0 <= j < i ==> f(s[j..]).None?
  {
    assert s[0..] == s;
    forall i | 1 <= i < |s| ensures s[i..] == s[1..][i - 1..] { }
    if r.Some? {
      var i :| 0 <= i < |s[1..]| && r == f(s[1..][i..]) &&
               forall j :: 0 <= j < i ==> f(s[1..][j..]).None?;
      assert r == f(s[i + 1..]);
      forall j | 0 <= j < i + 1 ensures f(s[j..]).None? {
        if j > 0 {
          assert f(s[1..][j - 1..]).None?;
        }
      }
    }
  }

  /** `extractUnitFromName`: the quantity and the lower-cased unit of the first match, or null. */
  function ExtractUnit(name: string): Option<string> {
    Scan(name, UnitAlternatives)
  }

  /** A name without a digit has no unit. */
  lemma {:induction false} NoDigitNoUnit(name: string)
    requires forall i :: 0 <= i < |name| ==> !IsDigit(name[i])
    ensures ExtractUnit(name) == None
  {
    forall i | 0 <= i < |name|
      ensures MatchAt(name[i..], UnitAlternatives).None?
    {
      assert name[i..][0] == name[i];
    }
  }

  /** The text before the first digit plays no part in the match. */
  lemma {:induction false} ScanSkips(s: string, k: nat, units: seq<string>)
    requires k <= |s|
    requires forall j :: 0 <= j < k ==> !IsDigit(s[j])
    ensures Scan(s, units) == Scan(s[k..], units)
    decreases k
  {
    if k > 0 {
      assert s[1..][k - 1..] == s[k..];
      ScanSkips(s[1..], k - 1, units);
    }
  }

  lemma {:induction false} FirstUnitKg()
    ensures FirstUnit("KG", UnitAlternatives) == Some("kg")
  {
    LowerOf("KG", "kg");
  }

  /** A single digit directly followed by a unit. */
  lemma {:induction false} MatchDigitUnit(s: string, rest: string, u: string, units: seq<string>)
    requires |s| > 0 && IsDigit(s[0]) && rest == s[1..]
    requires rest != [] && !IsDigit(rest[0]) && !IsSpace(rest[0]) && rest[0] != '.'
    requires FirstUnit(rest, units) == Some(u)
    ensures MatchAt(s, units) == Some([s[0]] + u)
  {
    assert DigitRun(rest) == 0;
    assert DigitRun(s) == 1;
    assert s[..1] == [s[0]];
  }

  lemma {:induction false} ScanDigitUnit(s: string, rest: string, u: string, units: seq<string>)
    requires |s| > 0 && IsDigit(s[0]) && rest == s[1..]
    requires rest != [] && !IsDigit(rest[0]) && !IsSpace(rest[0]) && rest[0] != '.'
    requires FirstUnit(rest, units) == Some(u)
    ensures Scan(s, units) == Some([s[0]] + u)
  {
    MatchDigitUnit(s, rest, u, units);
  }

  lemma {:induction false} ScanFiveKgParts(s: string, rest: string)
    requires s == "5KG" && rest == "KG"
    ensures Scan(s, UnitAlternatives) == Some("5kg")
  {
    FirstUnitKg();
    assert s[0] == '5' && s[1..] == rest;
    assert ['5'] + "kg" == "5kg";
    ScanDigitUnit(s, rest, "kg", UnitAlternatives);
  }

  lemma {:induction false} ScanFiveKg()
    ensures Scan("5KG", UnitAlternatives) == Some("5kg")
  {
    ScanFiveKgParts("5KG", "KG");
  }

  lemma {:induction false} ExtractFiveKgParts(s: string)
    requires s == "ARROZ " + "5KG"
    ensures ExtractUnit(s) == Some("5kg")
  {
    ScanSkips(s, 6, UnitAlternatives);
    assert s[6..] == "5KG";
    ScanFiveKg();
  }

  /** "ARROZ 5KG" gives "5kg". */
  lemma {:induction false} ExtractFiveKg()
    ensures ExtractUnit("ARROZ 5KG") == Some("5kg")
  {
    ExtractFiveKgParts("ARROZ 5KG");
  }

  lemma {:induction false} FirstUnitL()
    ensures FirstUnit("L", UnitAlternatives) == Some("l")
  {
    LowerOf("L", "l");
    assert !StartsWithIgnoringCase("L", "kg");
  }

  lemma {:induction false} ScanOneLParts(s: string, rest: string)
    requires s == "1L" && rest == "L"
    ensures Scan(s, UnitAlternatives) == Some("1l")
  {
    FirstUnitL();
    assert s[0] == '1' && s[1..] == rest;
    assert ['1'] + "l" == "1l";
    ScanDigitUnit(s, rest, "l", UnitAlternatives);
  }

  lemma {:induction false} ScanOneL()
    ensures Scan("1L", UnitAlternatives) == Some("1l")
  {
    ScanOneLParts("1L", "L");
  }

  lemma {:induction false} ExtractOneLParts(s: string)
    requires s == "LEITE " + "1L"
    ensures ExtractUnit(s) == Some("1l")
  {
    ScanSkips(s, 6, UnitAlternatives);
    assert s[6..] == "1L";
    ScanOneL();
  }

  /** "LEITE 1L" gives "1l". */
  lemma {:induction false} ExtractOneL()
    ensures ExtractUnit("LEITE 1L") == Some("1l")
  {
    ExtractOneLParts("LEITE 1L");
  }

  // ---------------------------------------------------------------------------------------
  // The shadowed "pct" alternative

  /** Whenever "pct" matches, the earlier alternative "pc" matches too. */
  lemma {:induction false} PctImpliesPc(s: string)
    requires StartsWithIgnoringCase(s, "pct")
    ensures StartsWithIgnoringCase(s, "pc")
  {
    assert Lower(s[..2]) == Lower(s[..3])[..2];
  }

  /** As written, the unit "pct" is never the one extracted. */
  lemma {:induction false} PctNeverExtracted(s: string)
    ensures FirstUnit(s, UnitAlternatives) != Some("pct")
  {
    var r := FirstUnit(s, UnitAlternatives);
    if r == Some("pct") {
      var i :| 0 <= i < |UnitAlternatives| && r.value == UnitAlternatives[i] && StartsWithIgnoringCase(s, UnitAlternatives[i]) &&
               forall j :: 0 <= j < i ==> !StartsWithIgnoringCase(s, UnitAlternatives[j]);
      assert i == 6;
      PctImpliesPc(s);
    }
  }

  lemma {:induction false} FirstUnitPct()
    ensures FirstUnit("PCT", UnitAlternatives) == Some("pc")
  {
    var units := UnitAlternatives;
    LowerOf("PC", "pc");
    assert "PCT"[..2] == "PC";
    assert units[5] == "pc";
    forall j | 0 <= j < 5 ensures !StartsWithIgnoringCase("PCT", units[j]) {
      FirstLetterDiffers("PCT", units[j]);
    }
    FirstUnitAt("PCT", units, 5);
  }

  lemma {:induction false} ScanOnePctParts(s: string, rest: string)
    requires s == "1PCT" && rest == "PCT"
    ensures Scan(s, UnitAlternatives) == Some("1pc")
  {
    FirstUnitPct();
    OnePctHead(s, rest);
    assert ['1'] + "pc" == "1pc";
    ScanDigitUnit(s, rest, "pc", UnitAlternatives);
  }

  /** "1PCT" gives "1pc": the regex stops after "pc". */
  lemma {:induction false} ExtractOnePct()
    ensures ExtractUnit("1PCT") == Some("1pc")
  {
    ScanOnePctParts("1PCT", "PCT");
  }

  /** The alternatives with "pct" tried before its prefix "pc". */
  const UnitAlternativesLongestFirst: seq<string> := ["kg", "l", "ml", "g", "un", "pct", "pc"]

  /** `extractUnitFromName` with every alternative reachable. */
  function ExtractUnitLongestFirst(name: string): Option<string> {
    Scan(name, UnitAlternativesLongestFirst)
  }

  /** No alternative is a prefix of a later one. */
  predicate NoShadowing(units: seq<string>) {
    forall i, j :: 0 <= i < j < |units| ==> !(|units[i]| <= |units[j]| && units[j][..|units[i]|] == units[i])
  }

  lemma {:induction false} LowerOfAsciiLower(w: string)
    requires AsciiLowerWord(w)
    ensures Lower(w) == w
  {
  }

  /** Without shadowing, every lower-case alternative is extracted from its own text. */
  lemma {:induction false} EveryUnitReachable(units: seq<string>, k: nat)
    requires NoShadowing(units)
    requires k < |units| && AsciiLowerWord(units[k])
    ensures FirstUnit(units[k], units) == Some(units[k])
  {
    var w := units[k];
    forall j | 0 <= j < k
      ensures !StartsWithIgnoringCase(w, units[j])
    {
      if |units[j]| <= |w| {
        LowerOfAsciiLower(w[..|units[j]|]);
      }
    }
    assert w[..|w|] == w;
    LowerOfAsciiLower(w);
    var r := FirstUnit(w, units);
    var i :| 0 <= i < |units| && r.value == units[i] && StartsWithIgnoringCase(w, units[i]) &&
             forall j :: 0 <= j < i ==> !StartsWithIgnoringCase(w, units[j]);
  }

  lemma {:induction false} LongestFirstHasNoShadowing()
    ensures NoShadowing(UnitAlternativesLongestFirst)
    ensures forall k :: 0 <= k < |UnitAlternativesLongestFirst| ==> AsciiLowerWord(UnitAlternativesLongestFirst[k])
  {
    var units := UnitAlternativesLongestFirst;
    forall i, j | 0 <= i < j < |units|
      ensures !(|units[i]| <= |units[j]| && units[j][..|units[i]|] == units[i])
    {
      assert units[i][0] != units[j][0] || (i == 5 && j == 6);
    }
  }

  /** With "pct" first, "pct" is extracted from "pct", and every other alternative from itself. */
  lemma {:induction false} LongestFirstReachesPct(k: nat)
    requires k < |UnitAlternativesLongestFirst|
    ensures FirstUnit(UnitAlternativesLongestFirst[k], UnitAlternativesLongestFirst) == Some(UnitAlternativesLongestFirst[k])
  {
    LongestFirstHasNoShadowing();
    EveryUnitReachable(UnitAlternativesLongestFirst, k);
  }

  lemma {:induction false} FirstUnitPctFixed()
    ensures FirstUnit("PCT", UnitAlternativesLongestFirst) == Some("pct")
  {
    var units := UnitAlternativesLongestFirst;
    LowerOf("PCT", "pct");
    assert "PCT"[..3] == "PCT";
    assert units[5] == "pct";
    forall j | 0 <= j < 5 ensures !StartsWithIgnoringCase("PCT", units[j]) {
      FirstLetterDiffers("PCT", units[j]);
    }
    FirstUnitAt("PCT", units, 5);
  }

  lemma {:induction false} OnePctHead(s: string, rest: string)
    requires s == "1PCT" && rest == "PCT"
    ensures s[0] == '1' && s[1..] == rest
    ensures rest != [] && !IsDigit(rest[0]) && !IsSpace(rest[0]) && rest[0] != '.'
    ensures ['1'] + "pct" == "1pct"
  {
  }

  lemma {:induction false} OnePctUnit(rest: string)
    requires rest == "PCT"
    ensures FirstUnit(rest, UnitAlternativesLongestFirst) == Some("pct")
  {
    FirstUnitPctFixed();
  }

  lemma {:induction false} ScanOnePctFixedParts(s: string, rest: string)
    requires s == "1PCT" && rest == "PCT"
    ensures Scan(s, UnitAlternativesLongestFirst) == Some("1pct")
  {
    OnePctUnit(rest);
    OnePctHead(s, rest);
    ScanDigitUnit(s, rest, "pct", UnitAlternativesLongestFirst);
  }

  /** "1PCT" gives "1pct" once "pct" is tried first. */
  lemma {:induction false} ExtractOnePctFixed()
    ensures ExtractUnitLongestFirst("1PCT") == Some("1pct")
  {
    ScanOnePctFixedParts("1PCT", "PCT");
  }
  // ---------------------------------------------------------------------------------------
  // findOrCreateProduct

  /** The row a new product gets: the raw name, its key, its category and the unit. */
  function NewCatalogueProduct(name: string, unit: string): ProductModel.NewProduct {
    ProductModel.NewProduct(name, Normalize(name), Some(Categorize(name)), Some(unit))
  }

  /**
   * `findOrCreateProduct`: the product whose key is the normalised name, unchanged, when the
   * catalogue has one; otherwise one new product with the raw name, that key, the category of
   * the name and the unit (default "UN"), and nothing else changes.
   */
  method FindOrCreateProduct(db: Storage.Database, name: string, unit: Option<string>, now: int)
    returns (product: Storage.Product)
    requires db.Valid()
    modifies db
    ensures db.Valid()
    ensures product.normalizedName == Normalize(name) && product in db.products
    ensures Storage.HasKey(old(db.products), Normalize(name)) ==>
      Some(product) == Storage.ProductByKey(old(db.products), Normalize(name)) && db.State() == old(db.State())
    ensures !Storage.HasKey(old(db.products), Normalize(name)) ==>
      product == ProductModel.InsertedRow(NewCatalogueProduct(name, unit.GetOr("UN")), old(db.nextId), now) &&
      db.products == old(db.products) + [product] && db.nextId == old(db.nextId) + 1 &&
      db.prices == old(db.prices) && db.receipts == old(db.receipts) && db.items == old(db.items)
  {
    var normalizedName := NormalizeProductName(name);
    var existing := Storage.ProductByKey(db.products, normalizedName);
    if existing.Some? {
      return existing.value;
    }
    var created := ProductModel.CreateProduct(db, NewCatalogueProduct(name, unit.GetOr("UN")), now);
    product := created.value;
  }
}
