/**
 * The accent-, case- and spacing-insensitive comparison key that both copies of
 * `normalizeProductName` compute first: `toLowerCase()`, `normalize('NFD')`, removal of the
 * Combining Diacritical Marks block U+0300..U+036F, collapse of white-space runs to one space,
 * and `trim()`.
 */
module NameKey {
  import opened JsText

  /** The Combining Diacritical Marks block. */
  predicate IsCombiningMark(c: char) { '\U{300}' <= c <= '\U{36F}' }

  function Grave(): char { '\U{300}' }
  function Acute(): char { '\U{301}' }
  function Circumflex(): char { '\U{302}' }
  function Tilde(): char { '\U{303}' }
  function Diaeresis(): char { '\U{308}' }
  function RingAbove(): char { '\U{30A}' }
  function Cedilla(): char { '\U{327}' }

  /**
   * The lower-case letters of the Latin-1 Supplement that carry a diacritic: U+00E0..U+00FF
   * except æ, ð, ÷, ø and þ.
   */
  predicate HasDecomposition(c: char) {
    '\U{E0}' <= c <= '\U{FF}' && c != '\U{E6}' && c != '\U{F0}' && c != '\U{F7}' && c != '\U{F8}' && c != '\U{FE}'
  }

  /**
   * Canonical decomposition (NFD) of one character, for the lower-case letters of the Latin-1
   * Supplement: a base letter followed by its combining mark. Every other character is its own
   * decomposition.
   */
  function Decompose(c: char): (r: string)
    ensures HasDecomposition(c) ==> |r| == 2 && 'a' <= r[0] <= 'z' && IsCombiningMark(r[1])
    ensures !HasDecomposition(c) ==> r == [c]
  {
    if !HasDecomposition(c) then [c]
    else if c == '\U{E0}' then ['a', Grave()]
    else if c == '\U{E1}' then ['a', Acute()]
    else if c == '\U{E2}' then ['a', Circumflex()]
    else if c == '\U{E3}' then ['a', Tilde()]
    else if c == '\U{E4}' then ['a', Diaeresis()]
    else if c == '\U{E5}' then ['a', RingAbove()]
    else if c == '\U{E7}' then ['c', Cedilla()]
    else if c == '\U{E8}' then ['e', Grave()]
    else if c == '\U{E9}' then ['e', Acute()]
    else if c == '\U{EA}' then ['e', Circumflex()]
    else if c == '\U{EB}' then ['e', Diaeresis()]
    else if c == '\U{EC}' then ['i', Grave()]
    else if c == '\U{ED}' then ['i', Acute()]
    else if c == '\U{EE}' then ['i', Circumflex()]
    else if c == '\U{EF}' then ['i', Diaeresis()]
    else if c == '\U{F1}' then ['n', Tilde()]
    else if c == '\U{F2}' then ['o', Grave()]
    else if c == '\U{F3}' then ['o', Acute()]
    else if c == '\U{F4}' then ['o', Circumflex()]
    else if c == '\U{F5}' then ['o', Tilde()]
    else if c == '\U{F6}' then ['o', Diaeresis()]
    else if c == '\U{F9}' then ['u', Grave()]
    else if c == '\U{FA}' then ['u', Acute()]
    else if c == '\U{FB}' then ['u', Circumflex()]
    else if c == '\U{FC}' then ['u', Diaeresis()]
    else if c == '\U{FD}' then ['y', Acute()]
    else ['y', Diaeresis()]
  }

  /** `s.normalize('NFD')`, character by character. */
  function Nfd(s: string): string {
    if s == [] then [] else Decompose(s[0]) + Nfd(s[1..])
  }

  /** `s.replace(/[̀-ͯ]/g, '')`. */
  function StripMarks(s: string): (r: string)
    ensures forall i :: 0 <= i < |r| ==> !IsCombiningMark(r[i])
  {
    if s == [] then []
    else (if IsCombiningMark(s[0]) then [] else [s[0]]) + StripMarks(s[1..])
  }

  /** `s.replace(/\s+/g, ' ')`: every maximal run of white space becomes one space. */
  function CollapseSpaces(s: string): (r: string)
    decreases |s|
  {
    if s == [] then []
    else if IsSpace(s[0]) then [' '] + CollapseSpaces(TrimStart(s[1..]))
    else [s[0]] + CollapseSpaces(s[1..])
  }

  /** The characters the key can contain: nothing left to lower-case, decompose or strip. */
  predicate KeyChar(c: char) {
    ToLowerChar(c) == c && !HasDecomposition(c) && !IsCombiningMark(c)
  }

  /**
   * White space in the key: only plain spaces, none at either end, and never two in a row.
   */
  predicate SingleSpaced(s: string) {
    forall i :: 0 <= i < |s| && IsSpace(s[i]) ==> s[i] == ' ' && 0 < i < |s| - 1 && !IsSpace(s[i + 1])
  }

  /** Lower-casing, decomposition and removal of the marks. */
  function Fold(name: string): string {
    StripMarks(Nfd(Lower(name)))
  }

  /** The common comparison key of a product name. */
  function BaseKey(name: string): string {
    Trim(CollapseSpaces(Fold(name)))
  }

  // ---------------------------------------------------------------------------------------
  // Distribution over concatenation

  lemma {:induction false} LowerAppend(a: string, b: string)
    ensures Lower(a + b) == Lower(a) + Lower(b)
  {
  }

  lemma {:induction false} NfdAppend(a: string, b: string)
    ensures Nfd(a + b) == Nfd(a) + Nfd(b)
    decreases |a|
  {
    if a == [] {
      assert a + b == b;
    } else {
      assert (a + b)[1..] == a[1..] + b;
      NfdAppend(a[1..], b);
    }
  }

  lemma {:induction false} StripMarksAppend(a: string, b: string)
    ensures StripMarks(a + b) == StripMarks(a) + StripMarks(b)
    decreases |a|
  {
    if a == [] {
      assert a + b == b;
    } else {
      assert (a + b)[1..] == a[1..] + b;
      StripMarksAppend(a[1..], b);
    }
  }

  // ---------------------------------------------------------------------------------------
  // Characters of the key

  lemma {:induction false} NfdChars(s: string)
    requires forall i :: 0 <= i < |s| ==> ToLowerChar(s[i]) == s[i]
    ensures forall i :: 0 <= i < |Nfd(s)| ==> ToLowerChar(Nfd(s)[i]) == Nfd(s)[i]
    ensures forall i :: 0 <= i < |Nfd(s)| ==> IsCombiningMark(Nfd(s)[i]) || !HasDecomposition(Nfd(s)[i])
    decreases |s|
  {
    if s != [] {
      NfdChars(s[1..]);
      var d := Decompose(s[0]);
      assert Nfd(s) == d + Nfd(s[1..]);
      forall i | 0 <= i < |d|
        ensures ToLowerChar(d[i]) == d[i]
        ensures IsCombiningMark(d[i]) || !HasDecomposition(d[i])
      {
      }
    }
  }

  lemma {:induction false} StripMarksKeepsChars(s: string, P: char -> bool)
    requires forall i :: 0 <= i < |s| ==> P(s[i])
    ensures forall i :: 0 <= i < |StripMarks(s)| ==> P(StripMarks(s)[i])
    decreases |s|
  {
    if s != [] {
      StripMarksKeepsChars(s[1..], P);
    }
  }

  lemma {:induction false} CollapseKeepsChars(s: string, P: char -> bool)
    requires P(' ')
    requires forall i :: 0 <= i < |s| ==> P(s[i])
    ensures forall i :: 0 <= i < |CollapseSpaces(s)| ==> P(CollapseSpaces(s)[i])
    decreases |s|
  {
    if s != [] {
      if IsSpace(s[0]) {
        var t := TrimStart(s[1..]);
        assert t == s[1..][|s[1..]| - |t|..];
        CollapseKeepsChars(t, P);
      } else {
        CollapseKeepsChars(s[1..], P);
      }
    }
  }

  lemma {:induction false} KeyCharsOfFold(name: string)
    ensures forall i :: 0 <= i < |Fold(name)| ==> KeyChar(Fold(name)[i])
  {
    var n := Nfd(Lower(name));
    NfdChars(Lower(name));
    StripMarksKeepsChars(n, c => ToLowerChar(c) == c && (IsCombiningMark(c) || !HasDecomposition(c)));
  }

  // ---------------------------------------------------------------------------------------
  // Spacing of the key

  /** After the collapse, white space is plain spaces, never two in a row. */
  predicate NoDoubleSpace(s: string) {
    forall i :: 0 <= i < |s| && IsSpace(s[i]) ==> s[i] == ' ' && (i + 1 < |s| ==> !IsSpace(s[i + 1]))
  }

  lemma {:induction false} CollapseNoDoubleSpace(s: string)
    ensures NoDoubleSpace(CollapseSpaces(s))
    ensures s != [] && !IsSpace(s[0]) ==> CollapseSpaces(s) != [] && CollapseSpaces(s)[0] == s[0]
    ensures s != [] && IsSpace(s[0]) ==> CollapseSpaces(s) != [] && CollapseSpaces(s)[0] == ' '
    decreases |s|
  {
    if s != [] {
      if IsSpace(s[0]) {
        var t := TrimStart(s[1..]);
        CollapseNoDoubleSpace(t);
        assert CollapseSpaces(s) == [' '] + CollapseSpaces(t);
        NoDoubleSpaceAppend([' '], CollapseSpaces(t));
      } else {
        CollapseNoDoubleSpace(s[1..]);
        assert CollapseSpaces(s) == [s[0]] + CollapseSpaces(s[1..]);
        NoDoubleSpaceAppend([s[0]], CollapseSpaces(s[1..]));
      }
    }
  }

  lemma {:induction false} TrimSingleSpaced(s: string)
    requires NoDoubleSpace(s)
    ensures SingleSpaced(Trim(s))
  {
    var a := TrimStart(s);
    var r := TrimEnd(a);
    NoDoubleSpaceSlice(s, |s| - |a|, |s|);
    NoDoubleSpaceSlice(a, 0, |r|);
    assert r == a[..|r|];
    if r != [] {
      assert r[0] == a[0];
    }
    SingleSpacedIff(r);
  }

  lemma {:induction false} NoDoubleSpaceSlice(s: string, lo: nat, hi: nat)
    requires NoDoubleSpace(s) && lo <= hi <= |s|
    ensures NoDoubleSpace(s[lo..hi])
  {
    var t := s[lo..hi];
    forall i | 0 <= i < |t| && IsSpace(t[i])
      ensures t[i] == ' ' && (i + 1 < |t| ==> !IsSpace(t[i + 1]))
    {
      assert t[i] == s[lo + i];
      if i + 1 < |t| {
        assert t[i + 1] == s[lo + i + 1];
      }
    }
  }

  lemma {:induction false} SingleSpacedIff(s: string)
    ensures SingleSpaced(s) <==> NoDoubleSpace(s) && (s != [] ==> !IsSpace(s[0]) && !IsSpace(s[|s| - 1]))
  {
  }

  lemma {:induction false} NoDoubleSpaceAppend(a: string, b: string)
    requires NoDoubleSpace(a) && NoDoubleSpace(b)
    requires a == [] || b == [] || !IsSpace(a[|a| - 1]) || !IsSpace(b[0])
    ensures NoDoubleSpace(a + b)
  {
    forall i | 0 <= i < |a + b| && IsSpace((a + b)[i])
      ensures (a + b)[i] == ' ' && (i + 1 < |a + b| ==> !IsSpace((a + b)[i + 1]))
    {
      if i < |a| {
        assert (a + b)[i] == a[i];
        if i + 1 < |a| {
          assert (a + b)[i + 1] == a[i + 1];
        } else if i + 1 < |a + b| {
          assert (a + b)[i + 1] == b[0];
        }
      } else {
        assert (a + b)[i] == b[i - |a|];
        if i + 1 < |a + b| {
          assert (a + b)[i + 1] == b[i + 1 - |a|];
        }
      }
    }
  }

  // ---------------------------------------------------------------------------------------
  // Properties of the key

  /** The key never starts or ends with white space and never has two white-space characters in a row. */
  lemma {:induction false} BaseKeySingleSpaced(name: string)
    ensures SingleSpaced(BaseKey(name))
  {
    CollapseNoDoubleSpace(Fold(name));
    TrimSingleSpaced(CollapseSpaces(Fold(name)));
  }

  lemma {:induction false} BaseKeyChars(name: string)
    ensures forall i :: 0 <= i < |BaseKey(name)| ==> KeyChar(BaseKey(name)[i])
  {
    KeyCharsOfFold(name);
    var c := CollapseSpaces(Fold(name));
    assert KeyChar(' ');
    CollapseKeepsChars(Fold(name), KeyChar);
    var a := TrimStart(c);
    assert a == c[|c| - |a|..];
    assert Trim(c) == a[..|Trim(c)|];
  }

  lemma {:induction false} KeyCharsFixed(s: string)
    requires forall i :: 0 <= i < |s| ==> KeyChar(s[i])
    ensures Nfd(s) == s && StripMarks(s) == s
    decreases |s|
  {
    if s != [] {
      KeyCharsFixed(s[1..]);
    }
  }

  lemma {:induction false} CollapseFixed(s: string)
    requires NoDoubleSpace(s)
    ensures CollapseSpaces(s) == s
    decreases |s|
  {
    if s != [] {
      var t := s[1..];
      NoDoubleSpaceSlice(s, 1, |s|);
      CollapseFixed(t);
      assert s == [s[0]] + t;
      if IsSpace(s[0]) {
        assert s[0] == ' ';
        assert t == [] || t[0] == s[1];
        assert TrimStart(t) == t;
        assert CollapseSpaces(s) == [' '] + CollapseSpaces(TrimStart(t));
      } else {
        assert CollapseSpaces(s) == [s[0]] + CollapseSpaces(t);
      }
    }
  }

  lemma {:induction false} TrimFixed(s: string)
    requires SingleSpaced(s)
    ensures Trim(s) == s
  {
    assert s == [] || !IsSpace(s[0]);
    assert TrimStart(s) == s;
    assert s == [] || !IsSpace(s[|s| - 1]);
  }

  /** A string that is already a key is its own key. */
  lemma {:induction false} BaseKeyOfKey(s: string)
    requires forall i :: 0 <= i < |s| ==> KeyChar(s[i])
    requires SingleSpaced(s)
    ensures BaseKey(s) == s
  {
    assert Lower(s) == s;
    KeyCharsFixed(s);
    CollapseFixed(s);
    TrimFixed(s);
  }

  /** Normalising twice gives the same key as normalising once. */
  lemma {:induction false} BaseKeyIdempotent(name: string)
    ensures BaseKey(BaseKey(name)) == BaseKey(name)
  {
    BaseKeyChars(name);
    BaseKeySingleSpaced(name);
    BaseKeyOfKey(BaseKey(name));
  }

  lemma {:induction false} MarkFolds(m: char)
    requires IsCombiningMark(m)
    ensures Fold([m]) == []
  {
    assert Lower([m]) == [m];
    assert Decompose(m) == [m];
    assert Nfd([m]) == [m] + Nfd([]);
    assert StripMarks([m]) == [] + StripMarks([]);
  }

  lemma {:induction false} FoldAppend(a: string, b: string)
    ensures Fold(a + b) == Fold(a) + Fold(b)
  {
    LowerAppend(a, b);
    NfdAppend(Lower(a), Lower(b));
    StripMarksAppend(Nfd(Lower(a)), Nfd(Lower(b)));
  }

  /** Inserting a combining diacritical mark anywhere in a name does not change its key. */
  lemma {:induction false} BaseKeyIgnoresMark(a: string, m: char, b: string)
    requires IsCombiningMark(m)
    ensures BaseKey(a + [m] + b) == BaseKey(a + b)
  {
    FoldAppend(a + [m], b);
    FoldAppend(a, [m]);
    FoldAppend(a, b);
    MarkFolds(m);
    assert Fold(a + [m]) == Fold(a);
    assert Fold(a + [m] + b) == Fold(a + b);
    SameFoldSameKey(a + [m] + b, a + b);
  }

  lemma {:induction false} SameFoldSameKey(x: string, y: string)
    requires Fold(x) == Fold(y)
    ensures BaseKey(x) == BaseKey(y)
  {
  }

  /** Names that lower-case to the same text have the same key. */
  lemma {:induction false} BaseKeyIgnoresCase(name: string)
    ensures BaseKey(Lower(name)) == BaseKey(name)
  {
    LowerIdempotent(name);
  }

  // ---------------------------------------------------------------------------------------
  // Worked examples

  /** `Lower` computed on a literal, by comparing the strings position by position. */
  lemma {:induction false} LowerOf(s: string, t: string)
    requires |s| == |t| && forall i :: 0 <= i < |s| ==> ToLowerChar(s[i]) == t[i]
    ensures Lower(s) == t
  {
  }

  /** Printable ASCII text, single-spaced, has its lower-case form as key. */
  lemma {:induction false} BaseKeyOfAscii(s: string)
    requires forall i :: 0 <= i < |s| ==> '!' <= s[i] <= '~' || s[i] == ' '
    requires SingleSpaced(s)
    ensures BaseKey(s) == Lower(s)
  {
    var l := Lower(s);
    forall i | 0 <= i < |l|
      ensures KeyChar(l[i])
    {
    }
    assert SingleSpaced(l) by {
      forall i | 0 <= i < |l| && IsSpace(l[i])
        ensures l[i] == ' ' && 0 < i < |l| - 1 && !IsSpace(l[i + 1])
      {
        assert IsSpace(s[i]);
        assert l[i + 1] == ToLowerChar(s[i + 1]);
      }
    }
    BaseKeyOfKey(l);
    BaseKeyIgnoresCase(s);
  }

  lemma {:induction false} FoldOne(c: char)
    ensures Fold([c]) == StripMarks(Decompose(ToLowerChar(c)))
  {
    var d := Decompose(ToLowerChar(c));
    assert Lower([c]) == [ToLowerChar(c)];
    assert Nfd([ToLowerChar(c)]) == d + Nfd([]);
    assert d + [] == d;
  }

  lemma {:induction false} StripPair(base: char, mark: char)
    requires !IsCombiningMark(base) && IsCombiningMark(mark)
    ensures StripMarks([base, mark]) == [base]
  {
    assert [base, mark][1..] == [mark];
    assert StripMarks([mark]) == [] + StripMarks([]);
  }

  lemma {:induction false} FoldOfCCedilla()
    ensures Fold("\U{C7}") == "c"
  {
    FoldOne('\U{C7}');
    StripPair('c', Cedilla());
  }

  lemma {:induction false} FoldOfUAcute()
    ensures Fold("\U{DA}") == "u"
  {
    FoldOne('\U{DA}');
    StripPair('u', Acute());
  }

  lemma {:induction false} FoldOfA()
    ensures Fold("A") == "a"
  {
    FoldOne('A');
    assert StripMarks("a") == "a" + StripMarks([]);
  }

  lemma {:induction false} FoldOfCar()
    ensures Fold("CAR") == "car"
  {
    LowerOf("CAR", "car");
    KeyCharsFixed("car");
  }

  lemma {:induction false} FoldFour(a: string, b: string, c: string, d: string)
    ensures Fold(a + b + c + d) == Fold(a) + Fold(b) + Fold(c) + Fold(d)
  {
    FoldAppend(a + b + c, d);
    FoldAppend(a + b, c);
    FoldAppend(a, b);
  }

  lemma {:induction false} FoldOfAcucarParts(s: string, a: string, c: string, u: string, car: string)
    requires a == "A" && c == "\U{C7}" && u == "\U{DA}" && car == "CAR" && s == a + c + u + car
    ensures Fold(s) == "acucar"
  {
    FoldOfA();
    FoldOfCCedilla();
    FoldOfUAcute();
    FoldOfCar();
    FoldFour(a, c, u, car);
    AcucarLetters("a", "c", "u", "car");
  }

  lemma {:induction false} AcucarLetters(a: string, c: string, u: string, car: string)
    requires a == "a" && c == "c" && u == "u" && car == "car"
    ensures a + c + u + car == "acucar"
  {
    assert a + c + u + car == [a[0], c[0], u[0], car[0], car[1], car[2]];
  }

  lemma {:induction false} FoldOfAcucar()
    ensures Fold("A\U{C7}\U{DA}CAR") == "acucar"
  {
    FoldOfAcucarParts("A\U{C7}\U{DA}CAR", "A", "\U{C7}", "\U{DA}", "CAR");
  }

  /** When the folded text is already single-spaced, it is the key. */
  lemma {:induction false} BaseKeyOfSpacedFold(s: string)
    requires SingleSpaced(Fold(s))
    ensures BaseKey(s) == Fold(s)
  {
    SingleSpacedIff(Fold(s));
    CollapseFixed(Fold(s));
    TrimFixed(Fold(s));
  }

  lemma {:induction false} AcucarSpaced()
    ensures SingleSpaced("acucar")
  {
  }

  lemma {:induction false} KeyOfAcucarUpper()
    ensures BaseKey("A\U{C7}\U{DA}CAR") == "acucar"
  {
    FoldOfAcucar();
    AcucarSpaced();
    BaseKeyOfSpacedFold("A\U{C7}\U{DA}CAR");
  }

  lemma {:induction false} KeyOfAcucar()
    ensures BaseKey("acucar") == "acucar"
  {
    LowerOf("acucar", "acucar");
    BaseKeyOfAscii("acucar");
  }

  /** "AÇÚCAR" and "acucar" have the same key, "acucar". */
  lemma {:induction false} AcucarKey()
    ensures BaseKey("A\U{C7}\U{DA}CAR") == "acucar"
    ensures BaseKey("acucar") == "acucar"
  {
    KeyOfAcucarUpper();
    KeyOfAcucar();
  }
}
