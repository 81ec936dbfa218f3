/**
 * Extraction of a receipt from an NFC-e document (Nota Fiscal de Consumidor Eletrônica), starting
 * from the tree xml2js builds with `explicitArray: false`, `mergeAttrs: true` and
 * `normalizeTags: true`: every element becomes an object keyed by lower-cased tag, a leaf becomes
 * its (trimmed) text, and a tag repeated under one parent becomes an array.
 *
 * The extraction reads that tree the way JavaScript does: a missing property is `undefined`,
 * `a || b` takes the first truthy operand, `a?.b` is `undefined` when `a` is, and reading a
 * property of `undefined` without `?.` throws a TypeError.
 */
module NfceParser {
  import opened Wrappers
  import opened JsText

  /** A value of the xml2js tree. */
  datatype XVal =
    | Text(text: string)
    | Elem(children: map<string, XVal>)
    | Many(values: seq<XVal>)

  // ---------------------------------------------------------------------------------------
  // JavaScript reading of the tree

  /** JavaScript truthiness of a possibly undefined tree value: only `undefined` and "" are falsy. */
  predicate Truthy(v: Option<XVal>) {
    match v
    case None => false
    case Some(Text(s)) => s != ""
    case Some(Elem(_)) => true
    case Some(Many(_)) => true
  }

  /** `a || b`. */
  function Or(a: Option<XVal>, b: Option<XVal>): (r: Option<XVal>)
    ensures Truthy(a) ==> r == a
    ensures !Truthy(a) ==> r == b
  {
    if Truthy(a) then a else b
  }

  /** `v?.key`: the child of an element, `undefined` for anything else. */
  function Prop(v: Option<XVal>, key: string): (r: Option<XVal>)
    ensures r.Some? ==> v.Some? && v.value.Elem? && key in v.value.children && r.value == v.value.children[key]
  {
    match v
    case Some(Elem(m)) => if key in m then Some(m[key]) else None
    case _ => None
  }

  /** `String(v)`: a string is itself, an object "[object Object]", an array its elements joined by ",". */
  function JsString(v: XVal): string
    decreases v, 1
  {
    match v
    case Text(s) => s
    case Elem(_) => "[object Object]"
    case Many(vs) => JoinValues(vs, v)
  }

  /** `vs.join(",")`, for the elements of the array `whole`. */
  function JoinValues(vs: seq<XVal>, ghost whole: XVal): string
    requires forall i :: 0 <= i < |vs| ==> vs[i] < whole
    decreases whole, 0, |vs|
  {
    if vs == [] then ""
    else if |vs| == 1 then JsString(vs[0])
    else JsString(vs[0]) + "," + JoinValues(vs[1..], whole)
  }

  /** `v || fallback`, where the result is then used as a string. */
  function OrText(v: Option<XVal>, fallback: string): (s: string)
    ensures Truthy(v) && v.value.Text? ==> s == v.value.text
    ensures !Truthy(v) ==> s == fallback
  {
    if Truthy(v) then JsString(v.value) else fallback
  }

  /** `v || fallback` is a string: the tag is missing or empty, or holds a text. */
  predicate GivesString(v: Option<XVal>) {
    !Truthy(v) || v.value.Text?
  }

  /** The message V8 gives when a property of `undefined` is read. */
  function CannotRead(key: string): string {
    "Cannot read properties of undefined (reading '" + key + "')"
  }

  // ---------------------------------------------------------------------------------------
  // The extracted receipt

  /** `purchaseDate`: the date text of the document, or the time of parsing when there is none. */
  datatype DateSource = FromText(text: string) | CurrentTime

  /**
   * An item of the document. The amounts are `parseFloat` of the texts kept here (the tag's text or
   * the default), so a reader of the item gets them through `quantity()`, `unitPrice()` and
   * `totalPrice()`. `nameIsText` says whether `name` is a string in the program: an `<xProd>` with an
   * attribute, or repeated, is an object or an array there, and `name` then holds its `String()`.
   */
  datatype ParsedItem = ParsedItem(
    name: string,
    quantityText: string,
    unitPriceText: string,
    totalPriceText: string,
    unit: string,
    nameIsText: bool)
  {
    function quantity(): Decimal { ParseFloat(quantityText) }
    function unitPrice(): Decimal { ParseFloat(unitPriceText) }
    function totalPrice(): Decimal { ParseFloat(totalPriceText) }
  }

  datatype ParsedReceipt = ParsedReceipt(
    storeName: string,
    storeCnpj: string,
    totalText: string,
    purchaseDate: DateSource,
    receiptNumber: string,
    items: seq<ParsedItem>)
  {
    function totalAmount(): Decimal { ParseFloat(totalText) }
  }

  /** The error `parseNFCeXML` throws. */
  datatype ParseError = ParseError(message: string)

  const FailurePrefix: string := "Failed to parse NFC-e XML: "

  /** Every failure is rethrown with the prefix. */
  function Failed(inner: string): (e: ParseError)
    ensures StartsWith(e.message, FailurePrefix)
  {
    assert (FailurePrefix + inner)[..|FailurePrefix|] == FailurePrefix;
    ParseError(FailurePrefix + inner)
  }

  /** `parsed.nfeproc?.nfe?.infnfe || parsed.nfe?.infnfe || parsed.infnfe`. */
  function Root(parsed: XVal): Option<XVal> {
    var top := Some(parsed);
    Or(Or(Prop(Prop(Prop(top, "nfeproc"), "nfe"), "infnfe"), Prop(Prop(top, "nfe"), "infnfe")), Prop(top, "infnfe"))
  }

  /** `detList`: an array as it is, a single truthy value as a one-element list, otherwise empty. */
  function DetList(det: Option<XVal>): (dets: seq<XVal>)
    ensures det.Some? && det.value.Many? ==> dets == det.value.values
    ensures Truthy(det) && !det.value.Many? ==> dets == [det.value]
    ensures !Truthy(det) ==> dets == []
  {
    if det.Some? && det.value.Many? then det.value.values
    else if Truthy(det) then [det.value]
    else []
  }

  /** One element of the `det.map(...)`: its `prod` with the per-field defaults. */
  function ParseItem(det: XVal): (r: Result<ParsedItem, string>)
    ensures r.Err? <==> Prop(Some(det), "prod").None?
    ensures r.Err? ==> r.error == CannotRead("xprod")
  {
    var prod := Prop(Some(det), "prod");
    if prod.None? then Err(CannotRead("xprod"))
    else
      Ok(ParsedItem(
        OrText(Prop(prod, "xprod"), "Unknown Product"),
        OrText(Prop(prod, "qcom"), "1"),
        OrText(Prop(prod, "vuncom"), "0"),
        OrText(Prop(prod, "vprod"), "0"),
        OrText(Prop(prod, "ucom"), "UN"),
        GivesString(Prop(prod, "xprod"))))
  }

  /** `detList.map(...)`: the items in document order; the first element that throws stops it. */
  function ParseItems(dets: seq<XVal>): (r: Result<seq<ParsedItem>, string>)
    ensures r.Ok? <==> forall i :: 0 <= i < |dets| ==> ParseItem(dets[i]).Ok?
    ensures r.Ok? ==> |r.value| == |dets| && forall i :: 0 <= i < |dets| ==> ParseItem(dets[i]) == Ok(r.value[i])
    ensures r.Err? ==> r.error == CannotRead("xprod")
  {
    if dets == [] then Ok([])
    else
      var head := ParseItem(dets[0]);
      var tail := ParseItems(dets[1..]);
      assert forall i :: 1 <= i < |dets| ==> dets[i] == dets[1..][i - 1];
      if head.Err? then Err(head.error)
      else if tail.Err? then Err(tail.error)
      else
        var items := [head.value] + tail.value;
        assert forall i :: 1 <= i < |dets| ==> items[i] == tail.value[i - 1];
        Ok(items)
  }

  /** `parseNFCeXML` on the tree of the document. */
  function ParseNfce(parsed: XVal): (r: Result<ParsedReceipt, ParseError>)
    ensures r.Err? ==> StartsWith(r.error.message, FailurePrefix)
  {
    var nfe := Root(parsed);
    if !Truthy(nfe) then Err(Failed("Invalid NFC-e XML structure"))
    else
      var emit := Prop(nfe, "emit");
      var ide := Prop(nfe, "ide");
      if emit.None? then Err(Failed(CannotRead("xnome")))
      else if ide.None? then Err(Failed(CannotRead("dhemi")))
      else
        var items := ParseItems(DetList(Prop(nfe, "det")));
        if items.Err? then Err(Failed(items.error))
        else
          var total := Prop(Prop(nfe, "total"), "icmstot");
          var date := Or(Prop(ide, "dhemi"), Prop(ide, "demi"));
          Ok(ParsedReceipt(
            OrText(Or(Prop(emit, "xnome"), Prop(emit, "xfant")), "Store Name Not Found"),
            OrText(Prop(emit, "cnpj"), ""),
            OrText(Or(Prop(total, "vnf"), Prop(total, "vnfce")), "0"),
            if Truthy(date) then FromText(JsString(date.value)) else CurrentTime,
            OrText(Or(Prop(ide, "nnf"), Prop(ide, "cnf")), ""),
            items.value))
  }

  // ---------------------------------------------------------------------------------------
  // Properties of the extraction

  /** Without any of the three roots the document is rejected as an invalid structure. */
  lemma {:induction false} NoRootIsInvalid(parsed: XVal)
    requires !Truthy(Root(parsed))
    ensures ParseNfce(parsed) == Err(ParseError(FailurePrefix + "Invalid NFC-e XML structure"))
  {
  }

  /** The root chain prefers `nfeproc.nfe.infnfe`, then `nfe.infnfe`, then `infnfe`. */
  lemma {:induction false} RootPrecedence(outer: XVal, middle: XVal, inner: XVal)
    requires Truthy(Some(outer)) && Truthy(Some(middle))
    ensures Root(Elem(map["nfeproc" := Elem(map["nfe" := Elem(map["infnfe" := outer])]),
                          "nfe" := Elem(map["infnfe" := middle]), "infnfe" := inner])) == Some(outer)
    ensures Root(Elem(map["nfe" := Elem(map["infnfe" := middle]), "infnfe" := inner])) == Some(middle)
    ensures Root(Elem(map["infnfe" := inner])) == Some(inner)
  {
    var a := Elem(map["nfeproc" := Elem(map["nfe" := Elem(map["infnfe" := outer])]),
                      "nfe" := Elem(map["infnfe" := middle]), "infnfe" := inner]);
    assert Prop(Prop(Prop(Some(a), "nfeproc"), "nfe"), "infnfe") == Some(outer);
    var b := Elem(map["nfe" := Elem(map["infnfe" := middle]), "infnfe" := inner]);
    assert Prop(Some(b), "nfeproc") == None;
    assert Prop(Prop(Some(b), "nfe"), "infnfe") == Some(middle);
    var c := Elem(map["infnfe" := inner]);
    assert Prop(Some(c), "nfeproc") == None;
    assert Prop(Some(c), "nfe") == None;
  }

  /** A tag holding a non-empty text. */
  predicate TextTag(v: Option<XVal>) {
    Truthy(v) && v.value.Text?
  }

  /**
   * The document is accepted exactly when it has a root with `emit` and `ide` and every `det` element
   * has a `prod`: any other structure is a fault.
   */
  lemma {:induction false} AcceptedStructure(parsed: XVal)
    ensures var nfe := Root(parsed);
            var dets := DetList(Prop(nfe, "det"));
            ParseNfce(parsed).Ok? <==>
              Truthy(nfe) && Prop(nfe, "emit").Some? && Prop(nfe, "ide").Some? &&
              forall i :: 0 <= i < |dets| ==> Prop(Some(dets[i]), "prod").Some?
  {
  }

  /**
   * The header fields of an accepted document: the store name is `xnome`, else `xfant`, else "Store
   * Name Not Found"; the CNPJ is `cnpj`, else ""; the number is `nnf`, else `cnf`, else ""; the
   * date is `dhemi`, else `demi`, else the time of parsing.
   */
  lemma {:induction false} HeaderFallbacks(parsed: XVal)
    requires ParseNfce(parsed).Ok?
    ensures var emit := Prop(Root(parsed), "emit");
            var r := ParseNfce(parsed).value;
            (TextTag(Prop(emit, "xnome")) ==> r.storeName == Prop(emit, "xnome").value.text) &&
            (!Truthy(Prop(emit, "xnome")) && TextTag(Prop(emit, "xfant")) ==>
               r.storeName == Prop(emit, "xfant").value.text) &&
            (!Truthy(Prop(emit, "xnome")) && !Truthy(Prop(emit, "xfant")) ==> r.storeName == "Store Name Not Found") &&
            (TextTag(Prop(emit, "cnpj")) ==> r.storeCnpj == Prop(emit, "cnpj").value.text) &&
            (!Truthy(Prop(emit, "cnpj")) ==> r.storeCnpj == "")
    ensures var ide := Prop(Root(parsed), "ide");
            var r := ParseNfce(parsed).value;
            (TextTag(Prop(ide, "nnf")) ==> r.receiptNumber == Prop(ide, "nnf").value.text) &&
            (!Truthy(Prop(ide, "nnf")) && TextTag(Prop(ide, "cnf")) ==> r.receiptNumber == Prop(ide, "cnf").value.text) &&
            (!Truthy(Prop(ide, "nnf")) && !Truthy(Prop(ide, "cnf")) ==> r.receiptNumber == "") &&
            (TextTag(Prop(ide, "dhemi")) ==> r.purchaseDate == FromText(Prop(ide, "dhemi").value.text)) &&
            (!Truthy(Prop(ide, "dhemi")) && TextTag(Prop(ide, "demi")) ==>
               r.purchaseDate == FromText(Prop(ide, "demi").value.text)) &&
            (!Truthy(Prop(ide, "dhemi")) && !Truthy(Prop(ide, "demi")) ==> r.purchaseDate == CurrentTime)
  {
  }

  /** The total is the text of `vnf`, else of `vnfce`, else "0". */
  lemma {:induction false} TotalFallbacks(parsed: XVal)
    requires ParseNfce(parsed).Ok?
    ensures var total := Prop(Prop(Root(parsed), "total"), "icmstot");
            var r := ParseNfce(parsed).value;
            (TextTag(Prop(total, "vnf")) ==> r.totalText == Prop(total, "vnf").value.text) &&
            (!Truthy(Prop(total, "vnf")) && TextTag(Prop(total, "vnfce")) ==> r.totalText == Prop(total, "vnfce").value.text) &&
            (!Truthy(Prop(total, "vnf")) && !Truthy(Prop(total, "vnfce")) ==> r.totalText == "0")
  {
  }

  /** Each field of an item is the text of its tag when there is one, and its default otherwise. */
  lemma {:induction false} ItemFields(det: XVal)
    requires ParseItem(det).Ok?
    ensures var prod := Prop(Some(det), "prod");
            var item := ParseItem(det).value;
            (TextTag(Prop(prod, "xprod")) ==> item.name == Prop(prod, "xprod").value.text) &&
            (!Truthy(Prop(prod, "xprod")) ==> item.name == "Unknown Product") &&
            (item.nameIsText <==> !(Truthy(Prop(prod, "xprod")) && (Prop(prod, "xprod").value.Elem? || Prop(prod, "xprod").value.Many?))) &&
            (TextTag(Prop(prod, "qcom")) ==> item.quantityText == Prop(prod, "qcom").value.text) &&
            (!Truthy(Prop(prod, "qcom")) ==> item.quantityText == "1") &&
            (TextTag(Prop(prod, "vuncom")) ==> item.unitPriceText == Prop(prod, "vuncom").value.text) &&
            (!Truthy(Prop(prod, "vuncom")) ==> item.unitPriceText == "0") &&
            (TextTag(Prop(prod, "vprod")) ==> item.totalPriceText == Prop(prod, "vprod").value.text) &&
            (!Truthy(Prop(prod, "vprod")) ==> item.totalPriceText == "0") &&
            (TextTag(Prop(prod, "ucom")) ==> item.unit == Prop(prod, "ucom").value.text) &&
            (!Truthy(Prop(prod, "ucom")) ==> item.unit == "UN")
  {
  }

  /** Every failure message mentions "parse", which is how the upload handler recognises it. */
  lemma {:induction false} FailuresMentionParse(parsed: XVal)
    ensures ParseNfce(parsed).Err? ==> Includes(ParseNfce(parsed).error.message, "parse")
  {
    var r := ParseNfce(parsed);
    if r.Err? {
      PrefixMentionsParse(r.error.message);
    }
  }

  /** A message that starts with the prefix contains "parse". */
  lemma {:induction false} PrefixMentionsParse(m: string)
    requires StartsWith(m, FailurePrefix)
    ensures Includes(m, "parse")
  {
    forall k | 0 <= k < 5 ensures m[10..15][k] == "parse"[k] {
      assert m[10 + k] == m[..|FailurePrefix|][10 + k] == FailurePrefix[10 + k];
    }
    assert m[10..15] == "parse";
    IncludesAtOffset(m, "parse", 10);
  }

  lemma {:induction false} IncludesAtOffset(s: string, sub: string, i: nat)
    requires i + |sub| <= |s| && s[i..i + |sub|] == sub
    ensures Includes(s, sub)
    decreases i
  {
    if i > 0 {
      assert s[1..][i - 1..i - 1 + |sub|] == s[i..i + |sub|];
      IncludesAtOffset(s[1..], sub, i - 1);
    } else {
      assert s[..|sub|] == sub;
    }
  }

  /** The items are the `det` elements in document order, one per element, each read by `ParseItem`. */
  lemma {:induction false} ItemsFollowDets(parsed: XVal)
    requires ParseNfce(parsed).Ok?
    ensures var dets := DetList(Prop(Root(parsed), "det"));
            var items := ParseNfce(parsed).value.items;
            |items| == |dets| && forall i :: 0 <= i < |dets| ==> ParseItem(dets[i]) == Ok(items[i])
  {
  }

  /** A single `det` gives one item, and a document without `det` gives none. */
  lemma {:induction false} SingleOrNoDet(det: XVal)
    requires !det.Many? && Truthy(Some(det))
    ensures DetList(Some(det)) == [det]
    ensures DetList(None) == []
  {
  }

  /** A `prod` without any of the tags gets the defaults of every field: 1 × 0 = 0 of "UN". */
  lemma {:induction false} EmptyProdDefaults()
    ensures ParseItem(Elem(map["prod" := Elem(map[])])) == Ok(ParsedItem("Unknown Product", "1", "0", "0", "UN", true))
    ensures var item := ParsedItem("Unknown Product", "1", "0", "0", "UN", true);
            item.quantity() == Finite(Scale) && item.unitPrice() == Finite(0) && item.totalPrice() == Finite(0)
  {
    EmptyProdParses();
    DefaultAmounts();
  }

  lemma {:induction false} EmptyProdParses()
    ensures ParseItem(Elem(map["prod" := Elem(map[])])) == Ok(ParsedItem("Unknown Product", "1", "0", "0", "UN", true))
  {
    var prod := Some(Elem(map[]));
    assert Prop(Some(Elem(map["prod" := Elem(map[])])), "prod") == prod;
    forall key: string ensures Prop(prod, key).None? { }
  }

  lemma {:induction false} DefaultAmounts()
    ensures var item := ParsedItem("Unknown Product", "1", "0", "0", "UN", true);
            item.quantity() == Finite(Scale) && item.unitPrice() == Finite(0) && item.totalPrice() == Finite(0)
  {
    ParseDigit("1", '1');
    ParseDigit("0", '0');
  }

  /** A single digit parses to that many whole units. */
  lemma {:induction false} ParseDigit(s: string, c: char)
    requires s == [c] && IsDigit(c)
    ensures ParseFloat(s) == Finite(DigitValue(c) * Scale)
  {
    ParseFloatWhole(s);
    assert s[..|s| - 1] == [];
  }

  /** A document whose root has `emit` and `ide` but no `total` has the amount 0. */
  lemma {:induction false} MissingTotalIsZero(parsed: XVal)
    requires ParseNfce(parsed).Ok?
    requires Prop(Root(parsed), "total").None?
    ensures ParseNfce(parsed).value.totalAmount() == Finite(0)
  {
    assert ParseNfce(parsed).value.totalText == "0";
    ParseDigit("0", '0');
  }

  // ---------------------------------------------------------------------------------------
  // parseFloat on the plain decimal strings of a document

  lemma {:induction false} DigitRunOfDigits(w: string, rest: string)
    requires AllDigits(w)
    requires rest == [] || !IsDigit(rest[0])
    ensures DigitRun(w + rest) == |w|
    decreases |w|
  {
    if w != [] {
      assert (w + rest)[1..] == w[1..] + rest;
      DigitRunOfDigits(w[1..], rest);
    } else {
      assert w + rest == rest;
    }
  }

  /** parseFloat of digits, a point and digits. */
  lemma {:induction false} ParseFloatDecimal(w: string, f: string)
    requires w != [] && AllDigits(w) && AllDigits(f)
    ensures ParseFloat(w + "." + f) == Finite(DigitsValue(w) * Scale + FractionUnits(f, Places))
  {
    DecimalPieces(w, f);
  }

  /** The pieces `parseFloat` reads from digits, a point and digits. */
  lemma {:induction false} DecimalPieces(w: string, f: string)
    requires w != [] && AllDigits(w) && AllDigits(f)
    ensures var s := w + "." + f;
            TrimStart(s) == s && s != [] && s[0] != '-' && s[0] != '+' &&
            DigitRun(s) == |w| && s[..|w|] == w && s[|w|..] == "." + f &&
            DigitRun(f) == |f| && f[..|f|] == f
  {
    var s := w + "." + f;
    assert s == w + ("." + f) && s[0] == w[0] && IsDigit(w[0]);
    assert TrimStart(s) == s;
    DigitRunOfDigits(w, "." + f);
    assert s[..|w|] == w;
    DigitRunOfDigits(f, []);
    assert f + [] == f;
  }

  /** parseFloat of digits alone. */
  lemma {:induction false} ParseFloatWhole(w: string)
    requires w != [] && AllDigits(w)
    ensures ParseFloat(w) == Finite(DigitsValue(w) * Scale)
  {
    assert !IsSpace(w[0]);
    assert TrimStart(w) == w;
    DigitRunOfDigits(w, []);
    assert w + [] == w;
    assert w[|w|..] == [];
  }

  // ---------------------------------------------------------------------------------------
  // extractAccessKey

  /** Forty-four digits starting at `i`. */
  predicate KeyAt(s: string, i: int) {
    0 <= i && i + 44 <= |s| && AllDigits(s[i..i + 44])
  }

  /** `qrCodeData.match(/(\d{44})/)?.[1]`: the leftmost run of 44 digits, or null. */
  function ExtractAccessKey(qrCodeData: string): (r: Option<string>)
    ensures r.None? <==> forall i :: 0 <= i <= |qrCodeData| - 44 ==> !KeyAt(qrCodeData, i)
    ensures r.Some? ==> exists i :: KeyAt(qrCodeData, i) && r.value == qrCodeData[i..i + 44] &&
                                    forall j :: 0 <= j < i ==> !KeyAt(qrCodeData, j)
    decreases |qrCodeData|
  {
    if |qrCodeData| < 44 then None
    else if AllDigits(qrCodeData[..44]) then
      assert KeyAt(qrCodeData, 0) && qrCodeData[..44] == qrCodeData[0..44];
      Some(qrCodeData[..44])
    else
      var rest := ExtractAccessKey(qrCodeData[1..]);
      assert !KeyAt(qrCodeData, 0) by {
        assert qrCodeData[0..44] == qrCodeData[..44];
      }
      assert forall i :: 1 <= i ==> (KeyAt(qrCodeData, i) <==> KeyAt(qrCodeData[1..], i - 1)) by {
        forall i | 1 <= i ensures KeyAt(qrCodeData, i) <==> KeyAt(qrCodeData[1..], i - 1) {
          KeyShift(qrCodeData, i);
        }
      }
      if rest.None? then None
      else
        var k :| KeyAt(qrCodeData[1..], k) && rest.value == qrCodeData[1..][k..k + 44] &&
                 forall j :: 0 <= j < k ==> !KeyAt(qrCodeData[1..], j);
        assert KeyAt(qrCodeData, k + 1) && rest.value == qrCodeData[k + 1..k + 45] by {
          KeyShift(qrCodeData, k + 1);
        }
        rest
  }

  /** A run of digits at `i` in `s` is the run at `i - 1` once the first character is dropped. */
  lemma {:induction false} KeyShift(s: string, i: int)
    requires s != [] && 1 <= i
    ensures KeyAt(s, i) <==> KeyAt(s[1..], i - 1)
    ensures i + 44 <= |s| ==> s[1..][i - 1..i + 43] == s[i..i + 44]
  {
    if i + 44 <= |s| {
      var a, b := s[i..i + 44], s[1..][i - 1..i + 43];
      forall k | 0 <= k < 44 ensures a[k] == b[k] {
        assert a[k] == s[i + k] && b[k] == s[i + k];
      }
      assert a == b;
    }
  }

  // ---------------------------------------------------------------------------------------
  // fetchNFCeXML's fixed document

  function MockProd(name: string, quantity: string, unitPrice: string, totalPrice: string): XVal {
    Elem(map["prod" := Elem(map[
      "xprod" := Text(name), "qcom" := Text(quantity), "vuncom" := Text(unitPrice),
      "vprod" := Text(totalPrice), "ucom" := Text("UN")])])
  }

  function MockIde(): XVal {
    Elem(map["nnf" := Text("123456"), "dhemi" := Text("2025-10-31T10:30:00-03:00")])
  }

  function MockEmit(): XVal {
    Elem(map[
      "cnpj" := Text("12345678000190"),
      "xnome" := Text("Supermercado Exemplo LTDA"),
      "xfant" := Text("SuperMercado Exemplo")])
  }

  function MockDets(): seq<XVal> {
    [MockProd("ARROZ BRANCO 5KG", "2.000", "15.90", "31.80"),
     MockProd("FEIJAO PRETO 1KG", "3.000", "8.50", "25.50"),
     MockProd("LEITE INTEGRAL 1L", "4.000", "5.20", "20.80")]
  }

  function MockTotals(): XVal {
    Elem(map["icmstot" := Elem(map["vnf" := Text("78.10")])])
  }

  function MockInfNfe(): XVal {
    Elem(map["ide" := MockIde(), "emit" := MockEmit(), "det" := Many(MockDets()), "total" := MockTotals()])
  }

  /** The tree xml2js makes of the fixed document `fetchNFCeXML` returns. */
  function MockDocument(): XVal {
    Elem(map["nfeproc" := Elem(map["nfe" := Elem(map["infnfe" := MockInfNfe()])])])
  }

  /** `fetchNFCeXML`: whatever the QR code, the fixed document. */
  function FetchNfceDocument(qrCodeData: string): XVal {
    MockDocument()
  }

  /** What parsing the fixed document gives. */
  function MockReceipt(): ParsedReceipt {
    ParsedReceipt(
      "Supermercado Exemplo LTDA", "12345678000190", "78.10",
      FromText("2025-10-31T10:30:00-03:00"), "123456",
      [ParsedItem("ARROZ BRANCO 5KG", "2.000", "15.90", "31.80", "UN", true),
       ParsedItem("FEIJAO PRETO 1KG", "3.000", "8.50", "25.50", "UN", true),
       ParsedItem("LEITE INTEGRAL 1L", "4.000", "5.20", "20.80", "UN", true)])
  }

  lemma {:induction false} MockItem(name: string, quantity: string, unitPrice: string, totalPrice: string)
    requires name != [] && quantity != [] && unitPrice != [] && totalPrice != []
    ensures ParseItem(MockProd(name, quantity, unitPrice, totalPrice)) ==
      Ok(ParsedItem(name, quantity, unitPrice, totalPrice, "UN", true))
  {
    var prod := Prop(Some(MockProd(name, quantity, unitPrice, totalPrice)), "prod");
    assert OrText(Prop(prod, "xprod"), "Unknown Product") == name;
  }

  lemma {:induction false} MockItems()
    ensures ParseItems(MockDets()) == Ok(MockReceipt().items)
  {
    var items := MockReceipt().items;
    assert MockDets() == [ProdOf(items[0]), ProdOf(items[1]), ProdOf(items[2])];
    ThreeItems(items[0], items[1], items[2]);
  }

  /** The `det` element of the fixed document that carries an item. */
  function ProdOf(item: ParsedItem): XVal {
    MockProd(item.name, item.quantityText, item.unitPriceText, item.totalPriceText)
  }

  /** An item every field of which is present in its `prod`, with the unit "UN". */
  predicate Plain(item: ParsedItem) {
    item.name != [] && item.quantityText != [] && item.unitPriceText != [] && item.totalPriceText != [] &&
    item.unit == "UN" && item.nameIsText
  }

  /** Three elements built from plain items parse back to those items. */
  lemma {:induction false} ThreeItems(a: ParsedItem, b: ParsedItem, c: ParsedItem)
    requires Plain(a) && Plain(b) && Plain(c)
    ensures ParseItems([ProdOf(a), ProdOf(b), ProdOf(c)]) == Ok([a, b, c])
  {
    var dets, items := [ProdOf(a), ProdOf(b), ProdOf(c)], [a, b, c];
    forall i | 0 <= i < 3 ensures ParseItem(dets[i]) == Ok(items[i]) {
      var x := items[i];
      assert dets[i] == ProdOf(x);
      MockItem(x.name, x.quantityText, x.unitPriceText, x.totalPriceText);
    }
    ItemsOfParsedDets(dets, items);
  }

  /** When every element parses to the matching item, the whole list parses to the items. */
  lemma {:induction false} ItemsOfParsedDets(dets: seq<XVal>, items: seq<ParsedItem>)
    requires |dets| == |items| && forall i :: 0 <= i < |dets| ==> ParseItem(dets[i]) == Ok(items[i])
    ensures ParseItems(dets) == Ok(items)
  {
    var r := ParseItems(dets);
    assert r.Ok?;
    assert forall i :: 0 <= i < |items| ==> r.value[i] == items[i];
    assert r.value == items;
  }

  /** The pieces of the fixed document the extraction reads. */
  lemma {:induction false} MockParts()
    ensures Root(MockDocument()) == Some(MockInfNfe())
    ensures Prop(Some(MockInfNfe()), "emit") == Some(MockEmit())
    ensures Prop(Some(MockInfNfe()), "ide") == Some(MockIde())
    ensures DetList(Prop(Some(MockInfNfe()), "det")) == MockDets()
    ensures Prop(Prop(Some(MockInfNfe()), "total"), "icmstot") == Some(Elem(map["vnf" := Text("78.10")]))
  {
    var doc := MockDocument();
    assert Prop(Prop(Prop(Some(doc), "nfeproc"), "nfe"), "infnfe") == Some(MockInfNfe());
  }

  lemma {:induction false} MockEmitFields()
    ensures OrText(Or(Prop(Some(MockEmit()), "xnome"), Prop(Some(MockEmit()), "xfant")), "Store Name Not Found") ==
      "Supermercado Exemplo LTDA"
    ensures OrText(Prop(Some(MockEmit()), "cnpj"), "") == "12345678000190"
  {
  }

  lemma {:induction false} MockIdeFields()
    ensures Or(Prop(Some(MockIde()), "dhemi"), Prop(Some(MockIde()), "demi")) == Some(Text("2025-10-31T10:30:00-03:00"))
    ensures OrText(Or(Prop(Some(MockIde()), "nnf"), Prop(Some(MockIde()), "cnf")), "") == "123456"
  {
  }

  lemma {:induction false} MockTotalField()
    ensures var total := Some(Elem(map["vnf" := Text("78.10")]));
            OrText(Or(Prop(total, "vnf"), Prop(total, "vnfce")), "0") == "78.10"
  {
  }

  /**
   * Parsing the fixed document gives its three items in order, the total text 78.10, the CNPJ
   * 12345678000190 and the number 123456, whatever QR code was read.
   */
  lemma {:induction false} ParseFetchedDocument(qrCodeData: string)
    ensures ParseNfce(FetchNfceDocument(qrCodeData)) == Ok(MockReceipt())
  {
    MockParts();
    MockItems();
    MockEmitFields();
    MockIdeFields();
    MockTotalField();
  }

  lemma {:induction false} DigitsOf78()
    ensures AllDigits("78") && DigitsValue("78") == 78
  {
  }

  lemma {:induction false} FractionOf10()
    ensures AllDigits("10") && FractionUnits("10", Places) == 1000
  {
  }

  lemma {:induction false} ReadsTotal(s: string)
    requires s == "78.10"
    ensures ParseFloat(s) == Finite(781000)
  {
    DigitsOf78();
    FractionOf10();
    assert s == "78" + "." + "10";
    ParseFloatDecimal("78", "10");
  }

  /** The mock's total reads as 78.10, in units of 1/10000. */
  lemma {:induction false} MockTotalAmount()
    ensures MockReceipt().totalAmount() == Finite(781000)
  {
    ReadsTotal(MockReceipt().totalText);
  }
}
