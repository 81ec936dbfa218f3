/**
 * The products-service's request validators (`utils/validation.ts`): the product body of create and
 * update, the body of `/normalize`, and the queries of the product list and the price history.
 */
module ProductValidation {
  import opened Wrappers
  import opened JsText
  import opened Zod

  /** `z.string().min(2).max(255)` of a product name, on a value that is a string. */
  function NameIssues(s: string): (r: seq<Issue>)
    ensures r == [] <==> 2 <= Utf16Length(s) <= 255
    ensures About(r, "name")
  {
    MinIssues("name", s, 2, "Product name must be at least 2 characters") +
    MaxIssues("name", s, 255, "Product name must be at most 255 characters")
  }

  /** A required product name: a string of 2 to 255 characters. */
  function RequiredName(v: Input): (r: Result<string, seq<Issue>>)
    ensures r.Ok? <==> v.Str? && 2 <= Utf16Length(v.text) <= 255
    ensures r.Ok? ==> r.value == v.text
    ensures r.Err? ==> r.error != [] && About(r.error, "name")
  {
    if !v.Str? then Err(TypeIssues("name", v))
    else if NameIssues(v.text) == [] then Ok(v.text)
    else Err(NameIssues(v.text))
  }

  /** The name under `.partial()`: absent is `None`, otherwise a required name. */
  function OptionalName(v: Input): (r: Result<Option<string>, seq<Issue>>)
    ensures r.Ok? <==> v.Absent? || (v.Str? && 2 <= Utf16Length(v.text) <= 255)
    ensures r.Ok? ==> r.value == (if v.Str? then Some(v.text) else None)
    ensures r.Err? ==> r.error != []
  {
    if v.Absent? then Ok(None)
    else
      var n := RequiredName(v);
      if n.Ok? then Ok(Some(n.value)) else Err(n.error)
  }

  /**
   * `z.string().max(n).optional().nullable()`: `None` for an absent field, `Some(None)` for null,
   * `Some(Some(s))` for a string of at most `n` characters.
   */
  function NullableText(path: string, v: Input, n: nat, message: string): (r: Result<Option<Option<string>>, seq<Issue>>)
    ensures r.Ok? <==> v.Absent? || v.Null? || (v.Str? && Utf16Length(v.text) <= n)
    ensures r.Ok? ==> (r.value.None? <==> v.Absent?) && (r.value == Some(None) <==> v.Null?)
    ensures r.Ok? && v.Str? ==> r.value == Some(Some(v.text))
    ensures r.Err? ==> r.error != [] && About(r.error, path)
  {
    match v
    case Absent => Ok(None)
    case Null => Ok(Some(None))
    case Str(s) => if Utf16Length(s) <= n then Ok(Some(Some(s))) else Err(MaxIssues(path, s, n, message))
    case Other => Err(TypeIssues(path, v))
  }

  function CategoryField(v: Input): Result<Option<Option<string>>, seq<Issue>> {
    NullableText("category", v, 100, "Category must be at most 100 characters")
  }

  function UnitField(v: Input): Result<Option<Option<string>>, seq<Issue>> {
    NullableText("unit", v, 20, "Unit must be at most 20 characters")
  }

  /** A valid product body: the name, and category and unit each undefined, null or a text. */
  datatype ProductInput = ProductInput(name: string, category: Option<Option<string>>, unit: Option<Option<string>>)

  /** A valid body of `productSchema.partial()`: every field may be undefined. */
  datatype ProductPatch = ProductPatch(name: Option<string>, category: Option<Option<string>>, unit: Option<Option<string>>)

  /** The field checks of a product body: a text of at most `n` characters, or null, or nothing. */
  predicate NullableWithin(v: Input, n: nat) {
    v.Absent? || v.Null? || (v.Str? && Utf16Length(v.text) <= n)
  }

  /**
   * `productSchema`: the name is a string of 2 to 255 characters, the category at most 100 and the
   * unit at most 20 characters or null or absent.
   */
  function ValidateProduct(name: Input, category: Input, unit: Input): (r: Result<ProductInput, seq<Issue>>)
    ensures r.Ok? <==> name.Str? && 2 <= Utf16Length(name.text) <= 255 &&
                       NullableWithin(category, 100) && NullableWithin(unit, 20)
    ensures r.Ok? ==> r.value == ProductInput(name.text, CategoryField(category).value, UnitField(unit).value)
    ensures r.Err? ==> r.error != []
  {
    var n := RequiredName(name);
    var c := CategoryField(category);
    var u := UnitField(unit);
    if n.Ok? && c.Ok? && u.Ok? then Ok(ProductInput(n.value, c.value, u.value))
    else Err(IssuesOf(n) + IssuesOf(c) + IssuesOf(u))
  }

  /** A refused product body reports every failing field, and only those. */
  lemma {:induction false} ProductIssuesByField(name: Input, category: Input, unit: Input)
    requires ValidateProduct(name, category, unit).Err?
    ensures var issues := ValidateProduct(name, category, unit).error;
            (Reports(issues, "name") <==> !(name.Str? && 2 <= Utf16Length(name.text) <= 255)) &&
            (Reports(issues, "category") <==> !NullableWithin(category, 100)) &&
            (Reports(issues, "unit") <==> !NullableWithin(unit, 20))
  {
    FieldsReported(IssuesOf(RequiredName(name)), IssuesOf(CategoryField(category)), IssuesOf(UnitField(unit)));
  }

  /** The issues of the name, category and unit checks report each field exactly when its own check failed. */
  lemma {:induction false} FieldsReported(n: seq<Issue>, c: seq<Issue>, u: seq<Issue>)
    requires About(n, "name") && About(c, "category") && About(u, "unit")
    ensures Reports(n + c + u, "name") <==> n != []
    ensures Reports(n + c + u, "category") <==> c != []
    ensures Reports(n + c + u, "unit") <==> u != []
  {
    forall f | f in ["name", "category", "unit"]
      ensures Reports(n + c + u, f) <==> Reports(n, f) || Reports(c, f) || Reports(u, f)
    {
      ReportsConcat(n + c, u, f);
      ReportsConcat(n, c, f);
    }
    AboutOnly(n, "name", "category");
    AboutOnly(n, "name", "unit");
    AboutOnly(c, "category", "name");
    AboutOnly(c, "category", "unit");
    AboutOnly(u, "unit", "name");
    AboutOnly(u, "unit", "category");
  }

  /** `productSchema.partial()`: the same checks, with the name optional too. */
  function ValidatePatch(name: Input, category: Input, unit: Input): (r: Result<ProductPatch, seq<Issue>>)
    ensures r.Ok? <==> (name.Absent? || (name.Str? && 2 <= Utf16Length(name.text) <= 255)) &&
                       NullableWithin(category, 100) && NullableWithin(unit, 20)
    ensures r.Ok? ==> r.value == ProductPatch(OptionalName(name).value, CategoryField(category).value, UnitField(unit).value)
    ensures r.Err? ==> r.error != []
  {
    var n := OptionalName(name);
    var c := CategoryField(category);
    var u := UnitField(unit);
    if n.Ok? && c.Ok? && u.Ok? then Ok(ProductPatch(n.value, c.value, u.value))
    else Err(IssuesOf(n) + IssuesOf(c) + IssuesOf(u))
  }

  /** Every body `productSchema` accepts is accepted by its partial form, with the same fields. */
  lemma {:induction false} PatchAcceptsProduct(name: Input, category: Input, unit: Input)
    requires ValidateProduct(name, category, unit).Ok?
    ensures var p := ValidateProduct(name, category, unit).value;
            ValidatePatch(name, category, unit) == Ok(ProductPatch(Some(p.name), p.category, p.unit))
  {
  }

  /** An empty body is a valid patch that supplies no field. */
  lemma {:induction false} EmptyPatch()
    ensures ValidatePatch(Absent, Absent, Absent) == Ok(ProductPatch(None, None, None))
  {
  }

  /** A valid `/normalize` body: the name and the unit. */
  datatype NormalizeInput = NormalizeInput(name: string, unit: string)

  /** `z.string().max(20).optional().default('UN')`: absent becomes "UN"; null is refused. */
  function UnitWithDefault(v: Input): (r: Result<string, seq<Issue>>)
    ensures r.Ok? <==> v.Absent? || (v.Str? && Utf16Length(v.text) <= 20)
    ensures r.Ok? ==> r.value == (if v.Str? then v.text else "UN")
    ensures r.Err? ==> r.error != []
  {
    match v
    case Absent => Ok("UN")
    case Str(s) => if Utf16Length(s) <= 20 then Ok(s) else Err(MaxIssues("unit", s, 20, "Unit must be at most 20 characters"))
    case _ => Err(TypeIssues("unit", v))
  }

  /** `normalizeSchema`: a name of 2 to 255 characters and a unit of at most 20, "UN" by default. */
  function ValidateNormalize(name: Input, unit: Input): (r: Result<NormalizeInput, seq<Issue>>)
    ensures r.Ok? <==> name.Str? && 2 <= Utf16Length(name.text) <= 255 &&
                       (unit.Absent? || (unit.Str? && Utf16Length(unit.text) <= 20))
    ensures r.Ok? ==> r.value == NormalizeInput(name.text, if unit.Str? then unit.text else "UN")
    ensures r.Err? ==> r.error != []
  {
    var n := RequiredName(name);
    var u := UnitWithDefault(unit);
    if n.Ok? && u.Ok? then Ok(NormalizeInput(n.value, u.value))
    else Err(IssuesOf(n) + IssuesOf(u))
  }

  /** A valid product list query: page and limit as numbers (possibly NaN), the filters as given. */
  datatype ListProductsQuery = ListProductsQuery(page: JsNum, limit: JsNum, search: Option<string>, category: Option<string>)

  /**
   * `listProductsQuerySchema`: page and limit default to "1" and "20" and go through `Number`;
   * search and category are optional strings.
   */
  function ValidateListQuery(page: Input, limit: Input, search: Input, category: Input): (r: Result<ListProductsQuery, seq<Issue>>)
    ensures r.Ok? <==> (page.Absent? || page.Str?) && (limit.Absent? || limit.Str?) &&
                       (search.Absent? || search.Str?) && (category.Absent? || category.Str?)
    ensures r.Ok? ==>
      r.value.page == NumberOf(if page.Str? then page.text else "1") &&
      r.value.limit == NumberOf(if limit.Str? then limit.text else "20") &&
      r.value.search == (if search.Str? then Some(search.text) else None) &&
      r.value.category == (if category.Str? then Some(category.text) else None)
  {
    var p := NumberWithDefault("page", page, "1");
    var l := NumberWithDefault("limit", limit, "20");
    var s := OptionalString("search", search);
    var c := OptionalString("category", category);
    if p.Ok? && l.Ok? && s.Ok? && c.Ok? then Ok(ListProductsQuery(p.value, l.value, s.value, c.value))
    else Err(IssuesOf(p) + IssuesOf(l) + IssuesOf(s) + IssuesOf(c))
  }

  /** A valid price history query: the limit (possibly NaN) and the optional store. */
  datatype PriceHistoryQuery = PriceHistoryQuery(limit: JsNum, storeCnpj: Option<string>)

  /** `priceHistoryQuerySchema`: the limit defaults to "30" and goes through `Number`. */
  function ValidateHistoryQuery(limit: Input, storeCnpj: Input): (r: Result<PriceHistoryQuery, seq<Issue>>)
    ensures r.Ok? <==> (limit.Absent? || limit.Str?) && (storeCnpj.Absent? || storeCnpj.Str?)
    ensures r.Ok? ==>
      r.value.limit == NumberOf(if limit.Str? then limit.text else "30") &&
      r.value.storeCnpj == (if storeCnpj.Str? then Some(storeCnpj.text) else None)
  {
    var l := NumberWithDefault("limit", limit, "30");
    var s := OptionalString("storeCnpj", storeCnpj);
    if l.Ok? && s.Ok? then Ok(PriceHistoryQuery(l.value, s.value)) else Err(IssuesOf(l) + IssuesOf(s))
  }

  /** The value of two decimal digits. */
  lemma {:induction false} TwoDigitsValue(s: string)
    requires |s| == 2 && AllDigits(s)
    ensures DigitsValue(s) == 10 * DigitValue(s[0]) + DigitValue(s[1])
  {
    var head := s[..1];
    assert s[..|s| - 1] == head;
    assert head[..|head| - 1] == [];
    assert DigitsValue(head) == DigitValue(s[0]);
  }

  /** A two-digit decimal string reads as its value. */
  lemma {:induction false} NumberOfTwoDigits(s: string)
    requires |s| == 2 && IsDigit(s[0]) && IsDigit(s[1])
    ensures NumberOf(s) == Int(10 * DigitValue(s[0]) + DigitValue(s[1]))
  {
    assert AllDigits(s);
    NumberOfDigits(s);
    TwoDigitsValue(s);
  }

  lemma {:induction false} NumberOfOneDigit(s: string)
    requires |s| == 1 && IsDigit(s[0])
    ensures NumberOf(s) == Int(DigitValue(s[0]))
  {
    assert AllDigits(s);
    NumberOfDigits(s);
    assert s[..0] == [];
  }

  /** With no query parameters the product list asks for page 1 of 20 products, unfiltered. */
  lemma {:induction false} ListQueryDefaults()
    ensures ValidateListQuery(Absent, Absent, Absent, Absent) == Ok(ListProductsQuery(Int(1), Int(20), None, None))
  {
    NumberOfOneDigit("1");
    NumberOfTwoDigits("20");
    var r := ValidateListQuery(Absent, Absent, Absent, Absent);
    assert r.Ok?;
    assert r.value.page == NumberOf("1") == Int(1);
    assert r.value.limit == NumberOf("20") == Int(20);
  }

  /** With no query parameters the price history holds at most 30 observations of every store. */
  lemma {:induction false} HistoryQueryDefaults()
    ensures ValidateHistoryQuery(Absent, Absent) == Ok(PriceHistoryQuery(Int(30), None))
  {
    NumberOfTwoDigits("30");
    var r := ValidateHistoryQuery(Absent, Absent);
    assert r.Ok?;
    assert r.value.limit == NumberOf("30") == Int(30);
  }
}
