/**
 * The catalogue's data access (products-service `models/Product.ts`): insert, lookup, filtered and
 * paginated listing, partial update and delete of `products` rows, and the purchase count of a
 * product over `receipt_items`.
 */
module ProductModel {
  import opened Wrappers
  import opened JsText
  import opened Sequences
  import opened SqlText
  import opened Storage
  import opened Pagination

  /** `value || null` for an optional text column: a missing or empty text is stored as NULL. */
  function OrNull(v: Option<string>): (r: Option<string>)
    ensures r.Some? <==> v.Some? && v.value != ""
    ensures r.Some? ==> r == v
  {
    if v.Some? && v.value != "" then v else None
  }

  /** The values of a new product; `None` stands for a field left undefined or null. */
  datatype NewProduct = NewProduct(
    name: string,
    normalizedName: string,
    category: Option<string>,
    unit: Option<string>)

  /** The row `INSERT ... RETURNING *` yields for `input` under the id `id` at time `now`. */
  function InsertedRow(input: NewProduct, id: Id, now: int): (p: Product)
    ensures p.id == id && p.name == input.name && p.normalizedName == input.normalizedName
    ensures p.category.Some? <==> Given(input.category)
    ensures p.unit.Some? <==> Given(input.unit)
    ensures p.category.Some? ==> p.category == input.category
    ensures p.unit.Some? ==> p.unit == input.unit
  {
    Product(id, input.name, input.normalizedName, OrNull(input.category), OrNull(input.unit), now, now)
  }

  /** A new row with a fresh id and an unused key keeps every constraint. */
  lemma {:induction false} InsertKeepsConsistent(t: Tables, p: Product)
    requires t.Consistent()
    requires p.id == t.nextId && !HasKey(t.products, p.normalizedName)
    ensures Tables(t.products + [p], t.prices, t.receipts, t.items, t.nextId + 1).Consistent()
  {
    var ps := t.products + [p];
    forall i | 0 <= i < |t.prices| ensures HasProduct(ps, t.prices[i].productId) {
      HasProductAppend(t.products, p, t.prices[i].productId);
    }
    forall i | 0 <= i < |t.items| ensures HasProduct(ps, t.items[i].productId) {
      HasProductAppend(t.products, p, t.items[i].productId);
    }
  }

  /**
   * `createProduct`: inserts one row, or fails with a unique violation when the normalized name is
   * already in the catalogue.
   */
  method CreateProduct(db: Database, input: NewProduct, now: int) returns (r: Result<Product, DbError>)
    requires db.Valid()
    modifies db
    ensures db.Valid()
    ensures HasKey(old(db.products), input.normalizedName) ==>
      r == Err(UniqueViolation) && db.State() == old(db.State())
    ensures !HasKey(old(db.products), input.normalizedName) ==>
      r == Ok(InsertedRow(input, old(db.nextId), now)) &&
      db.products == old(db.products) + [r.value] && db.nextId == old(db.nextId) + 1 &&
      db.prices == old(db.prices) && db.receipts == old(db.receipts) && db.items == old(db.items)
  {
    if HasKey(db.products, input.normalizedName) {
      return Err(UniqueViolation);
    }
    var row := InsertedRow(input, db.nextId, now);
    InsertKeepsConsistent(db.State(), row);
    db.products := db.products + [row];
    db.nextId := db.nextId + 1;
    r := Ok(row);
  }

  /** With the unique index, the lookup by normalized name finds THE row with that key. */
  lemma {:induction false} ProductByKeyIsTheRow(ps: seq<Product>, next: nat, i: nat)
    requires ProductsKeyed(ps, next) && i < |ps|
    ensures ProductByKey(ps, ps[i].normalizedName) == Some(ps[i])
  {
    var r := ProductByKey(ps, ps[i].normalizedName);
    var j :| 0 <= j < |ps| && ps[j] == r.value;
    assert i == j;
  }

  // ---------------------------------------------------------------------------------------
  // listProducts

  /** The options of `listProducts`; `None` is an option left undefined. */
  datatype ProductQuery = ProductQuery(
    page: Option<JsNum>,
    limit: Option<JsNum>,
    search: Option<string>,
    category: Option<string>)

  /** One condition of the WHERE clause the query builder pushes. */
  datatype ProductCondition = NameOrKeyLike(pattern: string) | CategoryIs(category: string)

  predicate Holds(c: ProductCondition, p: Product) {
    match c
    case NameOrKeyLike(pattern) => ILike(p.name, pattern) || ILike(p.normalizedName, pattern)
    case CategoryIs(category) => p.category == Some(category)
  }

  /** The WHERE clause: every pushed condition holds (no condition: every row). */
  predicate AllHold(cs: seq<ProductCondition>, p: Product) {
    cs == [] || (Holds(cs[0], p) && AllHold(cs[1..], p))
  }

  /** What the filters ask of a row: the search text in the name or the key, and the category. */
  predicate MatchesQuery(q: ProductQuery, p: Product) {
    (Given(q.search) ==>
       ILike(p.name, Containing(q.search.value)) || ILike(p.normalizedName, Containing(q.search.value))) &&
    (Given(q.category) ==> p.category == q.category)
  }

  /**
   * The WHERE clause builder: one condition per truthy filter, with the parameter counter one past
   * the parameters pushed.
   */
  method BuildProductConditions(q: ProductQuery) returns (conditions: seq<ProductCondition>, paramCount: nat)
    ensures paramCount == |conditions| + 1
    ensures |conditions| == (if Given(q.search) then 1 else 0) + (if Given(q.category) then 1 else 0)
    ensures forall p :: AllHold(conditions, p) <==> MatchesQuery(q, p)
  {
    conditions := [];
    paramCount := 1;
    if Given(q.search) {
      conditions := conditions + [NameOrKeyLike(Containing(q.search.value))];
      paramCount := paramCount + 1;
    }
    if Given(q.category) {
      conditions := conditions + [CategoryIs(q.category.value)];
      paramCount := paramCount + 1;
    }
    forall p ensures AllHold(conditions, p) <==> MatchesQuery(q, p) {
      var search := NameOrKeyLike(Containing(q.search.GetOr("")));
      var category := CategoryIs(q.category.GetOr(""));
      if Given(q.search) && Given(q.category) {
        assert conditions == [search, category];
        assert conditions[1..] == [category];
        assert conditions[1..][1..] == [];
        assert AllHold(conditions[1..], p) <==> Holds(category, p);
        assert AllHold(conditions, p) <==> Holds(search, p) && Holds(category, p);
      } else if Given(q.search) {
        assert conditions == [search];
        assert conditions[1..] == [];
        assert AllHold(conditions, p) <==> Holds(search, p);
      } else if Given(q.category) {
        assert conditions == [category];
        assert conditions[1..] == [];
        assert AllHold(conditions, p) <==> Holds(category, p);
      } else {
        assert conditions == [];
      }
    }
  }

  function Matching(q: ProductQuery): Product -> bool {
    (p: Product) => MatchesQuery(q, p)
  }

  function ByName(): (Product, Product) -> bool {
    (a: Product, b: Product) => TextLe(a.name, b.name)
  }

  lemma {:induction false} ByNameIsPreorder()
    ensures IsTotalPreorder(ByName())
  {
    forall a: Product, b: Product ensures ByName()(a, b) || ByName()(b, a) {
      TextLeTotal(a.name, b.name);
    }
    forall a: Product, b: Product, c: Product | ByName()(a, b) && ByName()(b, c)
      ensures ByName()(a, c)
    {
      TextLeTransitive(a.name, b.name, c.name);
    }
  }

  /**
   * `listProducts`: the rows passing the filters, ordered by name, the page `page` of `limit`
   * rows (defaults 1 and 20), and the number of all matching rows.
   */
  function ListProducts(ps: seq<Product>, q: ProductQuery): (r: Result<Page<Product>, DbError>)
  {
    var bounds := Bounds(q.page.GetOr(Int(1)), q.limit.GetOr(Int(20)));
    if bounds.None? then Err(QueryFailed)
    else
      var matching := Filter(ps, Matching(q));
      Ok(Page(Window(SortBy(matching, ByName()), bounds.value.0, bounds.value.1), |matching|))
  }

  /**
   * What a page of `listProducts` is: rows of the catalogue that pass the filters, in name order,
   * at most `limit` of them; the total counts every match. The query fails exactly when the page
   * or limit is NaN or the limit or the offset is negative.
   */
  lemma {:induction false} ListProductsSpec(ps: seq<Product>, q: ProductQuery)
    ensures var page := q.page.GetOr(Int(1));
            var limit := q.limit.GetOr(Int(20));
            ListProducts(ps, q).Err? <==> Bounds(page, limit).None?
    ensures var r := ListProducts(ps, q);
            r.Ok? ==>
              r.value.total == |Filter(ps, Matching(q))| &&
              |r.value.rows| <= Bounds(q.page.GetOr(Int(1)), q.limit.GetOr(Int(20))).value.1 &&
              SortedBy(r.value.rows, ByName()) &&
              (forall i :: 0 <= i < |r.value.rows| ==> r.value.rows[i] in ps && MatchesQuery(q, r.value.rows[i]))
  {
    var bounds := Bounds(q.page.GetOr(Int(1)), q.limit.GetOr(Int(20)));
    if bounds.Some? {
      var matching := Filter(ps, Matching(q));
      var sorted := SortBy(matching, ByName());
      ByNameIsPreorder();
      SortBySorted(matching, ByName());
      var (offset, limit) := bounds.value;
      var rows := Window(sorted, offset, limit);
      WindowSpec(sorted, offset, limit);
      forall i | 0 <= i < |rows| ensures rows[i] in ps && MatchesQuery(q, rows[i]) {
        assert rows[i] == sorted[offset + i];
        assert sorted[offset + i] in multiset(matching);
      }
      assert SortedBy(rows, ByName()) by {
        forall i, j | 0 <= i < j < |rows| ensures ByName()(rows[i], rows[j]) {
          assert rows[i] == sorted[offset + i] && rows[j] == sorted[offset + j];
        }
      }
    }
  }

  /**
   * Which rows a page of `listProducts` holds: the ordered matches from row `offset`, which is
   * `(page - 1) * limit`, up to `limit` of them, and none past the last match.
   */
  lemma {:induction false} ListProductsWindow(ps: seq<Product>, q: ProductQuery)
    requires ListProducts(ps, q).Ok?
    ensures var r := ListProducts(ps, q);
            var b := Bounds(q.page.GetOr(Int(1)), q.limit.GetOr(Int(20))).value;
            var sorted := SortBy(Filter(ps, Matching(q)), ByName());
            |r.value.rows| == (if b.0 >= r.value.total then 0
                               else if b.0 + b.1 >= r.value.total then r.value.total - b.0 else b.1) &&
            forall i :: 0 <= i < |r.value.rows| ==> r.value.rows[i] == sorted[b.0 + i]
  {
    var b := Bounds(q.page.GetOr(Int(1)), q.limit.GetOr(Int(20))).value;
    WindowSpec(SortBy(Filter(ps, Matching(q)), ByName()), b.0, b.1);
  }

  // ---------------------------------------------------------------------------------------
  // updateProduct

  /**
   * The fields of `updateProduct`: `None` is a field left undefined; `category` and `unit` may be
   * set to a text or to null.
   */
  datatype ProductUpdate = ProductUpdate(
    name: Option<string>,
    normalizedName: Option<string>,
    category: Option<Option<string>>,
    unit: Option<Option<string>>)
  {
    predicate NoFields() { name.None? && normalizedName.None? && category.None? && unit.None? }
  }

  /** One assignment of the SET list the update builder pushes. */
  datatype Assignment =
    | SetName(name: string)
    | SetNormalizedName(key: string)
    | SetCategory(category: Option<string>)
    | SetUnit(unit: Option<string>)

  function Assign(p: Product, a: Assignment): Product {
    match a
    case SetName(v) => p.(name := v)
    case SetNormalizedName(v) => p.(normalizedName := v)
    case SetCategory(v) => p.(category := v)
    case SetUnit(v) => p.(unit := v)
  }

  /** The row after the SET list and `updated_at = CURRENT_TIMESTAMP`. */
  function AssignAll(p: Product, fields: seq<Assignment>, now: int): Product
    decreases |fields|
  {
    if fields == [] then p.(updatedAt := now) else AssignAll(Assign(p, fields[0]), fields[1..], now)
  }

  /**
   * A product after an update that supplies the fields of `u`: a supplied field takes the given
   * value (an empty text included), every other field keeps its value, and updated_at is `now`.
   */
  function Patched(p: Product, u: ProductUpdate, now: int): (r: Product)
    ensures r.id == p.id && r.createdAt == p.createdAt && r.updatedAt == now
    ensures r.name == u.name.GetOr(p.name)
    ensures r.normalizedName == u.normalizedName.GetOr(p.normalizedName)
    ensures r.category == u.category.GetOr(p.category)
    ensures r.unit == u.unit.GetOr(p.unit)
  {
    Product(p.id, u.name.GetOr(p.name), u.normalizedName.GetOr(p.normalizedName),
            u.category.GetOr(p.category), u.unit.GetOr(p.unit), p.createdAt, now)
  }

  /**
   * The update builder: one assignment per field that is not undefined, in the order name,
   * normalized name, category, unit; applying them is the patch.
   */
  method BuildAssignments(u: ProductUpdate) returns (fields: seq<Assignment>, paramCount: nat)
    ensures paramCount == |fields| + 1
    ensures fields == [] <==> u.NoFields()
    ensures forall p: Product, now: int :: AssignAll(p, fields, now) == Patched(p, u, now)
  {
    fields := [];
    paramCount := 1;
    if u.name.Some? {
      fields := fields + [SetName(u.name.value)];
      paramCount := paramCount + 1;
    }
    if u.normalizedName.Some? {
      fields := fields + [SetNormalizedName(u.normalizedName.value)];
      paramCount := paramCount + 1;
    }
    if u.category.Some? {
      fields := fields + [SetCategory(u.category.value)];
      paramCount := paramCount + 1;
    }
    if u.unit.Some? {
      fields := fields + [SetUnit(u.unit.value)];
      paramCount := paramCount + 1;
    }
    forall p: Product, now: int ensures AssignAll(p, fields, now) == Patched(p, u, now) {
      AssignAllFields(p, u, fields, now);
    }
  }

  /** The assignments the builder makes for `u`, in their order. */
  function AssignmentsOf(u: ProductUpdate): seq<Assignment> {
    (if u.name.Some? then [SetName(u.name.value)] else []) +
    (if u.normalizedName.Some? then [SetNormalizedName(u.normalizedName.value)] else []) +
    (if u.category.Some? then [SetCategory(u.category.value)] else []) +
    (if u.unit.Some? then [SetUnit(u.unit.value)] else [])
  }

  lemma {:induction false} AssignAllAppend(p: Product, a: seq<Assignment>, b: seq<Assignment>, now: int)
    ensures AssignAll(p, a + b, now) == AssignAll(AssignAll(p, a, now).(updatedAt := p.updatedAt), b, now)
    decreases |a|
  {
    if a == [] {
      assert a + b == b;
      assert p.(updatedAt := now).(updatedAt := p.updatedAt) == p;
    } else {
      assert (a + b)[1..] == a[1..] + b;
      AssignAllAppend(Assign(p, a[0]), a[1..], b, now);
      assert Assign(p, a[0]).updatedAt == p.updatedAt;
    }
  }

  lemma {:induction false} AssignAllFields(p: Product, u: ProductUpdate, fields: seq<Assignment>, now: int)
    requires fields == AssignmentsOf(u)
    ensures AssignAll(p, fields, now) == Patched(p, u, now)
  {
    var f1 := if u.name.Some? then [SetName(u.name.value)] else [];
    var f2 := if u.normalizedName.Some? then [SetNormalizedName(u.normalizedName.value)] else [];
    var f3 := if u.category.Some? then [SetCategory(u.category.value)] else [];
    var f4 := if u.unit.Some? then [SetUnit(u.unit.value)] else [];
    assert fields == f1 + (f2 + (f3 + f4));
    var p1 := AssignAll(p, f1, now).(updatedAt := p.updatedAt);
    var p2 := AssignAll(p1, f2, now).(updatedAt := p.updatedAt);
    var p3 := AssignAll(p2, f3, now).(updatedAt := p.updatedAt);
    AssignAllAppend(p, f1, f2 + (f3 + f4), now);
    AssignAllAppend(p1, f2, f3 + f4, now);
    AssignAllAppend(p2, f3, f4, now);
  }

  /** Another row than `id` already uses `key`: what makes the update break the unique index. */
  predicate KeyTakenByOther(ps: seq<Product>, key: string, id: Id) {
    exists j :: 0 <= j < |ps| && ps[j].normalizedName == key && ps[j].id != id
  }

  /** The position of the row with id `id`. */
  function IndexOf(ps: seq<Product>, id: Id): (i: nat)
    requires HasProduct(ps, id)
    ensures i < |ps| && ps[i].id == id
  {
    if ps[0].id == id then 0 else 1 + IndexOf(ps[1..], id)
  }

  /** Rewriting a row in place without changing its id, onto a key no other row has, keeps every constraint. */
  lemma {:induction false} PatchKeepsConsistent(t: Tables, i: nat, q: Product)
    requires t.Consistent() && i < |t.products|
    requires q.id == t.products[i].id
    requires !KeyTakenByOther(t.products, q.normalizedName, q.id)
    ensures Tables(t.products[i := q], t.prices, t.receipts, t.items, t.nextId).Consistent()
  {
    var ps := t.products[i := q];
    forall x | HasProduct(t.products, x) ensures HasProduct(ps, x) {
      var k :| 0 <= k < |t.products| && t.products[k].id == x;
      assert ps[k].id == x;
    }
    forall j, k | 0 <= j < k < |ps| ensures ps[j].normalizedName != ps[k].normalizedName {
      if j == i {
        assert t.products[k].id != q.id;
      } else if k == i {
        assert t.products[j].id != q.id;
      }
    }
  }

  /**
   * `updateProduct`: with no field supplied it is `findProductById`; otherwise the row with that id
   * (if any) is patched in place, unless the new normalized name belongs to another row, which is a
   * unique violation.
   */
  method UpdateProduct(db: Database, id: Id, u: ProductUpdate, now: int) returns (r: Result<Option<Product>, DbError>)
    requires db.Valid()
    modifies db
    ensures db.Valid()
    ensures u.NoFields() ==> r == Ok(ProductById(old(db.products), id)) && db.State() == old(db.State())
    ensures !u.NoFields() && !HasProduct(old(db.products), id) ==>
      r == Ok(None) && db.State() == old(db.State())
    ensures !u.NoFields() && HasProduct(old(db.products), id) &&
            u.normalizedName.Some? && KeyTakenByOther(old(db.products), u.normalizedName.value, id) ==>
      r == Err(UniqueViolation) && db.State() == old(db.State())
    ensures !u.NoFields() && HasProduct(old(db.products), id) &&
            !(u.normalizedName.Some? && KeyTakenByOther(old(db.products), u.normalizedName.value, id)) ==>
      var i := IndexOf(old(db.products), id);
      var q := Patched(old(db.products)[i], u, now);
      r == Ok(Some(q)) && db.products == old(db.products)[i := q] &&
      db.prices == old(db.prices) && db.receipts == old(db.receipts) && db.items == old(db.items) &&
      db.nextId == old(db.nextId)
  {
    var fields, paramCount := BuildAssignments(u);
    if fields == [] {
      return Ok(ProductById(db.products, id));
    }
    if !HasProduct(db.products, id) {
      return Ok(None);
    }
    var i := IndexOf(db.products, id);
    var q := AssignAll(db.products[i], fields, now);
    if u.normalizedName.Some? && KeyTakenByOther(db.products, u.normalizedName.value, id) {
      return Err(UniqueViolation);
    }
    assert !KeyTakenByOther(db.products, q.normalizedName, q.id);
    PatchKeepsConsistent(db.State(), i, q);
    db.products := db.products[i := q];
    r := Ok(Some(q));
  }

  // ---------------------------------------------------------------------------------------
  // deleteProduct

  /** Some price observation or receipt item points at the product. */
  predicate Referenced(t: Tables, id: Id) {
    (exists i :: 0 <= i < |t.prices| && t.prices[i].productId == id) ||
    (exists i :: 0 <= i < |t.items| && t.items[i].productId == id)
  }

  /** The rows `DELETE ... WHERE id = $1` keeps. */
  function OtherThan(id: Id): Product -> bool {
    (p: Product) => p.id != id
  }

  lemma {:induction false} DeleteKeepsConsistent(t: Tables, id: Id)
    requires t.Consistent() && !Referenced(t, id)
    ensures Tables(Filter(t.products, OtherThan(id)), t.prices, t.receipts, t.items, t.nextId).Consistent()
  {
    var keep := OtherThan(id);
    var ps := Filter(t.products, keep);
    forall x | x != id && HasProduct(t.products, x) ensures HasProduct(ps, x) {
      var k :| 0 <= k < |t.products| && t.products[k].id == x;
      assert t.products[k] in ps;
    }
    FilterKeyed(t.products, t.nextId, keep);
  }

  /** The first row differs in id and key from every later row that a filter keeps. */
  lemma {:induction false} HeadDistinct(ps: seq<Product>, next: nat, keep: Product -> bool)
    requires ProductsKeyed(ps, next) && ps != []
    ensures forall x :: x in Filter(ps[1..], keep) ==> x.id != ps[0].id && x.normalizedName != ps[0].normalizedName
  {
    forall x | x in Filter(ps[1..], keep) ensures x.id != ps[0].id && x.normalizedName != ps[0].normalizedName {
      var m :| 0 <= m < |ps[1..]| && ps[1..][m] == x;
      assert x == ps[m + 1];
    }
  }

  /** Removing rows keeps the keys and ids of the remaining rows distinct. */
  lemma {:induction false} FilterKeyed(ps: seq<Product>, next: nat, keep: Product -> bool)
    requires ProductsKeyed(ps, next)
    ensures ProductsKeyed(Filter(ps, keep), next)
    decreases |ps|
  {
    if ps != [] {
      assert ProductsKeyed(ps[1..], next);
      FilterKeyed(ps[1..], next, keep);
      HeadDistinct(ps, next, keep);
      var rest := Filter(ps[1..], keep);
      var r := Filter(ps, keep);
      if keep(ps[0]) {
        assert r == [ps[0]] + rest;
        ConsKeyed(ps[0], rest, next);
      } else {
        assert r == rest;
      }
    }
  }

  /** A row whose id and key no later row shares can be put in front of keyed rows. */
  lemma {:induction false} ConsKeyed(x: Product, rest: seq<Product>, next: nat)
    requires ProductsKeyed(rest, next) && x.id < next
    requires forall y :: y in rest ==> y.id != x.id && y.normalizedName != x.normalizedName
    ensures ProductsKeyed([x] + rest, next)
  {
    var r := [x] + rest;
    forall j, k | 0 <= j < k < |r| ensures r[j].id != r[k].id && r[j].normalizedName != r[k].normalizedName {
      assert r[k] == rest[k - 1];
      if j > 0 {
        assert r[j] == rest[j - 1];
      } else {
        assert rest[k - 1] in rest;
      }
    }
    forall i | 0 <= i < |r| ensures r[i].id < next {
      if i > 0 {
        assert r[i] == rest[i - 1];
      }
    }
  }

  /**
   * `deleteProduct`: true when a row with that id existed and was removed; a product that a
   * price observation or receipt item still references is not removed (foreign key violation).
   */
  method DeleteProduct(db: Database, id: Id) returns (r: Result<bool, DbError>)
    requires db.Valid()
    modifies db
    ensures db.Valid()
    ensures !HasProduct(old(db.products), id) ==> r == Ok(false) && db.State() == old(db.State())
    ensures HasProduct(old(db.products), id) && Referenced(old(db.State()), id) ==>
      r == Err(ForeignKeyViolation) && db.State() == old(db.State())
    ensures HasProduct(old(db.products), id) && !Referenced(old(db.State()), id) ==>
      r == Ok(true) && db.products == Filter(old(db.products), OtherThan(id)) &&
      !HasProduct(db.products, id) &&
      db.prices == old(db.prices) && db.receipts == old(db.receipts) && db.items == old(db.items) &&
      db.nextId == old(db.nextId)
  {
    if !HasProduct(db.products, id) {
      return Ok(false);
    }
    if Referenced(db.State(), id) {
      return Err(ForeignKeyViolation);
    }
    DeleteKeepsConsistent(db.State(), id);
    db.products := Filter(db.products, OtherThan(id));
    r := Ok(true);
  }

  // ---------------------------------------------------------------------------------------
  // getProductStats

  /** The part of `getProductStats` that is exact: the number of distinct receipts buying the product. */
  datatype ProductStats = ProductStats(totalPurchases: nat)

  function PurchasingReceipts(items: seq<ReceiptItem>, productId: Id): set<Id> {
    set i | 0 <= i < |items| && items[i].productId == productId :: items[i].receiptId
  }

  /** `getProductStats`: null when no receipt item references the product. */
  function GetProductStats(items: seq<ReceiptItem>, productId: Id): (r: Option<ProductStats>)
    ensures r.None? <==> forall i :: 0 <= i < |items| ==> items[i].productId != productId
    ensures r.Some? ==> r.value.totalPurchases >= 1
    ensures r.Some? ==> r.value.totalPurchases == |PurchasingReceipts(items, productId)|
  {
    var receipts := PurchasingReceipts(items, productId);
    assert forall i :: 0 <= i < |items| && items[i].productId == productId ==> items[i].receiptId in receipts;
    if |receipts| == 0 then None else Some(ProductStats(|receipts|))
  }

  /**
   * `COUNT(DISTINCT ri.receipt_id)`: a further item of the product on a receipt that already bought
   * it leaves the count as it is, and one on a receipt that had not bought it adds one.
   */
  lemma {:induction false} PurchasesCountDistinct(items: seq<ReceiptItem>, productId: Id, item: ReceiptItem)
    requires item.productId == productId
    ensures GetProductStats(items + [item], productId).Some?
    ensures var before := GetProductStats(items, productId);
            var count := if before.Some? then before.value.totalPurchases else 0;
            GetProductStats(items + [item], productId).value.totalPurchases ==
              if exists i :: 0 <= i < |items| && items[i].productId == productId && items[i].receiptId == item.receiptId
              then count else count + 1
  {
    var more := items + [item];
    var old_ := PurchasingReceipts(items, productId);
    assert PurchasingReceipts(more, productId) == old_ + {item.receiptId} by {
      forall x | x in PurchasingReceipts(more, productId) ensures x in old_ + {item.receiptId} {
        var i :| 0 <= i < |more| && more[i].productId == productId && more[i].receiptId == x;
        if i < |items| {
          assert items[i] == more[i];
        }
      }
      forall x | x in old_ + {item.receiptId} ensures x in PurchasingReceipts(more, productId) {
        if x == item.receiptId {
          assert more[|items|] == item;
        } else {
          var i :| 0 <= i < |items| && items[i].productId == productId && items[i].receiptId == x;
          assert more[i] == items[i];
        }
      }
    }
    assert more[|items|] == item;
    if exists i :: 0 <= i < |items| && items[i].productId == productId && items[i].receiptId == item.receiptId {
      var i :| 0 <= i < |items| && items[i].productId == productId && items[i].receiptId == item.receiptId;
      assert item.receiptId in old_;
      assert old_ + {item.receiptId} == old_;
    } else {
      assert item.receiptId !in old_;
      assert |old_ + {item.receiptId}| == |old_| + 1;
    }
  }
}
