/**
 * The HTTP handlers of the products-service (`controllers/productController.ts`): listing,
 * details, manual create, partial update and delete of catalogue products, the `/normalize`
 * entry point the receipt-service calls, the price history and comparison of a product, and the
 * `parseInt(...) || default` query values of the trend and top-products routes.
 */
module ProductController {
  import opened Wrappers
  import opened JsText
  import opened Zod
  import opened Http
  import opened Storage
  import opened Pagination
  import opened Sequences
  import ProductModel
  import NormalizationService
  import PriceService
  import ProductValidation

  /** The 400 reply of a body that fails its schema. */
  function InvalidBody<T>(): (r: Reply<T>)
    ensures r.Failure? && r.status == 400
  {
    Failure(400, "Validation Error", "Invalid input data")
  }

  /** The 400 reply of a query string that fails its schema. */
  function InvalidQuery<T>(): (r: Reply<T>)
    ensures r.Failure? && r.status == 400
  {
    Failure(400, "Validation Error", "Invalid query parameters")
  }

  /** The 404 reply of an id with no product. */
  function ProductNotFound<T>(): (r: Reply<T>)
    ensures r.Failure? && r.status == 404
  {
    Failure(404, "Not Found", "Product not found")
  }

  // ---------------------------------------------------------------------------------------
  // GET /

  /** The body of a product list: the page of products and the pagination block. */
  datatype ProductList = ProductList(products: seq<Product>, page: JsNum, limit: JsNum, total: nat, totalPages: Option<nat>)

  /**
   * `listProductsController`: 400 when the query fails its schema; otherwise the page of
   * `listProducts`, with `Math.ceil(total / limit)` pages, or 500 when the query fails.
   */
  function ListProductsReply(ps: seq<Product>, page: Input, limit: Input, search: Input, category: Input)
    : (r: Reply<ProductList>)
    ensures ProductValidation.ValidateListQuery(page, limit, search, category).Err? ==> r == InvalidQuery()
    ensures ProductValidation.ValidateListQuery(page, limit, search, category).Ok? ==>
      r == ListPage(ps, ProductValidation.ValidateListQuery(page, limit, search, category).value)
  {
    var q := ProductValidation.ValidateListQuery(page, limit, search, category);
    if q.Err? then InvalidQuery()
    else ListPage(ps, q.value)
  }

  /** The options `listProducts` receives from a valid query: page and limit are always set. */
  function QueryOf(q: ProductValidation.ListProductsQuery): ProductModel.ProductQuery {
    ProductModel.ProductQuery(Some(q.page), Some(q.limit), q.search, q.category)
  }

  /** The reply to a valid list query. */
  function ListPage(ps: seq<Product>, q: ProductValidation.ListProductsQuery): Reply<ProductList> {
    var listed := ProductModel.ListProducts(ps, QueryOf(q));
    if listed.Err? then Failure(500, "Internal Server Error", "Could not list products")
    else
      assert q.limit.Int? && q.limit.value >= 0;
      Success(200, ProductList(listed.value.rows, q.page, q.limit, listed.value.total,
                               TotalPages(listed.value.total, q.limit.value)))
  }

  /**
   * A valid list query gets 500 exactly when its page and limit give no LIMIT and OFFSET;
   * otherwise the reply holds catalogue rows that pass the filters, in name order, at most
   * `limit` of them, the count of every match, and a page count under which page `p` has rows
   * exactly when `p <= totalPages`.
   */
  lemma {:induction false} ListPageSpec(ps: seq<Product>, q: ProductValidation.ListProductsQuery)
    ensures var r := ListPage(ps, q);
            (r.Failure? <==> Bounds(q.page, q.limit).None?) &&
            (r.Failure? ==> r == Failure(500, "Internal Server Error", "Could not list products")) &&
            (r.Success? ==>
              r.status == 200 && r.payload.limit.Int? && |r.payload.products| <= r.payload.limit.value &&
              r.payload.total == |Filter(ps, ProductModel.Matching(QueryOf(q)))| &&
              SortedBy(r.payload.products, ProductModel.ByName()) &&
              (forall i :: 0 <= i < |r.payload.products| ==>
                 r.payload.products[i] in ps && ProductModel.MatchesQuery(QueryOf(q), r.payload.products[i])) &&
              (r.payload.limit.value == 0 <==> r.payload.totalPages.None?) &&
              (r.payload.limit.value > 0 ==>
                 forall p :: p >= 1 ==>
                   (PageHasRows(r.payload.total, r.payload.limit.value, p) <==> p <= r.payload.totalPages.value)))
  {
    ProductModel.ListProductsSpec(ps, QueryOf(q));
    var r := ListPage(ps, q);
    if r.Success? && r.payload.limit.value > 0 {
      PagesCoverAll(r.payload.total, r.payload.limit.value);
    }
  }

  /**
   * With no query parameters the first 20 products of the whole catalogue in name order are
   * listed, and the total counts every product.
   */
  lemma {:induction false} ListDefaults(ps: seq<Product>)
    ensures var r := ListProductsReply(ps, Absent, Absent, Absent, Absent);
            var sorted := SortBy(ps, ProductModel.ByName());
            r.Success? && r.payload.page == Int(1) && r.payload.limit == Int(20) && r.payload.total == |ps| &&
            |r.payload.products| == (if |ps| < 20 then |ps| else 20) &&
            forall i :: 0 <= i < |r.payload.products| ==> r.payload.products[i] == sorted[i]
  {
    ProductValidation.ListQueryDefaults();
    FirstPageUnfiltered(ps, ProductValidation.ListProductsQuery(Int(1), Int(20), None, None));
  }

  /** Page 1 of 20 without filters: the first 20 rows of the catalogue in name order. */
  lemma {:induction false} FirstPageUnfiltered(ps: seq<Product>, q: ProductValidation.ListProductsQuery)
    requires q.page == Int(1) && q.limit == Int(20) && q.search.None? && q.category.None?
    ensures var r := ListPage(ps, q);
            var sorted := SortBy(ps, ProductModel.ByName());
            r.Success? && r.payload.page == Int(1) && r.payload.limit == Int(20) && r.payload.total == |ps| &&
            |r.payload.products| == (if |ps| < 20 then |ps| else 20) &&
            forall i :: 0 <= i < |r.payload.products| ==> r.payload.products[i] == sorted[i]
  {
    var pq := QueryOf(q);
    forall i | 0 <= i < |ps| ensures ProductModel.Matching(pq)(ps[i]) {
      assert ProductModel.MatchesQuery(pq, ps[i]);
    }
    FilterAll(ps, ProductModel.Matching(pq));
    assert Bounds(q.page, q.limit) == Some((0, 20));
    ProductModel.ListProductsSpec(ps, pq);
    ProductModel.ListProductsWindow(ps, pq);
  }

  // ---------------------------------------------------------------------------------------
  // GET /:id

  /** The body of the product details: the row and its purchase statistics. */
  datatype ProductDetails = ProductDetails(product: Product, statistics: Option<ProductModel.ProductStats>)

  /**
   * `getProductController`: 500 when the route id is not a text PostgreSQL can read as a uuid
   * (`None`: the lookup throws), 404 for an unknown id, else the row and `getProductStats`.
   */
  function ProductDetailsReply(ps: seq<Product>, items: seq<ReceiptItem>, id: Option<Id>): (r: Reply<ProductDetails>)
    ensures id.None? ==> r == Failure(500, "Internal Server Error", "Could not get product details")
    ensures id.Some? ==> (r.Failure? <==> !HasProduct(ps, id.value))
    ensures id.Some? && r.Failure? ==> r == ProductNotFound()
    ensures r.Success? ==>
      id.Some? && r.status == 200 && r.payload.product in ps && r.payload.product.id == id.value &&
      (r.payload.statistics.None? <==> forall i :: 0 <= i < |items| ==> items[i].productId != id.value)
  {
    if id.None? then Failure(500, "Internal Server Error", "Could not get product details")
    else
      match ProductById(ps, id.value)
      case None => ProductNotFound()
      case Some(p) => Success(200, ProductDetails(p, ProductModel.GetProductStats(items, id.value)))
  }

  // ---------------------------------------------------------------------------------------
  // POST /

  /**
   * `value || fallback` for a validated optional text: an absent, null or empty value gives the
   * fallback.
   */
  function TextOr(v: Option<Option<string>>, fallback: string): (r: string)
    ensures v.Some? && v.value.Some? && v.value.value != "" ==> r == v.value.value
    ensures !(v.Some? && v.value.Some? && v.value.value != "") ==> r == fallback
  {
    if v.Some? && v.value.Some? && v.value.value != "" then v.value.value else fallback
  }

  /**
   * The product `createProductController` stores for a valid body: the raw name, its normalised
   * key, the given category or else the category of the name, the given unit or else "UN".
   */
  function NewProductOf(input: ProductValidation.ProductInput, normalizedName: string): ProductModel.NewProduct {
    ProductModel.NewProduct(input.name, normalizedName,
                            Some(TextOr(input.category, NormalizationService.Categorize(input.name))),
                            Some(TextOr(input.unit, "UN")))
  }

  /** Every category the rules can give is a non-empty text. */
  lemma {:induction false} CategoryNeverEmpty(name: string)
    ensures NormalizationService.Categorize(name) != ""
  {
    var c := NormalizationService.Categorize(name);
    if c != NormalizationService.DefaultCategory {
      var i :| 0 <= i < |NormalizationService.Groups| && c == NormalizationService.Groups[i].category;
      NormalizationService.NoGroupIsDefault();
      GroupsNamed(i);
    }
  }

  /** Every group of the categorisation rules names its category. */
  lemma {:induction false} GroupsNamed(i: nat)
    requires i < |NormalizationService.Groups|
    ensures NormalizationService.Groups[i].category != ""
  {
  }

  /**
   * A manually created product always has a category and a unit: the given ones when they are
   * non-empty, otherwise the category the rules find for the name and "UN".
   */
  lemma {:induction false} CreatedRowFields(input: ProductValidation.ProductInput, key: string, id: Id, now: int)
    ensures var p := ProductModel.InsertedRow(NewProductOf(input, key), id, now);
            p.name == input.name && p.normalizedName == key &&
            p.category.Some? && p.unit.Some? &&
            (input.category.Some? && input.category.value.Some? && input.category.value.value != "" ==>
               p.category == input.category.value) &&
            (!(input.category.Some? && input.category.value.Some? && input.category.value.value != "") ==>
               p.category == Some(NormalizationService.Categorize(input.name))) &&
            (input.unit.Some? && input.unit.value.Some? && input.unit.value.value != "" ==> p.unit == input.unit.value) &&
            (!(input.unit.Some? && input.unit.value.Some? && input.unit.value.value != "") ==> p.unit == Some("UN"))
  {
    CategoryNeverEmpty(input.name);
  }

  /** The reply to a failed insert: 400 for a duplicate key, 500 for any other database error. */
  function CreateFailure(e: DbError): (r: Reply<Product>)
    ensures r.Failure?
    ensures r.status == 400 <==> e == UniqueViolation
    ensures e == UniqueViolation ==> r.message == "Product with similar name already exists"
  {
    if e == UniqueViolation then Failure(400, "Bad Request", "Product with similar name already exists")
    else Failure(500, "Internal Server Error", "Could not create product")
  }

  /**
   * `createProductController`: 400 for a body that fails the schema; 400 when the normalised name
   * is already in the catalogue (unique violation), with nothing written; otherwise 201 with the
   * one new row.
   */
  method CreateProductHandler(db: Database, name: Input, category: Input, unit: Input, now: int)
    returns (r: Reply<Product>)
    requires db.Valid()
    modifies db
    ensures db.Valid()
    ensures ProductValidation.ValidateProduct(name, category, unit).Err? ==>
      r == InvalidBody() && db.State() == old(db.State())
    ensures ProductValidation.ValidateProduct(name, category, unit).Ok? ==>
      var input := ProductValidation.ValidateProduct(name, category, unit).value;
      var key := NormalizationService.Normalize(input.name);
      (HasKey(old(db.products), key) ==> r == CreateFailure(UniqueViolation) && db.State() == old(db.State())) &&
      (!HasKey(old(db.products), key) ==>
         r == Success(201, ProductModel.InsertedRow(NewProductOf(input, key), old(db.nextId), now)) &&
         db.products == old(db.products) + [r.payload] && db.nextId == old(db.nextId) + 1 &&
         db.prices == old(db.prices) && db.receipts == old(db.receipts) && db.items == old(db.items) &&
         HasKey(db.products, key))
  {
    var validated := ProductValidation.ValidateProduct(name, category, unit);
    if validated.Err? {
      return InvalidBody();
    }
    r := CreateValidated(db, validated.value, now);
  }

  /** The part of `createProductController` after the body passed the schema. */
  method CreateValidated(db: Database, input: ProductValidation.ProductInput, now: int) returns (r: Reply<Product>)
    requires db.Valid()
    modifies db
    ensures db.Valid()
    ensures var key := NormalizationService.Normalize(input.name);
      (HasKey(old(db.products), key) ==> r == CreateFailure(UniqueViolation) && db.State() == old(db.State())) &&
      (!HasKey(old(db.products), key) ==>
         r == Success(201, ProductModel.InsertedRow(NewProductOf(input, key), old(db.nextId), now)) &&
         db.products == old(db.products) + [r.payload] && db.nextId == old(db.nextId) + 1 &&
         db.prices == old(db.prices) && db.receipts == old(db.receipts) && db.items == old(db.items) &&
         HasKey(db.products, key))
  {
    var normalizedName := NormalizationService.NormalizeProductName(input.name);
    var created := ProductModel.CreateProduct(db, NewProductOf(input, normalizedName), now);
    if created.Err? {
      return CreateFailure(created.error);
    }
    r := Success(201, created.value);
    assert db.products[|db.products| - 1].normalizedName == normalizedName;
  }

  /**
   * In a valid catalogue at most one row has a given key: after a refused duplicate the
   * catalogue still holds a single row with that key.
   */
  lemma {:induction false} OneRowPerKey(ps: seq<Product>, next: nat, key: string)
    requires ProductsKeyed(ps, next)
    ensures forall i, j :: 0 <= i < |ps| && 0 <= j < |ps| && ps[i].normalizedName == key && ps[j].normalizedName == key ==> i == j
  {
  }

  // ---------------------------------------------------------------------------------------
  // PUT /:id

  /**
   * The `updates` object of `updateProductController`: the validated fields, plus the normalised
   * key of the name when a non-empty name is supplied.
   */
  function UpdatesOf(patch: ProductValidation.ProductPatch, key: string): (u: ProductModel.ProductUpdate)
    ensures u.name == patch.name && u.category == patch.category && u.unit == patch.unit
    ensures u.normalizedName.Some? <==> patch.name.Some? && patch.name.value != ""
    ensures u.normalizedName.Some? ==> u.normalizedName.value == key
  {
    ProductModel.ProductUpdate(patch.name, if patch.name.Some? && patch.name.value != "" then Some(key) else None,
                               patch.category, patch.unit)
  }

  /** The update a valid body asks for: a supplied name always brings its normalised key. */
  function RequestedUpdate(patch: ProductValidation.ProductPatch): ProductModel.ProductUpdate {
    UpdatesOf(patch, if patch.name.Some? then NormalizationService.Normalize(patch.name.value) else "")
  }

  /**
   * A name that passes the schema is never empty, so the key is recomputed exactly when a name is
   * supplied, and every other field passes through as validated.
   */
  lemma {:induction false} KeyFollowsName(name: Input, category: Input, unit: Input)
    requires ProductValidation.ValidatePatch(name, category, unit).Ok?
    ensures var patch := ProductValidation.ValidatePatch(name, category, unit).value;
            var u := RequestedUpdate(patch);
            (u.normalizedName.Some? <==> name.Str?) &&
            (name.Str? ==> u.name == Some(name.text) && u.normalizedName == Some(NormalizationService.Normalize(name.text))) &&
            u.category == patch.category && u.unit == patch.unit
  {
    if name.Str? {
      assert Utf16Length(name.text) >= 2;
    }
  }

  /** The product row after an update that was applied to the row with id `id`. */
  function UpdatedRow(ps: seq<Product>, id: Id, u: ProductModel.ProductUpdate, now: int): Product
    requires HasProduct(ps, id)
  {
    ProductModel.Patched(ps[ProductModel.IndexOf(ps, id)], u, now)
  }

  /**
   * `updateProductController`: 400 for a body that fails the partial schema; with no field
   * supplied the row as it is (404 when there is none); 404 for an unknown id; 500 when the new
   * name's key belongs to another product (the handler maps no unique violation here); otherwise
   * the row patched in place. A route id that is not a uuid (`None`) makes the query throw: 500
   * after the body was validated.
   */
  method UpdateProductHandler(db: Database, routeId: Option<Id>, name: Input, category: Input, unit: Input, now: int)
    returns (r: Reply<Product>)
    requires db.Valid()
    modifies db
    ensures db.Valid()
    ensures ProductValidation.ValidatePatch(name, category, unit).Err? ==>
      r == InvalidBody() && db.State() == old(db.State())
    ensures ProductValidation.ValidatePatch(name, category, unit).Ok? && routeId.None? ==>
      r == Failure(500, "Internal Server Error", "Could not update product") && db.State() == old(db.State())
    ensures ProductValidation.ValidatePatch(name, category, unit).Ok? && routeId.Some? ==>
      var id := routeId.value;
      var u := RequestedUpdate(ProductValidation.ValidatePatch(name, category, unit).value);
      (!HasProduct(old(db.products), id) ==> r == ProductNotFound() && db.State() == old(db.State())) &&
      (HasProduct(old(db.products), id) && u.NoFields() ==>
         r == Success(200, ProductById(old(db.products), id).value) && db.State() == old(db.State())) &&
      (HasProduct(old(db.products), id) && !u.NoFields() &&
       u.normalizedName.Some? && ProductModel.KeyTakenByOther(old(db.products), u.normalizedName.value, id) ==>
         r == Failure(500, "Internal Server Error", "Could not update product") && db.State() == old(db.State())) &&
      (HasProduct(old(db.products), id) && !u.NoFields() &&
       !(u.normalizedName.Some? && ProductModel.KeyTakenByOther(old(db.products), u.normalizedName.value, id)) ==>
         r == Success(200, UpdatedRow(old(db.products), id, u, now)) &&
         db.products == old(db.products)[ProductModel.IndexOf(old(db.products), id) := r.payload] &&
         db.prices == old(db.prices) && db.receipts == old(db.receipts) && db.items == old(db.items) &&
         db.nextId == old(db.nextId))
  {
    var validated := ProductValidation.ValidatePatch(name, category, unit);
    if validated.Err? {
      return InvalidBody();
    }
    var patch := validated.value;
    var key := "";
    if patch.name.Some? && patch.name.value != "" {
      key := NormalizationService.NormalizeProductName(patch.name.value);
    }
    var u := UpdatesOf(patch, key);
    assert u == RequestedUpdate(patch);
    if routeId.None? {
      return Failure(500, "Internal Server Error", "Could not update product");
    }
    var updated := ProductModel.UpdateProduct(db, routeId.value, u, now);
    if updated.Err? {
      return Failure(500, "Internal Server Error", "Could not update product");
    }
    if updated.value.None? {
      return ProductNotFound();
    }
    r := Success(200, updated.value.value);
  }

  // ---------------------------------------------------------------------------------------
  // DELETE /:id

  /** The reply to a failed delete: 400 for a row still referenced, 500 for any other database error. */
  function DeleteFailure(e: DbError): (r: Reply<()>)
    ensures r.Failure?
    ensures r.status == 400 <==> e == ForeignKeyViolation
    ensures e == ForeignKeyViolation ==> r.message == "Cannot delete product with existing receipts"
  {
    if e == ForeignKeyViolation then Failure(400, "Bad Request", "Cannot delete product with existing receipts")
    else Failure(500, "Internal Server Error", "Could not delete product")
  }

  /**
   * `deleteProductController`: 404 for an unknown id; 400 when a price observation or receipt
   * item still references the product (foreign key violation), with nothing removed; otherwise
   * 200 with the row gone. A route id that is not a uuid (`None`) makes the delete throw with an
   * error other than a foreign key violation: 500.
   */
  method DeleteProductHandler(db: Database, routeId: Option<Id>) returns (r: Reply<()>)
    requires db.Valid()
    modifies db
    ensures db.Valid()
    ensures routeId.None? ==> r == DeleteFailure(QueryFailed) && r.status == 500 && db.State() == old(db.State())
    ensures routeId.Some? && !HasProduct(old(db.products), routeId.value) ==>
      r == ProductNotFound() && db.State() == old(db.State())
    ensures routeId.Some? && HasProduct(old(db.products), routeId.value) &&
            ProductModel.Referenced(old(db.State()), routeId.value) ==>
      r == DeleteFailure(ForeignKeyViolation) && db.State() == old(db.State())
    ensures routeId.Some? && HasProduct(old(db.products), routeId.value) &&
            !ProductModel.Referenced(old(db.State()), routeId.value) ==>
      var id := routeId.value;
      r == Success(200, ()) && db.products == Filter(old(db.products), ProductModel.OtherThan(id)) &&
      !HasProduct(db.products, id) &&
      db.prices == old(db.prices) && db.receipts == old(db.receipts) && db.items == old(db.items) &&
      db.nextId == old(db.nextId)
  {
    if routeId.None? {
      return DeleteFailure(QueryFailed);
    }
    var deleted := ProductModel.DeleteProduct(db, routeId.value);
    if deleted.Err? {
      return DeleteFailure(deleted.error);
    }
    if !deleted.value {
      return ProductNotFound();
    }
    r := Success(200, ());
  }

  // ---------------------------------------------------------------------------------------
  // POST /normalize

  /**
   * `normalizeProductController`: 400 for a body that fails the schema; otherwise the product of
   * `findOrCreateProduct` for the validated name and unit ("UN" by default): the existing row
   * with the name's key, untouched, or one new row.
   */
  method NormalizeHandler(db: Database, name: Input, unit: Input, now: int) returns (r: Reply<Product>)
    requires db.Valid()
    modifies db
    ensures db.Valid()
    ensures ProductValidation.ValidateNormalize(name, unit).Err? ==> r == InvalidBody() && db.State() == old(db.State())
    ensures ProductValidation.ValidateNormalize(name, unit).Ok? ==>
      var input := ProductValidation.ValidateNormalize(name, unit).value;
      var key := NormalizationService.Normalize(input.name);
      r.Success? && r.status == 200 && r.payload.normalizedName == key && r.payload in db.products &&
      (HasKey(old(db.products), key) ==>
         Some(r.payload) == ProductByKey(old(db.products), key) && db.State() == old(db.State())) &&
      (!HasKey(old(db.products), key) ==>
         r.payload == ProductModel.InsertedRow(NormalizationService.NewCatalogueProduct(input.name, input.unit),
                                               old(db.nextId), now) &&
         db.products == old(db.products) + [r.payload] && db.nextId == old(db.nextId) + 1 &&
         db.prices == old(db.prices) && db.receipts == old(db.receipts) && db.items == old(db.items))
  {
    var validated := ProductValidation.ValidateNormalize(name, unit);
    if validated.Err? {
      return InvalidBody();
    }
    var product := NormalizationService.FindOrCreateProduct(db, validated.value.name, Some(validated.value.unit), now);
    r := Success(200, product);
  }

  // ---------------------------------------------------------------------------------------
  // GET /:id/history

  /** The body of the price history: the observations and the price statistics. */
  datatype History = History(history: seq<PriceObservation>, statistics: Option<PriceService.PriceStats>)

  /**
   * `getPriceHistoryController`: 400 when the query fails its schema, otherwise the history of a
   * valid query.
   */
  function HistoryReply(prices: seq<PriceObservation>, id: Option<Id>, limit: Input, storeCnpj: Input)
    : (r: Reply<History>)
    ensures ProductValidation.ValidateHistoryQuery(limit, storeCnpj).Err? ==> r == InvalidQuery()
    ensures ProductValidation.ValidateHistoryQuery(limit, storeCnpj).Ok? ==>
      r == HistoryPage(prices, id, ProductValidation.ValidateHistoryQuery(limit, storeCnpj).value)
  {
    var q := ProductValidation.ValidateHistoryQuery(limit, storeCnpj);
    if q.Err? then InvalidQuery() else HistoryPage(prices, id, q.value)
  }

  /**
   * The reply to a valid history query: 500 when the limit is NaN, negative or beyond `bigint`;
   * otherwise at most `limit` observations of the product (at the store, when one is given),
   * newest first, and the statistics, null exactly when the product was never observed. An unknown product is not an
   * error: its history is empty. A route id that is not a uuid (`None`) makes the query throw: 500.
   */
  function HistoryPage(prices: seq<PriceObservation>, id: Option<Id>, q: ProductValidation.PriceHistoryQuery)
    : (r: Reply<History>)
    ensures r.Failure? <==> id.None? || !(q.limit.Int? && RowCount(q.limit.value))
    ensures r.Failure? ==> r == Failure(500, "Internal Server Error", "Could not get price history")
    ensures r.Success? ==>
      id.Some? && r.status == 200 && |r.payload.history| <= q.limit.value &&
      (forall i :: 0 <= i < |r.payload.history| ==>
         r.payload.history[i] in prices && r.payload.history[i].productId == id.value &&
         (Given(q.storeCnpj) ==> r.payload.history[i].storeCnpj == q.storeCnpj.value)) &&
      (forall i, j :: 0 <= i < j < |r.payload.history| ==>
         r.payload.history[i].recordedAt >= r.payload.history[j].recordedAt) &&
      (r.payload.statistics.None? <==> forall o :: o in prices ==> o.productId != id.value)
  {
    if id.None? then Failure(500, "Internal Server Error", "Could not get price history")
    else
      var history := PriceService.GetPriceHistory(prices, id.value, Some(q.limit), q.storeCnpj);
      if history.Err? then Failure(500, "Internal Server Error", "Could not get price history")
      else
        PriceService.GetPriceHistorySpec(prices, id.value, Some(q.limit), q.storeCnpj);
        Success(200, History(history.value, PriceService.GetPriceStats(prices, id.value)))
  }

  /**
   * A product nobody has observed, known or not, gets 200 with an empty history and null
   * statistics under the default query: this route has no 404.
   */
  lemma {:induction false} UnobservedHistoryEmpty(prices: seq<PriceObservation>, id: Id)
    requires forall o :: o in prices ==> o.productId != id
    ensures var r := HistoryReply(prices, Some(id), Absent, Absent);
            r.Success? && r.payload.history == [] && r.payload.statistics.None?
  {
    ProductValidation.HistoryQueryDefaults();
    UnobservedPageEmpty(prices, id, ProductValidation.PriceHistoryQuery(Int(30), None));
  }

  /** Under any valid limit, a product nobody has observed has an empty history and null statistics. */
  lemma {:induction false} UnobservedPageEmpty(prices: seq<PriceObservation>, id: Id, q: ProductValidation.PriceHistoryQuery)
    requires forall o :: o in prices ==> o.productId != id
    requires q.limit.Int? && RowCount(q.limit.value)
    ensures var r := HistoryPage(prices, Some(id), q);
            r.Success? && r.payload.history == [] && r.payload.statistics.None?
  {
    var r := HistoryPage(prices, Some(id), q);
    assert forall i :: 0 <= i < |r.payload.history| ==> r.payload.history[i].productId == id;
  }

  // ---------------------------------------------------------------------------------------
  // GET /:id/compare

  /** The body of the comparison: the product, the latest price per store, and the best one. */
  datatype Comparison = Comparison(product: Product, stores: seq<PriceService.PriceComparison>, bestPrice: Option<PriceService.BestPrice>)

  /**
   * `comparePricesController`: 500 when the route id is not a uuid (`None`: the lookup throws),
   * 404 for an unknown id, else `comparePrices` and `findBestPrice`.
   */
  function CompareReply(ps: seq<Product>, prices: seq<PriceObservation>, receipts: seq<Receipt>, id: Option<Id>)
    : (r: Reply<Comparison>)
    ensures id.None? ==> r == Failure(500, "Internal Server Error", "Could not compare prices")
    ensures id.Some? ==> (r.Failure? <==> !HasProduct(ps, id.value))
    ensures id.Some? && r.Failure? ==> r == ProductNotFound()
    ensures r.Success? ==>
      id.Some? && r.status == 200 && r.payload.product in ps && r.payload.product.id == id.value &&
      r.payload.stores == PriceService.ComparePrices(prices, receipts, id.value)
  {
    if id.None? then Failure(500, "Internal Server Error", "Could not compare prices")
    else
      match ProductById(ps, id.value)
      case None => ProductNotFound()
      case Some(p) =>
        Success(200, Comparison(p, PriceService.ComparePrices(prices, receipts, id.value),
                                PriceService.FindBestPrice(prices, receipts, id.value)))
  }

  /**
   * The best price of a comparison is null exactly when the product has no observation, and
   * otherwise no store of the comparison is cheaper.
   */
  lemma {:induction false} BestPriceIsCheapest(ps: seq<Product>, prices: seq<PriceObservation>,
                                               receipts: seq<Receipt>, id: Id)
    requires HasProduct(ps, id)
    ensures var r := CompareReply(ps, prices, receipts, Some(id));
            r.Success? &&
            (r.payload.bestPrice.None? <==> forall o :: o in prices ==> o.productId != id) &&
            (r.payload.bestPrice.Some? ==>
               forall c :: c in r.payload.stores ==> PriceService.DecimalLe(r.payload.bestPrice.value.price, c.currentPrice))
  {
    PriceService.FindBestPriceSpec(prices, receipts, id);
  }

  // ---------------------------------------------------------------------------------------
  // GET /:id/trend and GET /top

  /**
   * `parseInt(value) || fallback` for a query value: a missing value reads as NaN, and NaN or 0
   * gives the fallback.
   */
  function ParsedOr(value: Option<string>, fallback: int): (n: int)
    ensures value.Some? && ParseInt(value.value).Truthy() ==> n == ParseInt(value.value).value
    ensures !(value.Some? && ParseInt(value.value).Truthy()) ==> n == fallback
  {
    if value.Some? && ParseInt(value.value).Truthy() then ParseInt(value.value).value else fallback
  }

  /** The days of `getPriceTrendController`: 30 unless the query gives another non-zero number. */
  function TrendDays(days: Option<string>): (n: int)
    ensures n != 0
  {
    ParsedOr(days, 30)
  }

  /** The limit of `getTopProductsController`: 10 unless the query gives another non-zero number. */
  function TopLimit(limit: Option<string>): (n: int)
    ensures n != 0
  {
    ParsedOr(limit, 10)
  }

  /** Text that does not start with a sign, a digit or white space reads as NaN. */
  lemma {:induction false} ParseIntNoDigit(s: string)
    requires s != [] && !IsDigit(s[0]) && !IsSpace(s[0]) && s[0] != '-' && s[0] != '+'
    ensures ParseInt(s) == NotANumber
  {
    assert TrimStart(s) == s;
    assert DigitRun(s) == 0;
  }

  /**
   * A run of decimal digits reads as its value, whatever follows it, unless the text starts
   * with "0x" or "0X".
   */
  lemma {:induction false} ParseIntDigitsThen(d: string, rest: string)
    requires d != [] && AllDigits(d) && (rest == [] || !IsDigit(rest[0]))
    requires |d + rest| < 2 || ((d + rest)[1] != 'x' && (d + rest)[1] != 'X')
    ensures ParseInt(d + rest) == Int(DigitsValue(d))
  {
    var s := d + rest;
    assert s[0] == d[0] && IsDigit(s[0]);
    assert !IsSpace(s[0]);
    assert TrimStart(s) == s;
    DigitRunOfPrefix(d, rest);
    assert s[..|d|] == d;
  }

  /** The digit run of `d + rest` is `d` when `rest` does not start with a digit. */
  lemma {:induction false} DigitRunOfPrefix(d: string, rest: string)
    requires AllDigits(d) && (rest == [] || !IsDigit(rest[0]))
    ensures DigitRun(d + rest) == |d|
    decreases |d|
  {
    if d == [] {
      assert d + rest == rest;
    } else {
      assert (d + rest)[1..] == d[1..] + rest;
      DigitRunOfPrefix(d[1..], rest);
    }
  }

  /** A value that `parseInt` reads as NaN gives the fallback. */
  lemma {:induction false} UnparsableFallsBack(value: string, fallback: int)
    requires value != [] && !IsDigit(value[0]) && !IsSpace(value[0]) && value[0] != '-' && value[0] != '+'
    ensures ParsedOr(Some(value), fallback) == fallback
  {
    ParseIntNoDigit(value);
  }

  /** A run of digits followed by other text gives the value of the digits, or the fallback when that is 0. */
  lemma {:induction false} DigitsRead(value: string, d: string, rest: string, fallback: int)
    requires value == d + rest
    requires d != [] && AllDigits(d) && (rest == [] || !IsDigit(rest[0]))
    requires |value| < 2 || (value[1] != 'x' && value[1] != 'X')
    ensures ParsedOr(Some(value), fallback) == if DigitsValue(d) == 0 then fallback else DigitsValue(d)
  {
    ParseIntDigitsThen(d, rest);
  }

  /**
   * The trend falls back to 30 days for a missing, unparsable or zero value, and `parseInt` reads
   * the leading digits of a value such as "7days" that a schema would refuse.
   */
  lemma {:induction false} TrendDaysDefaults(letters: string, zero: string, mixed: string)
    requires letters == "abc" && zero == "0" && mixed == "7days"
    ensures TrendDays(None) == 30
    ensures TrendDays(Some(letters)) == 30
    ensures TrendDays(Some(zero)) == 30
    ensures TrendDays(Some(mixed)) == 7
  {
    UnparsableFallsBack(letters, 30);
    DigitsRead(zero, zero, "", 30);
    DigitsRead(mixed, "7", "days", 30);
  }

  /** The top-products limit falls back to 10 for a missing, unparsable or zero value. */
  lemma {:induction false} TopLimitDefaults(letters: string, zero: string, digits: string)
    requires letters == "all" && zero == "0" && digits == "25"
    ensures TopLimit(None) == 10
    ensures TopLimit(Some(letters)) == 10
    ensures TopLimit(Some(zero)) == 10
    ensures TopLimit(Some(digits)) == 25
  {
    UnparsableFallsBack(letters, 10);
    DigitsRead(zero, zero, "", 10);
    DigitsRead(digits, digits, "", 10);
  }
}
