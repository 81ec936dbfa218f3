/**
 * The PostgreSQL database shared by the receipt and products services, held in memory: the four
 * tables `products`, `price_history`, `receipts` and `receipt_items` as sequences of rows in
 * insertion order, with the constraints the SQL schema enforces stated as the invariant `Valid`.
 *
 * Row ids are the values of a counter (`nextId`) that stands for `gen_random_uuid()`, so every new
 * row gets an id no existing row has. Timestamps are integers; the time of a statement
 * (`CURRENT_TIMESTAMP`) is a parameter `now` of the operation that runs it.
 */
module Storage {
  import opened Wrappers
  import opened JsText

  type Id = nat

  /** The largest value of PostgreSQL's `bigint`, the type a LIMIT or OFFSET is read as. */
  const MaxBigint: int := 0x7FFF_FFFF_FFFF_FFFF

  /** A LIMIT or OFFSET the query accepts: not negative and within `bigint`; any other fails it. */
  predicate RowCount(n: int) {
    0 <= n <= MaxBigint
  }

  /** A row of `products`. */
  datatype Product = Product(
    id: Id,
    name: string,
    normalizedName: string,
    category: Option<string>,
    unit: Option<string>,
    createdAt: int,
    updatedAt: int)

  /** A row of `price_history`: one observed price of a product at a store (by CNPJ). */
  datatype PriceObservation = PriceObservation(
    id: Id,
    productId: Id,
    storeCnpj: string,
    price: Decimal,
    recordedAt: int)

  /** A row of `receipts`. */
  datatype Receipt = Receipt(
    id: Id,
    userId: string,
    qrCodeData: string,
    storeName: Option<string>,
    storeCnpj: Option<string>,
    totalAmount: Decimal,
    purchaseDate: int,
    receiptNumber: Option<string>,
    xmlData: Option<string>,
    createdAt: int)

  /** A row of `receipt_items`. */
  datatype ReceiptItem = ReceiptItem(
    id: Id,
    receiptId: Id,
    productId: Id,
    productNameOriginal: string,
    quantity: Decimal,
    unitPrice: Decimal,
    totalPrice: Decimal,
    createdAt: int)

  /** Why a statement failed: SQLSTATE 23505, SQLSTATE 23503, or any other database error. */
  datatype DbError = UniqueViolation | ForeignKeyViolation | QueryFailed {
    function Code(): (c: string)
      ensures UniqueViolation? <==> c == "23505"
      ensures ForeignKeyViolation? <==> c == "23503"
    {
      match this
      case UniqueViolation => "23505"
      case ForeignKeyViolation => "23503"
      case QueryFailed => "XX000"
    }
  }

  // ---------------------------------------------------------------------------------------
  // Lookups by key

  predicate HasProduct(ps: seq<Product>, id: Id) {
    exists i :: 0 <= i < |ps| && ps[i].id == id
  }

  predicate HasReceipt(rs: seq<Receipt>, id: Id) {
    exists i :: 0 <= i < |rs| && rs[i].id == id
  }

  predicate HasKey(ps: seq<Product>, key: string) {
    exists i :: 0 <= i < |ps| && ps[i].normalizedName == key
  }

  /** `SELECT * FROM products WHERE id = $1`, first row or null. */
  function ProductById(ps: seq<Product>, id: Id): (r: Option<Product>)
    ensures r.None? <==> !HasProduct(ps, id)
    ensures r.Some? ==> r.value in ps && r.value.id == id
  {
    if ps == [] then None
    else if ps[0].id == id then Some(ps[0])
    else
      ProductById(ps[1..], id)
  }

  /** `SELECT * FROM products WHERE normalized_name = $1`, first row or null. */
  function ProductByKey(ps: seq<Product>, key: string): (r: Option<Product>)
    ensures r.None? <==> !HasKey(ps, key)
    ensures r.Some? ==> r.value in ps && r.value.normalizedName == key
  {
    if ps == [] then None
    else if ps[0].normalizedName == key then Some(ps[0])
    else
      ProductByKey(ps[1..], key)
  }

  /** `SELECT * FROM receipts WHERE id = $1`, first row or null. */
  function ReceiptById(rs: seq<Receipt>, id: Id): (r: Option<Receipt>)
    ensures r.None? <==> !HasReceipt(rs, id)
    ensures r.Some? ==> r.value in rs && r.value.id == id
  {
    if rs == [] then None
    else if rs[0].id == id then Some(rs[0])
    else
      ReceiptById(rs[1..], id)
  }

  // ---------------------------------------------------------------------------------------
  // The schema's constraints

  /** Primary key and unique index of `products`; every id was handed out before `next`. */
  predicate ProductsKeyed(ps: seq<Product>, next: nat) {
    (forall i :: 0 <= i < |ps| ==> ps[i].id < next) &&
    (forall i, j :: 0 <= i < j < |ps| ==> ps[i].id != ps[j].id) &&
    (forall i, j :: 0 <= i < j < |ps| ==> ps[i].normalizedName != ps[j].normalizedName)
  }

  /** Primary key of `receipts` and the unique pair (user_id, qr_code_data). */
  predicate ReceiptsKeyed(rs: seq<Receipt>, next: nat) {
    (forall i :: 0 <= i < |rs| ==> rs[i].id < next) &&
    (forall i, j :: 0 <= i < j < |rs| ==> rs[i].id != rs[j].id) &&
    (forall i, j :: 0 <= i < j < |rs| ==>
       rs[i].userId != rs[j].userId || rs[i].qrCodeData != rs[j].qrCodeData)
  }

  /** Every price observation belongs to a product. */
  predicate PricesReferenceProducts(prices: seq<PriceObservation>, ps: seq<Product>, next: nat) {
    forall i :: 0 <= i < |prices| ==> prices[i].id < next && HasProduct(ps, prices[i].productId)
  }

  /** Every receipt item belongs to a receipt and names a product. */
  predicate ItemsReferenceRows(items: seq<ReceiptItem>, rs: seq<Receipt>, ps: seq<Product>, next: nat) {
    forall i :: 0 <= i < |items| ==>
      items[i].id < next && HasReceipt(rs, items[i].receiptId) && HasProduct(ps, items[i].productId)
  }

  /** The tables, as one value: what a transaction restores on ROLLBACK. */
  datatype Tables = Tables(
    products: seq<Product>,
    prices: seq<PriceObservation>,
    receipts: seq<Receipt>,
    items: seq<ReceiptItem>,
    nextId: nat)
  {
    predicate Consistent() {
      ProductsKeyed(products, nextId) &&
      ReceiptsKeyed(receipts, nextId) &&
      PricesReferenceProducts(prices, products, nextId) &&
      ItemsReferenceRows(items, receipts, products, nextId)
    }
  }

  /** The database: four tables updated in place by the services' statements. */
  class Database {
    var products: seq<Product>
    var prices: seq<PriceObservation>
    var receipts: seq<Receipt>
    var items: seq<ReceiptItem>
    var nextId: nat

    function State(): Tables
      reads this
    {
      Tables(products, prices, receipts, items, nextId)
    }

    /** Every constraint of the schema holds. */
    predicate Valid()
      reads this
    {
      State().Consistent()
    }

    constructor ()
      ensures Valid()
      ensures products == [] && prices == [] && receipts == [] && items == [] && nextId == 0
    {
      products, prices, receipts, items := [], [], [], [];
      nextId := 0;
    }

    /** ROLLBACK: every table goes back to the snapshot `t`. */
    method Restore(t: Tables)
      modifies this
      ensures State() == t
    {
      products, prices, receipts, items, nextId := t.products, t.prices, t.receipts, t.items, t.nextId;
    }
  }

  /** A fresh id is no id in use: what makes an append keep the tables consistent. */
  lemma {:induction false} FreshProductId(t: Tables)
    requires t.Consistent()
    ensures !HasProduct(t.products, t.nextId)
    ensures !HasReceipt(t.receipts, t.nextId)
  {
  }

  /** Adding a row to `products` keeps every reference to an existing product valid. */
  lemma {:induction false} HasProductAppend(ps: seq<Product>, p: Product, id: Id)
    requires HasProduct(ps, id)
    ensures HasProduct(ps + [p], id)
  {
    var i :| 0 <= i < |ps| && ps[i].id == id;
    assert (ps + [p])[i].id == id;
  }

  lemma {:induction false} HasReceiptAppend(rs: seq<Receipt>, r: Receipt, id: Id)
    requires HasReceipt(rs, id)
    ensures HasReceipt(rs + [r], id)
  {
    var i :| 0 <= i < |rs| && rs[i].id == id;
    assert (rs + [r])[i].id == id;
  }
}
