/**
 * The receipt-service's HTTP handlers (`controllers/receiptController.ts`): the upload workflow
 * (validate, refuse a duplicate, fetch and parse the NFC-e, record a product and a price per item,
 * then store the receipt with its items), the paged list, and the details and delete handlers with
 * their ownership checks. A reply is a status with a payload or with the `error` and `message`
 * fields; the authenticated user is `None` when the request carries none.
 */
module ReceiptController {
  import opened Wrappers
  import opened Http
  import opened JsText
  import opened NameKey
  import opened Storage
  import opened Pagination
  import opened Zod
  import opened ReceiptValidation
  import NfceParser
  import ReceiptProducts
  import ReceiptModel
  import Sequences

  /** The 401 reply, whatever the payload type. */
  function NotAuthenticated<T>(): (r: Reply<T>)
    ensures r.Failure? && r.status == 401
  {
    Failure(401, "Unauthorized", "User not authenticated")
  }

  // ---------------------------------------------------------------------------------------
  // uploadReceipt

  /** The receipt part of the 201 reply. */
  datatype UploadSummary = UploadSummary(
    id: Id,
    storeName: Option<string>,
    storeCnpj: Option<string>,
    totalAmount: Decimal,
    purchaseDate: int,
    itemCount: nat,
    createdAt: int)

  /** One item of a reply. */
  datatype ItemSummary = ItemSummary(id: Id, productName: string, quantity: Decimal, unitPrice: Decimal, totalPrice: Decimal)

  datatype Uploaded = Uploaded(receipt: UploadSummary, items: seq<ItemSummary>)

  /** What the upload's `catch` receives: a Zod validation error, an error with a message, or a database error. */
  datatype Thrown = Invalid(issues: seq<Issue>) | Message(text: string) | Database(error: DbError)

  /**
   * The upload's error mapping: a validation error is 400, an error whose message mentions "parse"
   * is 400, anything else is 500. The messages of the database errors these statements raise do
   * not mention "parse".
   */
  function UploadFailure(e: Thrown): (r: Reply<Uploaded>)
    ensures r.Failure?
    ensures r.status == 400 <==> e.Invalid? || (e.Message? && Includes(e.text, "parse"))
    ensures r.status == 400 || r.status == 500
  {
    match e
    case Invalid(_) => Failure(400, "Validation Error", "Invalid input data")
    case Message(text) =>
      if Includes(text, "parse") then Failure(400, "Bad Request", "Invalid receipt data or QR code")
      else Failure(500, "Internal Server Error", "Could not process receipt")
    case Database(_) => Failure(500, "Internal Server Error", "Could not process receipt")
  }

  /**
   * The TypeError `normalizeProductName` throws at `name.toLowerCase()`, called by
   * `findOrCreateProduct`, when the item's name is an object or an array.
   */
  const NameNotString: string := "name.toLowerCase is not a function"

  /** That error does not mention "parse", so it is reported as a server error. */
  lemma {:induction false} NameFailureIsServerError()
    ensures UploadFailure(Message(NameNotString)) == Failure(500, "Internal Server Error", "Could not process receipt")
  {
    NameNotStringWithoutParse(NameNotString, "parse");
  }

  /** The error has no "p" at all, so it cannot contain "parse". */
  lemma {:induction false} NameNotStringWithoutParse(text: string, parse: string)
    requires text == NameNotString && parse == "parse"
    ensures !Includes(text, parse)
  {
    assert forall i :: 0 <= i < |text| ==> text[i] != 'p';
    FirstCharMissing(text, parse);
  }

  /** Every parser failure is reported as a bad request. */
  lemma {:induction false} ParseFailureIsBadRequest(document: NfceParser.XVal)
    requires NfceParser.ParseNfce(document).Err?
    ensures UploadFailure(Message(NfceParser.ParseNfce(document).error.message)) ==
            Failure(400, "Bad Request", "Invalid receipt data or QR code")
  {
    NfceParser.FailuresMentionParse(document);
  }

  /** The item handed to `createReceipt`: an empty receipt id, the product, the raw name and the parsed amounts. */
  function ItemFrom(item: NfceParser.ParsedItem, productId: Id): (r: ReceiptModel.NewItem)
    ensures r.receiptId == "" && r.productId == productId && r.productNameOriginal == item.name
    ensures r.quantity == item.quantity() && r.unitPrice == item.unitPrice() && r.totalPrice == item.totalPrice()
  {
    ReceiptModel.NewItem("", productId, item.name, item.quantity(), item.unitPrice(), item.totalPrice())
  }

  /** The row with id `id` exists and has the key `key`. */
  predicate KeyedProduct(ps: seq<Product>, id: Id, key: string) {
    exists i :: 0 <= i < |ps| && ps[i].id == id && ps[i].normalizedName == key
  }

  /** A price row for the product at the store with the price. */
  predicate Records(o: PriceObservation, productId: Id, storeCnpj: string, price: Decimal) {
    o.productId == productId && o.storeCnpj == storeCnpj && o.price == price
  }

  /** The product keys of the parsed items, in document order. */
  function Keys(items: seq<NfceParser.ParsedItem>): (r: seq<string>)
    ensures |r| == |items| && forall k :: 0 <= k < |items| ==> r[k] == BaseKey(items[k].name)
  {
    seq(|items|, k requires 0 <= k < |items| => BaseKey(items[k].name))
  }

  /**
   * The receipt items the parsed items become, before their products are known: the raw name and
   * the parsed amounts, with product id 0 as a placeholder.
   */
  function Drafts(items: seq<NfceParser.ParsedItem>): (r: seq<ReceiptModel.NewItem>)
    ensures |r| == |items| && forall k :: 0 <= k < |items| ==> r[k] == ItemFrom(items[k], 0)
  {
    seq(|items|, k requires 0 <= k < |items| => ItemFrom(items[k], 0))
  }

  /**
   * What one turn of the loop leaves behind for a parsed item with key `key` and draft `draft`: the
   * draft with the product filled in, a product with that key, and the price row of the draft's
   * unit price at the store.
   */
  predicate ProcessedItem(ps: seq<Product>, o: PriceObservation, draft: ReceiptModel.NewItem, key: string,
                          newItem: ReceiptModel.NewItem, storeCnpj: string) {
    newItem == draft.(productId := newItem.productId) &&
    KeyedProduct(ps, newItem.productId, key) &&
    Records(o, newItem.productId, storeCnpj, draft.unitPrice)
  }

  /** The first `|newItems|` items are processed, their price rows following the first `base` rows. */
  predicate Processed(ps: seq<Product>, prices: seq<PriceObservation>, base: nat, drafts: seq<ReceiptModel.NewItem>,
                      keys: seq<string>, newItems: seq<ReceiptModel.NewItem>, storeCnpj: string) {
    |newItems| <= |drafts| && |newItems| <= |keys| && base + |newItems| <= |prices| &&
    forall j :: 0 <= j < |newItems| ==> ProcessedItem(ps, prices[base + j], drafts[j], keys[j], newItems[j], storeCnpj)
  }

  lemma {:induction false} KeyedProductGrows(ps: seq<Product>, more: seq<Product>, id: Id, key: string)
    requires ps <= more && KeyedProduct(ps, id, key)
    ensures KeyedProduct(more, id, key)
  {
    var i :| 0 <= i < |ps| && ps[i].id == id && ps[i].normalizedName == key;
    assert more[i] == ps[i];
  }

  /** Rows added to products and prices do not undo what the earlier turns did. */
  lemma {:induction false} ProcessedGrows(ps: seq<Product>, ps': seq<Product>, prices: seq<PriceObservation>, prices': seq<PriceObservation>,
                       base: nat, drafts: seq<ReceiptModel.NewItem>, keys: seq<string>,
                       newItems: seq<ReceiptModel.NewItem>, storeCnpj: string)
    requires Processed(ps, prices, base, drafts, keys, newItems, storeCnpj)
    requires ps <= ps' && prices <= prices'
    ensures Processed(ps', prices', base, drafts, keys, newItems, storeCnpj)
  {
    forall j | 0 <= j < |newItems|
      ensures ProcessedItem(ps', prices'[base + j], drafts[j], keys[j], newItems[j], storeCnpj)
    {
      assert prices'[base + j] == prices[base + j];
      KeyedProductGrows(ps, ps', newItems[j].productId, keys[j]);
    }
  }

  /** A turn that processes the next item extends what is processed. */
  lemma {:induction false} ProcessedAppend(ps: seq<Product>, prices: seq<PriceObservation>, base: nat, drafts: seq<ReceiptModel.NewItem>,
                        keys: seq<string>, newItems: seq<ReceiptModel.NewItem>, k: nat, newItem: ReceiptModel.NewItem,
                        storeCnpj: string)
    requires Processed(ps, prices, base, drafts, keys, newItems, storeCnpj)
    requires k == |newItems| && k < |drafts| && k < |keys| && base + k < |prices|
    requires ProcessedItem(ps, prices[base + k], drafts[k], keys[k], newItem, storeCnpj)
    ensures Processed(ps, prices, base, drafts, keys, newItems + [newItem], storeCnpj)
  {
    var more := newItems + [newItem];
    forall j | 0 <= j < |more| ensures ProcessedItem(ps, prices[base + j], drafts[j], keys[j], more[j], storeCnpj) {
      if j < |newItems| {
        assert more[j] == newItems[j];
      }
    }
  }

  /** One turn of the loop, stated on the tables before and after it. */
  lemma {:induction false} ProcessedStep(ps: seq<Product>, ps': seq<Product>, prices: seq<PriceObservation>,
                                         prices': seq<PriceObservation>, base: nat, drafts: seq<ReceiptModel.NewItem>,
                                         keys: seq<string>, newItems: seq<ReceiptModel.NewItem>,
                                         newItem: ReceiptModel.NewItem, storeCnpj: string)
    requires Processed(ps, prices, base, drafts, keys, newItems, storeCnpj)
    requires |newItems| < |drafts| && |newItems| < |keys| && base + |newItems| == |prices|
    requires ps <= ps' && prices <= prices' && |prices'| == |prices| + 1
    requires ProcessedItem(ps', prices'[|prices|], drafts[|newItems|], keys[|newItems|], newItem, storeCnpj)
    ensures Processed(ps', prices', base, drafts, keys, newItems + [newItem], storeCnpj)
  {
    ProcessedGrows(ps, ps', prices, prices', base, drafts, keys, newItems, storeCnpj);
    ProcessedAppend(ps', prices', base, drafts, keys, newItems, |newItems|, newItem, storeCnpj);
  }

  /** Every product a processed item names exists, and each item is its draft with the product filled in. */
  lemma {:induction false} ProcessedProductsExist(ps: seq<Product>, prices: seq<PriceObservation>, base: nat,
                               drafts: seq<ReceiptModel.NewItem>, keys: seq<string>, newItems: seq<ReceiptModel.NewItem>,
                               storeCnpj: string)
    requires Processed(ps, prices, base, drafts, keys, newItems, storeCnpj)
    ensures forall k :: 0 <= k < |newItems| ==> HasProduct(ps, newItems[k].productId)
    ensures forall k :: 0 <= k < |newItems| ==> newItems[k] == drafts[k].(productId := newItems[k].productId)
  {
    forall k | 0 <= k < |newItems|
      ensures HasProduct(ps, newItems[k].productId)
      ensures newItems[k] == drafts[k].(productId := newItems[k].productId)
    {
      assert ProcessedItem(ps, prices[base + k], drafts[k], keys[k], newItems[k], storeCnpj);
      var i :| 0 <= i < |ps| && ps[i].id == newItems[k].productId && ps[i].normalizedName == keys[k];
    }
  }

  /**
   * One turn of the loop: find or create the product by the item's key, record the item's unit price
   * at the store, and fill the product into the item's draft. A name that is not a string makes
   * `findOrCreateProduct` throw before its first statement: `None`, with nothing written.
   */
  method ProcessItem(db: Database, item: NfceParser.ParsedItem, draft: ReceiptModel.NewItem, key: string,
                     storeCnpj: string, now: int)
    returns (newItem: Option<ReceiptModel.NewItem>)
    requires db.Valid() && key == BaseKey(item.name)
    modifies db
    ensures db.Valid()
    ensures newItem.None? <==> !item.nameIsText
    ensures newItem.None? ==> db.State() == old(db.State())
    ensures old(db.products) <= db.products && old(db.prices) <= db.prices
    ensures db.receipts == old(db.receipts) && db.items == old(db.items)
    ensures newItem.Some? ==>
      |db.prices| == |old(db.prices)| + 1 &&
      ProcessedItem(db.products, db.prices[|old(db.prices)|], draft, key, newItem.value, storeCnpj)
  {
    if !item.nameIsText {
      return None;
    }
    var product := ReceiptProducts.FindOrCreateProduct(db, item.name, Some(item.unit), now);
    var i :| 0 <= i < |db.products| && db.products[i] == product;
    assert HasProduct(db.products, product.id);
    assert KeyedProduct(db.products, product.id, key);
    var _ := ReceiptProducts.RegisterPrice(db, product.id, storeCnpj, draft.unitPrice, now);
    newItem := Some(draft.(productId := product.id));
  }

  /** The loop stops after `n` items: every earlier name is a string, and the `n`-th, if any, is not. */
  predicate StopsAt(items: seq<NfceParser.ParsedItem>, n: nat) {
    n <= |items| && TextUpTo(items, n) && (n < |items| ==> !items[n].nameIsText)
  }

  /** The names of the first `n` items are strings. */
  predicate TextUpTo(items: seq<NfceParser.ParsedItem>, n: nat)
    requires n <= |items|
  {
    forall j :: 0 <= j < n ==> items[j].nameIsText
  }

  lemma {:induction false} TextUpToNext(items: seq<NfceParser.ParsedItem>, n: nat)
    requires n < |items| && TextUpTo(items, n) && items[n].nameIsText
    ensures TextUpTo(items, n + 1)
  {
  }

  /** Every item's name is a string. */
  predicate NamesAreText(items: seq<NfceParser.ParsedItem>) {
    forall j :: 0 <= j < |items| ==> items[j].nameIsText
  }

  /**
   * What the loop has done after processing `newItems` from the tables `start`: every processed
   * name is a string, receipts and items are untouched, products are only added to, and one price
   * row follows the old ones per processed item, which is processed as Processed says.
   */
  predicate Progress(start: Tables, cur: Tables, items: seq<NfceParser.ParsedItem>, newItems: seq<ReceiptModel.NewItem>,
                     storeCnpj: string) {
    |newItems| <= |items| && TextUpTo(items, |newItems|) &&
    cur.receipts == start.receipts && cur.items == start.items &&
    start.products <= cur.products && start.prices <= cur.prices && |cur.prices| == |start.prices| + |newItems| &&
    Processed(cur.products, cur.prices, |start.prices|, Drafts(items), Keys(items), newItems, storeCnpj)
  }

  /**
   * The loop of the upload, item by item in document order, up to the first name that is not a
   * string. Products and prices are only added to, one price per processed item; receipts and items
   * are untouched.
   */
  method ProcessItems(db: Database, items: seq<NfceParser.ParsedItem>, storeCnpj: string, now: int)
    returns (newItems: seq<ReceiptModel.NewItem>)
    requires db.Valid()
    modifies db
    ensures db.Valid()
    ensures StopsAt(items, |newItems|)
    ensures old(db.products) <= db.products
    ensures |db.prices| == |old(db.prices)| + |newItems| && old(db.prices) <= db.prices
    ensures db.receipts == old(db.receipts) && db.items == old(db.items)
    ensures Processed(db.products, db.prices, |old(db.prices)|, Drafts(items), Keys(items), newItems, storeCnpj)
  {
    ghost var start := db.State();
    newItems := [];
    var stopped := false;
    while |newItems| < |items| && !stopped
      invariant db.Valid() && Progress(start, db.State(), items, newItems, storeCnpj)
      invariant stopped ==> |newItems| < |items| && !items[|newItems|].nameIsText
      decreases |items| - |newItems|, !stopped
    {
      var item := ProcessNext(db, start, items, newItems, storeCnpj, now);
      if item.None? {
        stopped := true;
      } else {
        newItems := newItems + [item.value];
      }
    }
  }

  /** A turn of the loop of ProcessItems, stated on everything processed so far. */
  method ProcessNext(db: Database, ghost start: Tables, items: seq<NfceParser.ParsedItem>,
                     newItems: seq<ReceiptModel.NewItem>, storeCnpj: string, now: int)
    returns (newItem: Option<ReceiptModel.NewItem>)
    requires db.Valid() && |newItems| < |items| && Progress(start, db.State(), items, newItems, storeCnpj)
    modifies db
    ensures db.Valid()
    ensures newItem.None? <==> !items[|newItems|].nameIsText
    ensures newItem.None? ==> db.State() == old(db.State())
    ensures newItem.Some? ==> Progress(start, db.State(), items, newItems + [newItem.value], storeCnpj)
  {
    var before := db.State();
    var k := |newItems|;
    var drafts, keys := Drafts(items), Keys(items);
    newItem := ProcessItem(db, items[k], drafts[k], keys[k], storeCnpj, now);
    if newItem.Some? {
      ProcessedStep(before.products, db.products, before.prices, db.prices, |start.prices|, drafts, keys, newItems,
                    newItem.value, storeCnpj);
      TextUpToNext(items, k);
    }
  }

  /** The purchase date the receipt row gets: the document's date read by `new Date`, or now. */
  function PurchaseDateOf(source: NfceParser.DateSource, parseDate: string -> Option<int>, now: int): Option<int> {
    match source
    case FromText(text) => parseDate(text)
    case CurrentTime => Some(now)
  }

  /** The receipt `createReceipt` is given, from the parse and the stored XML text. */
  function NewReceiptOf(userId: string, qrCodeData: string, parsed: NfceParser.ParsedReceipt, xmlText: string,
                        parseDate: string -> Option<int>, now: int): (r: ReceiptModel.NewReceipt)
    ensures r.userId == userId && r.qrCodeData == qrCodeData
    ensures r.storeName == Some(parsed.storeName) && r.storeCnpj == Some(parsed.storeCnpj)
    ensures r.totalAmount == parsed.totalAmount() && r.xmlData == Some(xmlText)
    ensures r.purchaseDate == PurchaseDateOf(parsed.purchaseDate, parseDate, now)
  {
    ReceiptModel.NewReceipt(userId, qrCodeData, Some(parsed.storeName), Some(parsed.storeCnpj), parsed.totalAmount(),
                            PurchaseDateOf(parsed.purchaseDate, parseDate, now), Some(parsed.receiptNumber), Some(xmlText))
  }

  function ItemSummaryOf(item: ReceiptItem): (r: ItemSummary)
    ensures r.id == item.id && r.productName == item.productNameOriginal && r.quantity == item.quantity
    ensures r.unitPrice == item.unitPrice && r.totalPrice == item.totalPrice
  {
    ItemSummary(item.id, item.productNameOriginal, item.quantity, item.unitPrice, item.totalPrice)
  }

  function ItemSummaries(items: seq<ReceiptItem>): (r: seq<ItemSummary>)
    ensures |r| == |items| && forall k :: 0 <= k < |r| ==> r[k] == ItemSummaryOf(items[k])
  {
    seq(|items|, k requires 0 <= k < |items| => ItemSummaryOf(items[k]))
  }

  /** The 201 reply: the stored receipt, its item count and its items in stored order. */
  function UploadedReply(created: ReceiptModel.ReceiptWithItems): (r: Reply<Uploaded>)
    ensures r.Success? && r.status == 201
    ensures r.payload.receipt.id == created.receipt.id && r.payload.receipt.itemCount == |created.items|
    ensures r.payload.items == ItemSummaries(created.items)
  {
    var rc := created.receipt;
    Success(201, Uploaded(UploadSummary(rc.id, rc.storeName, rc.storeCnpj, rc.totalAmount, rc.purchaseDate,
                                        |created.items|, rc.createdAt),
                          ItemSummaries(created.items)))
  }

  /**
   * The receipt can be stored after the item loop: its purchase date is readable and no injected
   * failure hits one of its `1 + |items|` statements. A duplicate cannot occur, since the check ran
   * first, and neither can a missing product, since the loop created every one.
   */
  predicate Storable(parsed: NfceParser.ParsedReceipt, parseDate: string -> Option<int>, now: int, failAt: Option<nat>) {
    Commits(PurchaseDateOf(parsed.purchaseDate, parseDate, now), |parsed.items|, failAt)
  }

  /** The transaction for a receipt of `count` items commits: a readable date and no failing statement. */
  predicate Commits(purchaseDate: Option<int>, count: nat, failAt: Option<nat>) {
    purchaseDate.Some? && (failAt.None? || failAt.value > count)
  }

  /**
   * The reply describes the stored receipt: the new row's id `receiptId`, the input's store, total
   * and purchase date, the item count and the time of the insert; then the drafts of the parsed
   * items, in document order, each with the id of its new row (`receiptId + 1 + k`), its raw name
   * and its parsed amounts.
   */
  predicate Describes(payload: Uploaded, input: ReceiptModel.NewReceipt, drafts: seq<ReceiptModel.NewItem>,
                      receiptId: Id, now: int) {
    input.purchaseDate.Some? &&
    payload.receipt == UploadSummary(receiptId, input.storeName, input.storeCnpj, input.totalAmount,
                                     input.purchaseDate.value, |drafts|, now) &&
    |payload.items| == |drafts| &&
    forall k :: 0 <= k < |drafts| ==>
      payload.items[k] == ItemSummary(receiptId + 1 + k, drafts[k].productNameOriginal, drafts[k].quantity,
                                      drafts[k].unitPrice, drafts[k].totalPrice)
  }

  /**
   * The transaction of the upload, after the item loop: the receipt with the processed items is
   * stored exactly when it is storable, and nothing is written otherwise.
   */
  method SaveReceipt(db: Database, input: ReceiptModel.NewReceipt, drafts: seq<ReceiptModel.NewItem>,
                     items: seq<ReceiptModel.NewItem>, now: int, failAt: Option<nat>)
    returns (r: Reply<Uploaded>)
    requires db.Valid()
    requires !ReceiptModel.ReceiptExistsByQRCode(db.receipts, input.userId, input.qrCodeData)
    requires |items| == |drafts|
    requires forall k :: 0 <= k < |items| ==> HasProduct(db.products, items[k].productId)
    requires forall k :: 0 <= k < |items| ==> items[k] == drafts[k].(productId := items[k].productId)
    modifies db
    ensures db.Valid()
    ensures db.products == old(db.products) && db.prices == old(db.prices)
    ensures r.Success? <==> Commits(input.purchaseDate, |items|, failAt)
    ensures r.Success? ==>
      r.status == 201 && Describes(r.payload, input, drafts, old(db.nextId), now) &&
      db.State() == ReceiptModel.Created(old(db.State()), input, items, now)
    ensures r.Failure? ==>
      r == Failure(500, "Internal Server Error", "Could not process receipt") && db.State() == old(db.State())
  {
    var before := db.State();
    CommitsMeansNoFailure(before, input, items, failAt);
    var created := ReceiptModel.CreateReceipt(db, input, items, now, failAt);
    if created.Err? {
      return UploadFailure(Database(created.error));
    }
    ReceiptModel.CreatedAppends(before, input, items, now);
    r := UploadedReply(created.value);
    RowsDescribeDrafts(input, drafts, items, created.value, now);
  }

  /**
   * What the item loop leaves behind, in `mid`: receipts and items untouched, products only added
   * to, the loop stopped at the first name that is not a string (if any), one price row per
   * processed item, and every item of `stored` processed.
   */
  predicate AfterLoop(before: Tables, mid: Tables, parsed: NfceParser.ParsedReceipt, stored: seq<ReceiptModel.NewItem>) {
    mid.receipts == before.receipts && mid.items == before.items &&
    before.products <= mid.products && before.prices <= mid.prices &&
    StopsAt(parsed.items, |stored|) && |mid.prices| == |before.prices| + |stored| &&
    Processed(mid.products, mid.prices, |before.prices|, Drafts(parsed.items), Keys(parsed.items), stored, parsed.storeCnpj)
  }

  /**
   * Everything after the parse: the item loop, then the transaction. The loop leaves the tables
   * `mid` and the items `stored`, each with its product found or created by the item's key and its
   * price recorded at the store. The receipt is stored with those items exactly when every name is
   * a string and it is storable; otherwise the tables stay as the loop left them.
   */
  method StoreParsed(db: Database, userId: string, qrCodeData: string, parsed: NfceParser.ParsedReceipt,
                     xmlText: string, parseDate: string -> Option<int>, now: int, failAt: Option<nat>)
    returns (r: Reply<Uploaded>, ghost stored: seq<ReceiptModel.NewItem>, ghost mid: Tables)
    requires db.Valid()
    requires !ReceiptModel.ReceiptExistsByQRCode(db.receipts, userId, qrCodeData)
    modifies db
    ensures db.Valid()
    ensures AfterLoop(old(db.State()), mid, parsed, stored)
    ensures r.Success? <==> NamesAreText(parsed.items) && Storable(parsed, parseDate, now, failAt)
    ensures r.Success? ==>
      r.status == 201 &&
      Describes(r.payload, NewReceiptOf(userId, qrCodeData, parsed, xmlText, parseDate, now), Drafts(parsed.items),
                mid.nextId, now) &&
      db.State() == ReceiptModel.Created(mid, NewReceiptOf(userId, qrCodeData, parsed, xmlText, parseDate, now), stored, now)
    ensures r.Failure? ==>
      r == Failure(500, "Internal Server Error", "Could not process receipt") && db.State() == mid
  {
    var items := ProcessItems(db, parsed.items, parsed.storeCnpj, now);
    stored, mid := items, db.State();
    if |items| < |parsed.items| {
      NameFailureIsServerError();
      r := UploadFailure(Message(NameNotString));
      return;
    }
    ProcessedProductsExist(db.products, db.prices, |old(db.prices)|, Drafts(parsed.items), Keys(parsed.items), items,
                           parsed.storeCnpj);
    var input := NewReceiptOf(userId, qrCodeData, parsed, xmlText, parseDate, now);
    r := SaveReceipt(db, input, Drafts(parsed.items), items, now, failAt);
  }

  /**
   * After a stored upload, the `k`-th new item row is the `k`-th item the loop left, filed under
   * the new receipt; that item carries the `k`-th parsed item's raw name and unit price and names a
   * product whose key is the item's key, and the `k`-th new price row records that product at the
   * receipt's store with that unit price.
   */
  lemma {:induction false} StoredItemsKeyed(before: Tables, mid: Tables, parsed: NfceParser.ParsedReceipt,
                                            stored: seq<ReceiptModel.NewItem>, input: ReceiptModel.NewReceipt, now: int,
                                            k: nat)
    requires AfterLoop(before, mid, parsed, stored) && input.purchaseDate.Some? && k < |stored|
    ensures ReceiptModel.Created(mid, input, stored, now).items[|mid.items| + k] ==
            ReceiptModel.ItemRow(mid.nextId, mid.nextId + 1 + k, stored[k], now)
    ensures stored[k].productNameOriginal == parsed.items[k].name && stored[k].unitPrice == parsed.items[k].unitPrice()
    ensures KeyedProduct(ReceiptModel.Created(mid, input, stored, now).products, stored[k].productId,
                         BaseKey(parsed.items[k].name))
    ensures Records(ReceiptModel.Created(mid, input, stored, now).prices[|before.prices| + k], stored[k].productId,
                    parsed.storeCnpj, parsed.items[k].unitPrice())
  {
    StoredItemProcessed(before, mid, parsed, stored, k);
    ReceiptModel.CreatedAppends(mid, input, stored, now);
    ReceiptModel.CreatedItemAt(mid, input, stored, now, k);
  }

  /** The `k`-th item the loop leaves has the `k`-th parsed item's name, unit price, product and price row. */
  lemma {:induction false} StoredItemProcessed(before: Tables, mid: Tables, parsed: NfceParser.ParsedReceipt,
                                               stored: seq<ReceiptModel.NewItem>, k: nat)
    requires AfterLoop(before, mid, parsed, stored) && k < |stored|
    ensures stored[k].productNameOriginal == parsed.items[k].name && stored[k].unitPrice == parsed.items[k].unitPrice()
    ensures KeyedProduct(mid.products, stored[k].productId, BaseKey(parsed.items[k].name))
    ensures Records(mid.prices[|before.prices| + k], stored[k].productId, parsed.storeCnpj, parsed.items[k].unitPrice())
  {
    var draft, key := Drafts(parsed.items)[k], Keys(parsed.items)[k];
    assert ProcessedItem(mid.products, mid.prices[|before.prices| + k], draft, key, stored[k], parsed.storeCnpj);
    assert draft == ItemFrom(parsed.items[k], 0) && key == BaseKey(parsed.items[k].name);
  }

  /**
   * The reply to a stored receipt describes it: the receipt row built from the input, and the
   * drafts of the parsed items in order with consecutive ids after the receipt's, whatever
   * products they were given.
   */
  lemma {:induction false} RowsDescribeDrafts(input: ReceiptModel.NewReceipt, drafts: seq<ReceiptModel.NewItem>,
                                              newItems: seq<ReceiptModel.NewItem>,
                                              created: ReceiptModel.ReceiptWithItems, now: int)
    requires input.purchaseDate.Some? && |newItems| == |drafts|
    requires forall k :: 0 <= k < |newItems| ==> newItems[k] == drafts[k].(productId := newItems[k].productId)
    requires created.receipt == ReceiptModel.ReceiptRow(input, created.receipt.id, input.purchaseDate.value, now)
    requires created.items == ReceiptModel.ItemRows(created.receipt.id, created.receipt.id + 1, newItems, now)
    ensures Describes(UploadedReply(created).payload, input, drafts, created.receipt.id, now)
  {
    var payload := UploadedReply(created).payload;
    forall k | 0 <= k < |drafts|
      ensures payload.items[k] == ItemSummary(created.receipt.id + 1 + k, drafts[k].productNameOriginal,
                                              drafts[k].quantity, drafts[k].unitPrice, drafts[k].totalPrice)
    {
      assert created.items[k] == ReceiptModel.ItemRow(created.receipt.id, created.receipt.id + 1 + k, newItems[k], now);
    }
  }

  /**
   * `uploadReceipt`. `document` is the tree of the fetched NFC-e and `xmlText` its text, stored
   * with the receipt; `failAt` makes a statement of the final transaction fail.
   */
  method UploadReceipt(db: Database, userId: Option<string>, qrCodeData: Input, document: NfceParser.XVal,
                       xmlText: string, parseDate: string -> Option<int>, now: int, failAt: Option<nat>)
    returns (r: Reply<Uploaded>, ghost stored: seq<ReceiptModel.NewItem>, ghost mid: Tables)
    requires db.Valid()
    modifies db
    ensures db.Valid()
    // Refused before any write: no user, invalid input, a duplicate, or a document that does not parse.
    ensures !Given(userId) ==> r == NotAuthenticated() && db.State() == old(db.State())
    ensures Given(userId) && ValidateUpload(qrCodeData, userId.value).Err? ==>
      r == Failure(400, "Validation Error", "Invalid input data") && db.State() == old(db.State())
    ensures Given(userId) && ValidateUpload(qrCodeData, userId.value).Ok? &&
            ReceiptModel.ReceiptExistsByQRCode(old(db.receipts), userId.value, qrCodeData.text) ==>
      r == Failure(400, "Bad Request", "Receipt already uploaded") && db.State() == old(db.State())
    ensures Given(userId) && ValidateUpload(qrCodeData, userId.value).Ok? &&
            !ReceiptModel.ReceiptExistsByQRCode(old(db.receipts), userId.value, qrCodeData.text) &&
            NfceParser.ParseNfce(document).Err? ==>
      r == Failure(400, "Bad Request", "Invalid receipt data or QR code") && db.State() == old(db.State())
    // Otherwise each item up to the first name that is not a string gets its product and its price
    // row (the tables `mid`, the items `stored`), and these writes stay when the receipt is not stored.
    ensures Given(userId) && ValidateUpload(qrCodeData, userId.value).Ok? &&
            !ReceiptModel.ReceiptExistsByQRCode(old(db.receipts), userId.value, qrCodeData.text) &&
            NfceParser.ParseNfce(document).Ok? ==>
      var parsed := NfceParser.ParseNfce(document).value;
      var input := NewReceiptOf(userId.value, qrCodeData.text, parsed, xmlText, parseDate, now);
      AfterLoop(old(db.State()), mid, parsed, stored) &&
      (r.Success? <==> NamesAreText(parsed.items) && Storable(parsed, parseDate, now, failAt)) &&
      (r.Success? ==>
         r.status == 201 && Describes(r.payload, input, Drafts(parsed.items), mid.nextId, now) &&
         db.State() == ReceiptModel.Created(mid, input, stored, now)) &&
      (r.Failure? ==>
         r == Failure(500, "Internal Server Error", "Could not process receipt") && db.State() == mid)
  {
    stored, mid := [], db.State();
    if !Given(userId) {
      r := NotAuthenticated();
      return;
    }
    var validated := ValidateUpload(qrCodeData, userId.value);
    if validated.Err? {
      r := UploadFailure(Invalid(validated.error));
      return;
    }
    if ReceiptModel.ReceiptExistsByQRCode(db.receipts, userId.value, qrCodeData.text) {
      r := Failure(400, "Bad Request", "Receipt already uploaded");
      return;
    }
    var parsed := NfceParser.ParseNfce(document);
    if parsed.Err? {
      ParseFailureIsBadRequest(document);
      r := UploadFailure(Message(parsed.error.message));
      return;
    }
    r, stored, mid := StoreParsed(db, userId.value, qrCodeData.text, parsed.value, xmlText, parseDate, now, failAt);
  }

  /**
   * After the item loop the transaction fails exactly when the date is unreadable or an injected
   * failure hits: the receipt is new and every item's product exists.
   */
  lemma {:induction false} CommitsMeansNoFailure(t: Tables, input: ReceiptModel.NewReceipt, items: seq<ReceiptModel.NewItem>,
                              failAt: Option<nat>)
    requires !ReceiptModel.ReceiptExistsByQRCode(t.receipts, input.userId, input.qrCodeData)
    requires forall k :: 0 <= k < |items| ==> HasProduct(t.products, items[k].productId)
    ensures ReceiptModel.CreateFailure(t, input, items, failAt).None? <==> Commits(input.purchaseDate, |items|, failAt)
  {
    ReceiptModel.ItemFailureNone(t.products, items, failAt, 1);
    if input.purchaseDate.Some? && failAt.Some? && failAt.value != 0 && failAt.value <= |items| {
      var j := failAt.value - 1;
      assert !ReceiptModel.Accepted(t.products, failAt, 1 + j, items[j]);
    }
  }

  // ---------------------------------------------------------------------------------------
  // listReceipts

  datatype ReceiptList = ReceiptList(receipts: seq<Receipt>, page: JsNum, limit: JsNum, total: nat, totalPages: Option<nat>)

  /**
   * `listReceipts`: 401 without a user, 400 for a query Zod refuses, else the reply to the
   * validated query.
   */
  function ListReceipts(rs: seq<Receipt>, userId: Option<string>, page: Input, limit: Input, startDate: Input,
                        endDate: Input, storeName: Input, parseDate: string -> Option<int>): (r: Reply<ReceiptList>)
    ensures !Given(userId) ==> r == NotAuthenticated()
    ensures Given(userId) && ValidateListQuery(page, limit, startDate, endDate, storeName).Err? ==>
      r == Failure(400, "Validation Error", "Invalid query parameters")
    ensures Given(userId) && ValidateListQuery(page, limit, startDate, endDate, storeName).Ok? ==>
      r == ListReply(rs, userId.value, ValidateListQuery(page, limit, startDate, endDate, storeName).value, parseDate)
  {
    if !Given(userId) then NotAuthenticated()
    else
      var q := ValidateListQuery(page, limit, startDate, endDate, storeName);
      if q.Err? then Failure(400, "Validation Error", "Invalid query parameters")
      else ListReply(rs, userId.value, q.value, parseDate)
  }

  /**
   * The reply to a validated list query: 500 when the list query fails, else the page of the
   * user's receipts with the count and `Math.ceil(total / limit)`.
   */
  function ListReply(rs: seq<Receipt>, userId: string, q: ListReceiptsQuery, parseDate: string -> Option<int>)
    : (r: Reply<ReceiptList>)
  {
    var query := ReceiptModel.ReceiptQuery(Some(q.page), Some(q.limit), q.startDate, q.endDate, q.storeName);
    var listed := ReceiptModel.ListUserReceipts(rs, userId, query, parseDate);
    if listed.Err? then Failure(500, "Internal Server Error", "Could not list receipts")
    else
      assert q.limit.Int? && q.limit.value >= 0;
      Success(200, ReceiptList(listed.value.rows, q.page, q.limit, listed.value.total,
                               TotalPages(listed.value.total, q.limit.value)))
  }

  /**
   * A list reply fails with 500 exactly when a date does not parse or the page and limit give no
   * LIMIT and OFFSET; otherwise it holds only the user's matching receipts, newest purchase first
   * and at most `limit` of them, the count of every match, and a page count that covers them:
   * page `p` has rows to show exactly when `p <= totalPages`.
   */
  lemma {:induction false} ListReplySpec(rs: seq<Receipt>, userId: string, q: ListReceiptsQuery, parseDate: string -> Option<int>)
    ensures var query := ReceiptModel.ReceiptQuery(Some(q.page), Some(q.limit), q.startDate, q.endDate, q.storeName);
            var r := ListReply(rs, userId, q, parseDate);
            (r.Failure? <==> !ReceiptModel.DatesReadable(query, parseDate) || Bounds(q.page, q.limit).None?) &&
            (r.Failure? ==> r == Failure(500, "Internal Server Error", "Could not list receipts")) &&
            (r.Success? ==>
              r.status == 200 && r.payload.limit.Int? && |r.payload.receipts| <= r.payload.limit.value &&
              r.payload.total == |Sequences.Filter(rs, ReceiptModel.MatchingReceipt(userId, query, parseDate))| &&
              Sequences.SortedBy(r.payload.receipts, ReceiptModel.NewestPurchaseFirst()) &&
              (forall i :: 0 <= i < |r.payload.receipts| ==>
                 r.payload.receipts[i] in rs && r.payload.receipts[i].userId == userId &&
                 ReceiptModel.MatchesReceiptQuery(userId, query, parseDate, r.payload.receipts[i])) &&
              (r.payload.limit.value > 0 ==>
                 forall p :: p >= 1 ==>
                   (PageHasRows(r.payload.total, r.payload.limit.value, p) <==> p <= r.payload.totalPages.value)))
  {
    var query := ReceiptModel.ReceiptQuery(Some(q.page), Some(q.limit), q.startDate, q.endDate, q.storeName);
    ReceiptModel.ListUserReceiptsSpec(rs, userId, query, parseDate);
    var r := ListReply(rs, userId, q, parseDate);
    if r.Success? && r.payload.limit.value > 0 {
      PagesCoverAll(r.payload.total, r.payload.limit.value);
    }
  }

  // ---------------------------------------------------------------------------------------
  // getReceiptDetails / removeReceipt

  /**
   * The checks both handlers make, in order: a user, a route id PostgreSQL can read as a uuid
   * (`None` otherwise, which makes the lookup fail), a receipt with that id, and the user's
   * ownership. `Success` carries the receipt with its items.
   */
  function OwnedReceipt(t: Tables, userId: Option<string>, receiptId: Option<Id>, failure: string)
    : (r: Reply<ReceiptModel.ReceiptWithItems>)
    ensures !Given(userId) ==> r == NotAuthenticated()
    ensures Given(userId) && receiptId.None? ==> r == Failure(500, "Internal Server Error", failure)
    ensures Given(userId) && receiptId.Some? && !HasReceipt(t.receipts, receiptId.value) ==>
      r == Failure(404, "Not Found", "Receipt not found")
    ensures Given(userId) && receiptId.Some? && HasReceipt(t.receipts, receiptId.value) ==>
      var found := ReceiptModel.FindReceiptWithItems(t.receipts, t.items, receiptId.value).value;
      (found.receipt.userId != userId.value ==> r == Failure(403, "Forbidden", "Access denied")) &&
      (found.receipt.userId == userId.value ==> r == Success(200, found))
  {
    if !Given(userId) then NotAuthenticated()
    else if receiptId.None? then Failure(500, "Internal Server Error", failure)
    else
      var found := ReceiptModel.FindReceiptWithItems(t.receipts, t.items, receiptId.value);
      if found.None? then Failure(404, "Not Found", "Receipt not found")
      else if found.value.receipt.userId != userId.value then Failure(403, "Forbidden", "Access denied")
      else Success(200, found.value)
  }

  /** `getReceiptDetails`: the owner's receipt with its items, oldest item first. */
  function GetReceiptDetails(t: Tables, userId: Option<string>, receiptId: Option<Id>)
    : (r: Reply<ReceiptModel.ReceiptWithItems>)
  {
    OwnedReceipt(t, userId, receiptId, "Could not get receipt details")
  }

  /** Details are shown only to the owner, and show exactly that receipt's items. */
  lemma {:induction false} DetailsOnlyForOwner(t: Tables, userId: Option<string>, receiptId: Option<Id>)
    ensures var r := GetReceiptDetails(t, userId, receiptId);
            r.Success? ==>
              Given(userId) && receiptId.Some? &&
              r.payload.receipt in t.receipts && r.payload.receipt.id == receiptId.value &&
              r.payload.receipt.userId == userId.value &&
              (forall x :: x in r.payload.items <==> x in t.items && x.receiptId == receiptId.value)
  {
    var r := GetReceiptDetails(t, userId, receiptId);
    if r.Success? {
      ReceiptModel.FindReceiptWithItemsSpec(t.receipts, t.items, receiptId.value);
    }
  }

  /**
   * `removeReceipt`: the same checks as the details; only when they pass is the receipt deleted,
   * with its items, and the reply is 200. Every refusal leaves the tables as they were.
   */
  method RemoveReceipt(db: Database, userId: Option<string>, receiptId: Option<Id>) returns (r: Reply<()>)
    requires db.Valid()
    modifies db
    ensures db.Valid()
    ensures var check := OwnedReceipt(old(db.State()), userId, receiptId, "Could not delete receipt");
            (check.Failure? ==> r == Failure(check.status, check.error, check.message) && db.State() == old(db.State())) &&
            (check.Success? ==>
               r == Success(200, ()) &&
               db.receipts == Sequences.Filter(old(db.receipts), ReceiptModel.OtherReceipt(receiptId.value)) &&
               db.items == Sequences.Filter(old(db.items), ReceiptModel.NotOfReceipt(receiptId.value)) &&
               db.products == old(db.products) && db.prices == old(db.prices) && db.nextId == old(db.nextId))
  {
    var check := OwnedReceipt(db.State(), userId, receiptId, "Could not delete receipt");
    if check.Failure? {
      return Failure(check.status, check.error, check.message);
    }
    var _ := ReceiptModel.DeleteReceipt(db, receiptId.value);
    r := Success(200, ());
  }

  /** Another user's receipt is never deleted: a 403 or 404 reply leaves every receipt in place. */
  lemma {:induction false} OthersReceiptsKept(t: Tables, userId: Option<string>, id: Id)
    requires Given(userId) && HasReceipt(t.receipts, id)
    requires ReceiptById(t.receipts, id).value.userId != userId.value
    ensures OwnedReceipt(t, userId, Some(id), "Could not delete receipt") == Failure(403, "Forbidden", "Access denied")
  {
  }
}
