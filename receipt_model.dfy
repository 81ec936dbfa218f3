/**
 * The receipt-service's data access (`models/Receipt.ts`): a receipt and its items written in one
 * transaction, a receipt looked up with its items, a user's receipts filtered and paged, a receipt
 * deleted with its items, and the duplicate check on the QR code.
 */
module ReceiptModel {
  import opened Wrappers
  import opened JsText
  import opened Sequences
  import opened SqlText
  import opened Storage
  import opened Pagination

  /**
   * What `createReceipt` is given for the receipt row. `purchaseDate` is `None` for an Invalid
   * Date, which node-postgres sends as text PostgreSQL cannot read as a timestamp.
   */
  datatype NewReceipt = NewReceipt(
    userId: string,
    qrCodeData: string,
    storeName: Option<string>,
    storeCnpj: Option<string>,
    totalAmount: Decimal,
    purchaseDate: Option<int>,
    receiptNumber: Option<string>,
    xmlData: Option<string>)

  /** What `createReceipt` is given for one item; its `receiptId` is not the one written. */
  datatype NewItem = NewItem(
    receiptId: string,
    productId: Id,
    productNameOriginal: string,
    quantity: Decimal,
    unitPrice: Decimal,
    totalPrice: Decimal)

  /** A receipt and its item rows, as `createReceipt` and `findReceiptWithItems` return them. */
  datatype ReceiptWithItems = ReceiptWithItems(receipt: Receipt, items: seq<ReceiptItem>)

  // ---------------------------------------------------------------------------------------
  // receiptExistsByQRCode

  /** `SELECT EXISTS(... WHERE user_id = $1 AND qr_code_data = $2)`. */
  function ReceiptExistsByQRCode(rs: seq<Receipt>, userId: string, qrCodeData: string): (r: bool)
    ensures r <==> exists i :: 0 <= i < |rs| && rs[i].userId == userId && rs[i].qrCodeData == qrCodeData
  {
    if rs == [] then false
    else if rs[0].userId == userId && rs[0].qrCodeData == qrCodeData then true
    else
      var r := ReceiptExistsByQRCode(rs[1..], userId, qrCodeData);
      assert r ==> exists i :: 0 <= i < |rs| && rs[i].userId == userId && rs[i].qrCodeData == qrCodeData by {
        if r {
          var i :| 0 <= i < |rs[1..]| && rs[1..][i].userId == userId && rs[1..][i].qrCodeData == qrCodeData;
          assert rs[i + 1] == rs[1..][i];
        }
      }
      assert (exists i :: 0 <= i < |rs| && rs[i].userId == userId && rs[i].qrCodeData == qrCodeData) ==> r by {
        if exists i :: 0 <= i < |rs| && rs[i].userId == userId && rs[i].qrCodeData == qrCodeData {
          var i :| 0 <= i < |rs| && rs[i].userId == userId && rs[i].qrCodeData == qrCodeData;
          assert i > 0 && rs[1..][i - 1] == rs[i];
        }
      }
      r
  }

  // ---------------------------------------------------------------------------------------
  // createReceipt

  /** The receipt row: the input's columns, a fresh id and the transaction's time. */
  function ReceiptRow(input: NewReceipt, id: Id, purchaseDate: int, now: int): (r: Receipt)
    ensures r.id == id && r.userId == input.userId && r.qrCodeData == input.qrCodeData
    ensures r.purchaseDate == purchaseDate && r.createdAt == now
  {
    Receipt(id, input.userId, input.qrCodeData, input.storeName, input.storeCnpj, input.totalAmount,
            purchaseDate, input.receiptNumber, input.xmlData, now)
  }

  /** The row of one item: it belongs to the new receipt, whatever `receiptId` the input carried. */
  function ItemRow(receiptId: Id, id: Id, item: NewItem, now: int): (r: ReceiptItem)
    ensures r.id == id && r.receiptId == receiptId && r.productId == item.productId && r.createdAt == now
  {
    ReceiptItem(id, receiptId, item.productId, item.productNameOriginal, item.quantity, item.unitPrice,
                item.totalPrice, now)
  }

  /** The rows of the items, in input order, with consecutive ids from `firstId`. */
  function ItemRows(receiptId: Id, firstId: nat, items: seq<NewItem>, now: int): (r: seq<ReceiptItem>)
    ensures |r| == |items|
    ensures forall k :: 0 <= k < |r| ==> r[k].id == firstId + k && r[k].receiptId == receiptId && r[k].createdAt == now
  {
    seq(|items|, k requires 0 <= k < |items| => ItemRow(receiptId, firstId + k, items[k], now))
  }

  /** The `k`-th row is the `k`-th item with its id, the receipt and the time filled in. */
  lemma {:induction false} ItemRowAt(receiptId: Id, firstId: nat, items: seq<NewItem>, now: int, k: nat)
    requires k < |items|
    ensures ItemRows(receiptId, firstId, items, now)[k] == ItemRow(receiptId, firstId + k, items[k], now)
    ensures ItemRows(receiptId, firstId, items, now)[k].productNameOriginal == items[k].productNameOriginal
    ensures ItemRows(receiptId, firstId, items, now)[k].unitPrice == items[k].unitPrice
  {
  }

  /** The insert of `item` as statement `k` goes through: not the failing one, and its product exists. */
  predicate Accepted(ps: seq<Product>, failAt: Option<nat>, k: nat, item: NewItem) {
    failAt != Some(k) && HasProduct(ps, item.productId)
  }

  /**
   * The error of the first item insert that fails, statement `k` being `items[0]`: an injected
   * failure (`failAt`), or a product id with no product row.
   */
  function ItemFailure(ps: seq<Product>, items: seq<NewItem>, failAt: Option<nat>, k: nat): (r: Option<DbError>)
    ensures r.Some? ==> r.value == QueryFailed || r.value == ForeignKeyViolation
    decreases |items|
  {
    if items == [] then None
    else if failAt == Some(k) then Some(QueryFailed)
    else if !HasProduct(ps, items[0].productId) then Some(ForeignKeyViolation)
    else ItemFailure(ps, items[1..], failAt, k + 1)
  }

  /** The item inserts all go through exactly when every one of them is accepted. */
  lemma {:induction false} ItemFailureNone(ps: seq<Product>, items: seq<NewItem>, failAt: Option<nat>, k: nat)
    ensures ItemFailure(ps, items, failAt, k).None? <==>
            forall j :: 0 <= j < |items| ==> Accepted(ps, failAt, k + j, items[j])
    decreases |items|
  {
    if items != [] {
      assert Accepted(ps, failAt, k + 0, items[0]) <==> failAt != Some(k) && HasProduct(ps, items[0].productId);
      ItemFailureNone(ps, items[1..], failAt, k + 1);
      if forall j :: 0 <= j < |items| ==> Accepted(ps, failAt, k + j, items[j]) {
        forall j | 0 <= j < |items[1..]| ensures Accepted(ps, failAt, k + 1 + j, items[1..][j]) {
          assert items[1..][j] == items[j + 1];
        }
      }
      if ItemFailure(ps, items, failAt, k).None? {
        forall j | 1 <= j < |items| ensures Accepted(ps, failAt, k + j, items[j]) {
          assert items[1..][j - 1] == items[j];
          assert Accepted(ps, failAt, k + 1 + (j - 1), items[1..][j - 1]);
        }
      }
    }
  }

  /** Once the first `k` inserts went through, the first failure is the one of the rest. */
  lemma {:induction false} ItemFailureAfter(ps: seq<Product>, items: seq<NewItem>, failAt: Option<nat>, base: nat, k: nat)
    requires k <= |items|
    requires forall j :: 0 <= j < k ==> Accepted(ps, failAt, base + j, items[j])
    ensures ItemFailure(ps, items, failAt, base) == ItemFailure(ps, items[k..], failAt, base + k)
    decreases k
  {
    if k > 0 {
      assert Accepted(ps, failAt, base + 0, items[0]);
      forall j | 0 <= j < k - 1 ensures Accepted(ps, failAt, base + 1 + j, items[1..][j]) {
        assert items[1..][j] == items[j + 1];
        assert Accepted(ps, failAt, base + (j + 1), items[j + 1]);
      }
      ItemFailureAfter(ps, items[1..], failAt, base + 1, k - 1);
      assert items[1..][k - 1..] == items[k..];
    }
  }

  /**
   * Why the transaction of `createReceipt` rolls back, if it does: statement 0 is the receipt
   * insert, which fails on an Invalid Date or an injected failure, and on a second receipt with
   * the same user and QR code; statement `k + 1` is the insert of `items[k]`.
   */
  function CreateFailure(t: Tables, input: NewReceipt, items: seq<NewItem>, failAt: Option<nat>): Option<DbError> {
    if failAt == Some(0) || input.purchaseDate.None? then Some(QueryFailed)
    else if ReceiptExistsByQRCode(t.receipts, input.userId, input.qrCodeData) then Some(UniqueViolation)
    else ItemFailure(t.products, items, failAt, 1)
  }

  /** The tables after a committed `createReceipt`: one receipt row and one row per item. */
  function Created(t: Tables, input: NewReceipt, items: seq<NewItem>, now: int): Tables
    requires input.purchaseDate.Some?
  {
    Tables(t.products, t.prices,
           t.receipts + [ReceiptRow(input, t.nextId, input.purchaseDate.value, now)],
           t.items + ItemRows(t.nextId, t.nextId + 1, items, now),
           t.nextId + 1 + |items|)
  }

  lemma {:induction false} InsertReceiptKeepsConsistent(t: Tables, rc: Receipt)
    requires t.Consistent() && rc.id == t.nextId
    requires !ReceiptExistsByQRCode(t.receipts, rc.userId, rc.qrCodeData)
    ensures Tables(t.products, t.prices, t.receipts + [rc], t.items, t.nextId + 1).Consistent()
  {
    forall i | 0 <= i < |t.items| ensures HasReceipt(t.receipts + [rc], t.items[i].receiptId) {
      HasReceiptAppend(t.receipts, rc, t.items[i].receiptId);
    }
  }

  lemma {:induction false} InsertItemKeepsConsistent(t: Tables, row: ReceiptItem)
    requires t.Consistent() && row.id == t.nextId
    requires HasReceipt(t.receipts, row.receiptId) && HasProduct(t.products, row.productId)
    ensures Tables(t.products, t.prices, t.receipts, t.items + [row], t.nextId + 1).Consistent()
  {
  }

  /**
   * One `INSERT INTO receipt_items ... RETURNING *` of the transaction: the row gets the next id
   * and the receipt's id, and the foreign keys hold because the receipt and the product exist.
   */
  method InsertItem(db: Database, receiptId: Id, item: NewItem, now: int) returns (row: ReceiptItem)
    requires db.Valid() && HasReceipt(db.receipts, receiptId) && HasProduct(db.products, item.productId)
    modifies db
    ensures db.Valid()
    ensures row == ItemRow(receiptId, old(db.nextId), item, now)
    ensures db.State() == Tables(old(db.products), old(db.prices), old(db.receipts), old(db.items) + [row], old(db.nextId) + 1)
  {
    row := ItemRow(receiptId, db.nextId, item, now);
    InsertItemKeepsConsistent(db.State(), row);
    db.items := db.items + [row];
    db.nextId := db.nextId + 1;
  }

  /**
   * The item loop of `createReceipt`: one insert per item, in order, each with the receipt's id.
   * When every insert goes through, the rows come back and are appended; otherwise the error of
   * the first failing insert comes back and the caller rolls back.
   */
  method InsertItems(db: Database, receiptId: Id, items: seq<NewItem>, now: int, failAt: Option<nat>)
    returns (r: Result<seq<ReceiptItem>, DbError>)
    requires db.Valid() && HasReceipt(db.receipts, receiptId)
    modifies db
    ensures ItemFailure(old(db.products), items, failAt, 1).Some? ==>
      r == Err(ItemFailure(old(db.products), items, failAt, 1).value)
    ensures ItemFailure(old(db.products), items, failAt, 1).None? ==>
      r == Ok(ItemRows(receiptId, old(db.nextId), items, now)) && db.Valid() &&
      db.State() == Tables(old(db.products), old(db.prices), old(db.receipts), old(db.items) + r.value,
                           old(db.nextId) + |items|)
  {
    var start := db.State();
    var inserted: seq<ReceiptItem> := [];
    var k := 0;
    while k < |items|
      invariant 0 <= k <= |items|
      invariant |inserted| == k
      invariant forall j :: 0 <= j < k ==> inserted[j] == ItemRow(receiptId, start.nextId + j, items[j], now)
      invariant db.State() == Tables(start.products, start.prices, start.receipts, start.items + inserted, start.nextId + k)
      invariant db.Valid()
      invariant forall j :: 0 <= j < k ==> Accepted(start.products, failAt, 1 + j, items[j])
    {
      if failAt == Some(k + 1) || !HasProduct(db.products, items[k].productId) {
        ItemFailureAfter(start.products, items, failAt, 1, k);
        return Err(if failAt == Some(k + 1) then QueryFailed else ForeignKeyViolation);
      }
      var row := InsertItem(db, receiptId, items[k], now);
      inserted := inserted + [row];
      k := k + 1;
    }
    assert inserted == ItemRows(receiptId, start.nextId, items, now);
    ItemFailureNone(start.products, items, failAt, 1);
    r := Ok(inserted);
  }

  /**
   * `createReceipt`: BEGIN, the receipt insert, one insert per item with the new receipt's id,
   * COMMIT; when a statement fails, ROLLBACK leaves every table as it was and the error is
   * passed on. `failAt` stands for a statement failing for a reason the model does not track.
   */
  method CreateReceipt(db: Database, input: NewReceipt, items: seq<NewItem>, now: int, failAt: Option<nat>)
    returns (r: Result<ReceiptWithItems, DbError>)
    requires db.Valid()
    modifies db
    ensures db.Valid()
    ensures CreateFailure(old(db.State()), input, items, failAt).Some? ==>
      r == Err(CreateFailure(old(db.State()), input, items, failAt).value) && db.State() == old(db.State())
    ensures CreateFailure(old(db.State()), input, items, failAt).None? ==>
      input.purchaseDate.Some? &&
      r == Ok(ReceiptWithItems(ReceiptRow(input, old(db.nextId), input.purchaseDate.value, now),
                               ItemRows(old(db.nextId), old(db.nextId) + 1, items, now))) &&
      db.State() == Created(old(db.State()), input, items, now)
  {
    var snapshot := db.State();
    if failAt == Some(0) || input.purchaseDate.None? {
      db.Restore(snapshot);
      return Err(QueryFailed);
    }
    if ReceiptExistsByQRCode(db.receipts, input.userId, input.qrCodeData) {
      db.Restore(snapshot);
      return Err(UniqueViolation);
    }
    var receipt := ReceiptRow(input, db.nextId, input.purchaseDate.value, now);
    InsertReceiptKeepsConsistent(db.State(), receipt);
    db.receipts := db.receipts + [receipt];
    db.nextId := db.nextId + 1;
    assert db.receipts[|db.receipts| - 1] == receipt;
    var inserted := InsertItems(db, receipt.id, items, now, failAt);
    if inserted.Err? {
      db.Restore(snapshot);
      return Err(inserted.error);
    }
    r := Ok(ReceiptWithItems(receipt, inserted.value));
  }

  // ---------------------------------------------------------------------------------------
  // findReceiptById / findReceiptWithItems

  function OfReceipt(id: Id): ReceiptItem -> bool {
    (item: ReceiptItem) => item.receiptId == id
  }

  /** ORDER BY created_at. */
  function ByCreatedAt(): (ReceiptItem, ReceiptItem) -> bool {
    (a: ReceiptItem, b: ReceiptItem) => a.createdAt <= b.createdAt
  }

  lemma {:induction false} ByCreatedAtIsPreorder()
    ensures IsTotalPreorder(ByCreatedAt())
  {
  }

  /** `findReceiptWithItems`: null when the receipt is missing, else the row and its items. */
  function FindReceiptWithItems(rs: seq<Receipt>, items: seq<ReceiptItem>, id: Id): (r: Option<ReceiptWithItems>)
    ensures r.None? <==> !HasReceipt(rs, id)
    ensures r.Some? ==> r.value.receipt in rs && r.value.receipt.id == id
  {
    var receipt := ReceiptById(rs, id);
    if receipt.None? then None
    else Some(ReceiptWithItems(receipt.value, SortBy(Filter(items, OfReceipt(id)), ByCreatedAt())))
  }

  /**
   * The items found are exactly the item rows of the receipt, each as often as in the table,
   * oldest first.
   */
  lemma {:induction false} FindReceiptWithItemsSpec(rs: seq<Receipt>, items: seq<ReceiptItem>, id: Id)
    requires HasReceipt(rs, id)
    ensures var found := FindReceiptWithItems(rs, items, id).value.items;
            multiset(found) == multiset(Filter(items, OfReceipt(id))) &&
            (forall x :: x in found <==> x in items && x.receiptId == id) &&
            SortedBy(found, ByCreatedAt())
  {
    var mine := Filter(items, OfReceipt(id));
    var found := SortBy(mine, ByCreatedAt());
    ByCreatedAtIsPreorder();
    SortBySorted(mine, ByCreatedAt());
    forall x ensures x in found <==> x in items && x.receiptId == id {
      assert x in found <==> x in multiset(found);
      assert x in mine <==> x in multiset(mine);
    }
  }

  /** A row appended with an id no other row has is the one found by that id. */
  lemma {:induction false} FreshReceiptFound(rs: seq<Receipt>, row: Receipt, next: nat)
    requires forall i :: 0 <= i < |rs| ==> rs[i].id < next
    requires row.id == next
    ensures ReceiptById(rs + [row], next) == Some(row)
  {
    var all := rs + [row];
    assert all[|all| - 1] == row;
  }

  /** No item of a consistent database refers to the id the next insert will get. */
  lemma {:induction false} NoItemOfFreshId(t: Tables)
    requires t.Consistent()
    ensures Filter(t.items, OfReceipt(t.nextId)) == []
  {
    forall i | 0 <= i < |t.items| ensures !OfReceipt(t.nextId)(t.items[i]) {
      var j :| 0 <= j < |t.receipts| && t.receipts[j].id == t.items[i].receiptId;
    }
    FilterNone(t.items, OfReceipt(t.nextId));
  }

  /**
   * Appending a receipt with a fresh id and item rows of that receipt, all written at one time:
   * the lookup finds that receipt with exactly those rows, in the order they were appended.
   */
  lemma {:induction false} FindAfterAppend(rs: seq<Receipt>, items: seq<ReceiptItem>, row: Receipt, newRows: seq<ReceiptItem>)
    requires forall i :: 0 <= i < |rs| ==> rs[i].id < row.id
    requires Filter(items, OfReceipt(row.id)) == []
    requires forall i :: 0 <= i < |newRows| ==> newRows[i].receiptId == row.id && newRows[i].createdAt == row.createdAt
    ensures FindReceiptWithItems(rs + [row], items + newRows, row.id) == Some(ReceiptWithItems(row, newRows))
  {
    FreshReceiptFound(rs, row, row.id);
    FilterAppend(items, newRows, OfReceipt(row.id));
    FilterAll(newRows, OfReceipt(row.id));
    assert Filter(items + newRows, OfReceipt(row.id)) == newRows;
    SortByTied(newRows, ByCreatedAt());
  }

  /** A receipt just created is found with exactly the item rows it was created with, in input order. */
  lemma {:induction false} CreateThenFind(t: Tables, input: NewReceipt, items: seq<NewItem>, now: int)
    requires t.Consistent() && input.purchaseDate.Some?
    ensures var after := Created(t, input, items, now);
            FindReceiptWithItems(after.receipts, after.items, t.nextId) ==
            Some(ReceiptWithItems(ReceiptRow(input, t.nextId, input.purchaseDate.value, now),
                                  ItemRows(t.nextId, t.nextId + 1, items, now)))
  {
    var row := ReceiptRow(input, t.nextId, input.purchaseDate.value, now);
    var newRows := ItemRows(t.nextId, t.nextId + 1, items, now);
    NoItemOfFreshId(t);
    ReceiptIdsBelowNext(t);
    CreatedAppends(t, input, items, now);
    FindAfterAppend(t.receipts, t.items, row, newRows);
  }

  lemma {:induction false} ReceiptIdsBelowNext(t: Tables)
    requires t.Consistent()
    ensures forall i :: 0 <= i < |t.receipts| ==> t.receipts[i].id < t.nextId
  {
  }

  /** A commit appends the receipt row and the item rows. */
  lemma {:induction false} CreatedAppends(t: Tables, input: NewReceipt, items: seq<NewItem>, now: int)
    requires input.purchaseDate.Some?
    ensures Created(t, input, items, now).receipts == t.receipts + [ReceiptRow(input, t.nextId, input.purchaseDate.value, now)]
    ensures Created(t, input, items, now).items == t.items + ItemRows(t.nextId, t.nextId + 1, items, now)
    ensures Created(t, input, items, now).products == t.products && Created(t, input, items, now).prices == t.prices
  {
  }

  /** The `k`-th new item row of a commit is the `k`-th item, filed under the new receipt. */
  lemma {:induction false} CreatedItemAt(t: Tables, input: NewReceipt, items: seq<NewItem>, now: int, k: nat)
    requires input.purchaseDate.Some? && k < |items|
    ensures |Created(t, input, items, now).items| == |t.items| + |items|
    ensures Created(t, input, items, now).items[|t.items| + k] == ItemRow(t.nextId, t.nextId + 1 + k, items[k], now)
  {
    var rows := ItemRows(t.nextId, t.nextId + 1, items, now);
    assert (t.items + rows)[|t.items| + k] == rows[k];
    ItemRowAt(t.nextId, t.nextId + 1, items, now, k);
  }

  /** After a commit, the duplicate check sees the new receipt. */
  lemma {:induction false} CreateThenExists(t: Tables, input: NewReceipt, items: seq<NewItem>, now: int)
    requires input.purchaseDate.Some?
    ensures ReceiptExistsByQRCode(Created(t, input, items, now).receipts, input.userId, input.qrCodeData)
  {
    var rs := Created(t, input, items, now).receipts;
    assert rs[|rs| - 1].userId == input.userId && rs[|rs| - 1].qrCodeData == input.qrCodeData;
  }

  /** Creating the same QR code twice for one user: the second transaction fails and changes nothing. */
  lemma {:induction false} SecondUploadRefused(t: Tables, input: NewReceipt, items: seq<NewItem>, more: seq<NewItem>, now: int)
    requires input.purchaseDate.Some?
    ensures CreateFailure(Created(t, input, items, now), input, more, None) == Some(UniqueViolation)
  {
    CreateThenExists(t, input, items, now);
  }

  // ---------------------------------------------------------------------------------------
  // listUserReceipts

  /** The options of `listUserReceipts`; an absent page is 1 and an absent limit is 10. */
  datatype ReceiptQuery = ReceiptQuery(
    page: Option<JsNum>,
    limit: Option<JsNum>,
    startDate: Option<string>,
    endDate: Option<string>,
    storeName: Option<string>)

  /** One condition of the WHERE clause. The dates stay text: PostgreSQL reads them. */
  datatype ReceiptCondition =
    | OfUser(userId: string)
    | PurchasedFrom(start: string)
    | PurchasedUntil(end: string)
    | StoreLike(pattern: string)

  /**
   * Whether a row satisfies a condition, `parseDate` being how PostgreSQL reads a timestamp
   * text; a NULL store name matches no pattern.
   */
  predicate Holds(c: ReceiptCondition, r: Receipt, parseDate: string -> Option<int>) {
    match c
    case OfUser(u) => r.userId == u
    case PurchasedFrom(s) => parseDate(s).Some? && r.purchaseDate >= parseDate(s).value
    case PurchasedUntil(s) => parseDate(s).Some? && r.purchaseDate <= parseDate(s).value
    case StoreLike(p) => r.storeName.Some? && ILike(r.storeName.value, p)
  }

  predicate AllHold(cs: seq<ReceiptCondition>, r: Receipt, parseDate: string -> Option<int>) {
    forall i :: 0 <= i < |cs| ==> Holds(cs[i], r, parseDate)
  }

  /** A condition PostgreSQL can evaluate: its date parameter reads as a timestamp. */
  predicate Readable(c: ReceiptCondition, parseDate: string -> Option<int>) {
    match c
    case PurchasedFrom(s) => parseDate(s).Some?
    case PurchasedUntil(s) => parseDate(s).Some?
    case _ => true
  }

  predicate AllReadable(cs: seq<ReceiptCondition>, parseDate: string -> Option<int>) {
    forall i :: 0 <= i < |cs| ==> Readable(cs[i], parseDate)
  }

  /** Every date filter given is one PostgreSQL can read. */
  predicate DatesReadable(q: ReceiptQuery, parseDate: string -> Option<int>) {
    (Given(q.startDate) ==> parseDate(q.startDate.value).Some?) &&
    (Given(q.endDate) ==> parseDate(q.endDate.value).Some?)
  }

  /** The start-date filter, when given: purchased at or after it. */
  predicate FromStart(q: ReceiptQuery, parseDate: string -> Option<int>, r: Receipt) {
    Given(q.startDate) ==>
      parseDate(q.startDate.value).Some? && r.purchaseDate >= parseDate(q.startDate.value).value
  }

  /** The end-date filter, when given: purchased at or before it. */
  predicate UntilEnd(q: ReceiptQuery, parseDate: string -> Option<int>, r: Receipt) {
    Given(q.endDate) ==>
      parseDate(q.endDate.value).Some? && r.purchaseDate <= parseDate(q.endDate.value).value
  }

  /** The store filter, when given: a store name containing the text, case-insensitively. */
  predicate AtNamedStore(q: ReceiptQuery, r: Receipt) {
    Given(q.storeName) ==> r.storeName.Some? && ILike(r.storeName.value, Containing(q.storeName.value))
  }

  /**
   * What the filters ask of a row: the user's own receipt, purchased within the given dates, at a
   * store whose name contains the given text.
   */
  predicate MatchesReceiptQuery(userId: string, q: ReceiptQuery, parseDate: string -> Option<int>, r: Receipt) {
    r.userId == userId && FromStart(q, parseDate, r) && UntilEnd(q, parseDate, r) && AtNamedStore(q, r)
  }

  lemma {:induction false} AllHoldAppend(cs: seq<ReceiptCondition>, c: ReceiptCondition, r: Receipt, parseDate: string -> Option<int>)
    ensures AllHold(cs + [c], r, parseDate) <==> AllHold(cs, r, parseDate) && Holds(c, r, parseDate)
  {
    if AllHold(cs, r, parseDate) && Holds(c, r, parseDate) {
      forall i | 0 <= i < |cs + [c]| ensures Holds((cs + [c])[i], r, parseDate) {
        if i < |cs| {
          assert (cs + [c])[i] == cs[i];
        }
      }
    }
    if AllHold(cs + [c], r, parseDate) {
      forall i | 0 <= i < |cs| ensures Holds(cs[i], r, parseDate) {
        assert (cs + [c])[i] == cs[i];
      }
      assert (cs + [c])[|cs|] == c;
    }
  }

  lemma {:induction false} AllReadableAppend(cs: seq<ReceiptCondition>, c: ReceiptCondition, parseDate: string -> Option<int>)
    ensures AllReadable(cs + [c], parseDate) <==> AllReadable(cs, parseDate) && Readable(c, parseDate)
  {
    if AllReadable(cs, parseDate) && Readable(c, parseDate) {
      forall i | 0 <= i < |cs + [c]| ensures Readable((cs + [c])[i], parseDate) {
        if i < |cs| {
          assert (cs + [c])[i] == cs[i];
        }
      }
    }
    if AllReadable(cs + [c], parseDate) {
      forall i | 0 <= i < |cs| ensures Readable(cs[i], parseDate) {
        assert (cs + [c])[i] == cs[i];
      }
      assert (cs + [c])[|cs|] == c;
    }
  }

  /**
   * The WHERE clause builder: the user condition, then one condition per truthy filter, with the
   * parameter counter one past the parameters pushed. A row passes the clause exactly when it
   * matches the query, and the clause can be evaluated exactly when the given dates are readable.
   */
  method BuildReceiptConditions(userId: string, q: ReceiptQuery)
    returns (conditions: seq<ReceiptCondition>, paramCount: nat)
    ensures |conditions| >= 1 && conditions[0] == OfUser(userId) && paramCount == |conditions| + 1
    ensures forall parseDate, r :: AllHold(conditions, r, parseDate) <==> MatchesReceiptQuery(userId, q, parseDate, r)
    ensures forall parseDate :: AllReadable(conditions, parseDate) <==> DatesReadable(q, parseDate)
  {
    conditions := [OfUser(userId)];
    paramCount := 2;
    forall parseDate, r ensures AllHold(conditions, r, parseDate) <==> r.userId == userId {
      assert conditions[0] == OfUser(userId) && |conditions| == 1;
    }
    forall parseDate ensures AllReadable(conditions, parseDate) {
      assert Readable(conditions[0], parseDate);
    }
    if Given(q.startDate) {
      var c := PurchasedFrom(q.startDate.value);
      forall parseDate, r ensures AllHold(conditions + [c], r, parseDate) <==> AllHold(conditions, r, parseDate) && Holds(c, r, parseDate) {
        AllHoldAppend(conditions, c, r, parseDate);
      }
      forall parseDate ensures AllReadable(conditions + [c], parseDate) <==> AllReadable(conditions, parseDate) && Readable(c, parseDate) {
        AllReadableAppend(conditions, c, parseDate);
      }
      conditions := conditions + [c];
      paramCount := paramCount + 1;
    }
    assert forall parseDate, r :: AllHold(conditions, r, parseDate) <==> r.userId == userId && FromStart(q, parseDate, r);
    assert forall parseDate :: AllReadable(conditions, parseDate) <==>
      (Given(q.startDate) ==> parseDate(q.startDate.value).Some?);
    if Given(q.endDate) {
      var c := PurchasedUntil(q.endDate.value);
      forall parseDate, r ensures AllHold(conditions + [c], r, parseDate) <==> AllHold(conditions, r, parseDate) && Holds(c, r, parseDate) {
        AllHoldAppend(conditions, c, r, parseDate);
      }
      forall parseDate ensures AllReadable(conditions + [c], parseDate) <==> AllReadable(conditions, parseDate) && Readable(c, parseDate) {
        AllReadableAppend(conditions, c, parseDate);
      }
      conditions := conditions + [c];
      paramCount := paramCount + 1;
    }
    assert forall parseDate, r :: AllHold(conditions, r, parseDate) <==>
      r.userId == userId && FromStart(q, parseDate, r) && UntilEnd(q, parseDate, r);
    assert forall parseDate :: AllReadable(conditions, parseDate) <==> DatesReadable(q, parseDate);
    if Given(q.storeName) {
      var c := StoreLike(Containing(q.storeName.value));
      forall parseDate, r ensures AllHold(conditions + [c], r, parseDate) <==> AllHold(conditions, r, parseDate) && Holds(c, r, parseDate) {
        AllHoldAppend(conditions, c, r, parseDate);
      }
      forall parseDate ensures AllReadable(conditions + [c], parseDate) <==> AllReadable(conditions, parseDate) {
        AllReadableAppend(conditions, c, parseDate);
      }
      conditions := conditions + [c];
      paramCount := paramCount + 1;
    }
  }

  function MatchingReceipt(userId: string, q: ReceiptQuery, parseDate: string -> Option<int>): Receipt -> bool {
    (r: Receipt) => MatchesReceiptQuery(userId, q, parseDate, r)
  }

  /** ORDER BY purchase_date DESC. */
  function NewestPurchaseFirst(): (Receipt, Receipt) -> bool {
    (a: Receipt, b: Receipt) => a.purchaseDate >= b.purchaseDate
  }

  lemma {:induction false} NewestPurchaseFirstIsPreorder()
    ensures IsTotalPreorder(NewestPurchaseFirst())
  {
  }

  /**
   * `listUserReceipts`: the count of matching rows and the page of them, newest purchase first;
   * the query fails when a date filter cannot be read or the limit or offset is NaN or negative.
   */
  function ListUserReceipts(rs: seq<Receipt>, userId: string, q: ReceiptQuery, parseDate: string -> Option<int>)
    : Result<Page<Receipt>, DbError>
  {
    var bounds := Bounds(q.page.GetOr(Int(1)), q.limit.GetOr(Int(10)));
    if !DatesReadable(q, parseDate) || bounds.None? then Err(QueryFailed)
    else
      var matching := Filter(rs, MatchingReceipt(userId, q, parseDate));
      Ok(Page(Window(SortBy(matching, NewestPurchaseFirst()), bounds.value.0, bounds.value.1), |matching|))
  }

  /**
   * What a page of `listUserReceipts` is: only the user's receipts that pass the filters, newest
   * purchase first, at most `limit` of them; the total counts every match.
   */
  lemma {:induction false} ListUserReceiptsSpec(rs: seq<Receipt>, userId: string, q: ReceiptQuery, parseDate: string -> Option<int>)
    ensures var bounds := Bounds(q.page.GetOr(Int(1)), q.limit.GetOr(Int(10)));
            ListUserReceipts(rs, userId, q, parseDate).Err? <==> !DatesReadable(q, parseDate) || bounds.None?
    ensures var r := ListUserReceipts(rs, userId, q, parseDate);
            r.Ok? ==>
              r.value.total == |Filter(rs, MatchingReceipt(userId, q, parseDate))| &&
              |r.value.rows| <= Bounds(q.page.GetOr(Int(1)), q.limit.GetOr(Int(10))).value.1 &&
              SortedBy(r.value.rows, NewestPurchaseFirst()) &&
              (forall i :: 0 <= i < |r.value.rows| ==>
                 r.value.rows[i] in rs && r.value.rows[i].userId == userId &&
                 MatchesReceiptQuery(userId, q, parseDate, r.value.rows[i]))
  {
    var bounds := Bounds(q.page.GetOr(Int(1)), q.limit.GetOr(Int(10)));
    if DatesReadable(q, parseDate) && bounds.Some? {
      var matching := Filter(rs, MatchingReceipt(userId, q, parseDate));
      var sorted := SortBy(matching, NewestPurchaseFirst());
      NewestPurchaseFirstIsPreorder();
      SortBySorted(matching, NewestPurchaseFirst());
      var (offset, limit) := bounds.value;
      var rows := Window(sorted, offset, limit);
      WindowSpec(sorted, offset, limit);
      forall i | 0 <= i < |rows|
        ensures rows[i] in rs && MatchesReceiptQuery(userId, q, parseDate, rows[i])
      {
        assert rows[i] == sorted[offset + i];
        assert sorted[offset + i] in multiset(matching);
      }
    }
  }

  /**
   * Which rows a page of `listUserReceipts` holds: the ordered matches from row `offset`, which
   * is `(page - 1) * limit`, up to `limit` of them, and none past the last match.
   */
  lemma {:induction false} ListUserReceiptsWindow(rs: seq<Receipt>, userId: string, q: ReceiptQuery,
                                                 parseDate: string -> Option<int>)
    requires ListUserReceipts(rs, userId, q, parseDate).Ok?
    ensures var r := ListUserReceipts(rs, userId, q, parseDate);
            var b := Bounds(q.page.GetOr(Int(1)), q.limit.GetOr(Int(10))).value;
            var sorted := SortBy(Filter(rs, MatchingReceipt(userId, q, parseDate)), NewestPurchaseFirst());
            |r.value.rows| == (if b.0 >= r.value.total then 0
                               else if b.0 + b.1 >= r.value.total then r.value.total - b.0 else b.1) &&
            forall i :: 0 <= i < |r.value.rows| ==> r.value.rows[i] == sorted[b.0 + i]
  {
    var b := Bounds(q.page.GetOr(Int(1)), q.limit.GetOr(Int(10))).value;
    WindowSpec(SortBy(Filter(rs, MatchingReceipt(userId, q, parseDate)), NewestPurchaseFirst()), b.0, b.1);
  }

  /** The clause the builder produces selects the same rows as the query's filters. */
  method ListUserReceiptsViaConditions(rs: seq<Receipt>, userId: string, q: ReceiptQuery, parseDate: string -> Option<int>)
    returns (r: Result<Page<Receipt>, DbError>)
    ensures r == ListUserReceipts(rs, userId, q, parseDate)
  {
    var conditions, paramCount := BuildReceiptConditions(userId, q);
    var bounds := Bounds(q.page.GetOr(Int(1)), q.limit.GetOr(Int(10)));
    if !AllReadable(conditions, parseDate) || bounds.None? {
      return Err(QueryFailed);
    }
    var passing := Filter(rs, Passing(conditions, parseDate));
    assert passing == Filter(rs, MatchingReceipt(userId, q, parseDate)) by {
      SameFilter(rs, Passing(conditions, parseDate), MatchingReceipt(userId, q, parseDate));
    }
    r := Ok(Page(Window(SortBy(passing, NewestPurchaseFirst()), bounds.value.0, bounds.value.1), |passing|));
  }

  function Passing(cs: seq<ReceiptCondition>, parseDate: string -> Option<int>): Receipt -> bool {
    (r: Receipt) => AllHold(cs, r, parseDate)
  }

  lemma {:induction false} SameFilter(s: seq<Receipt>, p: Receipt -> bool, p': Receipt -> bool)
    requires forall x :: p(x) == p'(x)
    ensures Filter(s, p) == Filter(s, p')
    decreases |s|
  {
    if s != [] {
      SameFilter(s[1..], p, p');
    }
  }

  // ---------------------------------------------------------------------------------------
  // deleteReceipt

  function OtherReceipt(id: Id): Receipt -> bool {
    (r: Receipt) => r.id != id
  }

  function NotOfReceipt(id: Id): ReceiptItem -> bool {
    (item: ReceiptItem) => item.receiptId != id
  }

  lemma {:induction false} DeleteReceiptKeepsConsistent(t: Tables, id: Id)
    requires t.Consistent()
    ensures Tables(t.products, t.prices, Filter(t.receipts, OtherReceipt(id)), Filter(t.items, NotOfReceipt(id)),
                   t.nextId).Consistent()
  {
    RemainingReceiptsKeyed(t.receipts, t.nextId, id);
    RemainingItemsLinked(t.items, t.receipts, t.products, t.nextId, id);
  }

  /** Removing a receipt keeps the keys of the others unique and below the next id. */
  lemma {:induction false} RemainingReceiptsKeyed(rs: seq<Receipt>, next: nat, id: Id)
    requires ReceiptsKeyed(rs, next)
    ensures ReceiptsKeyed(Filter(rs, OtherReceipt(id)), next)
  {
    var kept := Filter(rs, OtherReceipt(id));
    FilterPairwise(rs, OtherReceipt(id),
      (a: Receipt, b: Receipt) => a.id != b.id && (a.userId != b.userId || a.qrCodeData != b.qrCodeData));
    forall i | 0 <= i < |kept| ensures kept[i].id < next {
      assert kept[i] in rs;
    }
  }

  /** Removing a receipt together with its items leaves every other item pointing at existing rows. */
  lemma {:induction false} RemainingItemsLinked(items: seq<ReceiptItem>, rs: seq<Receipt>, ps: seq<Product>,
                                               next: nat, id: Id)
    requires ItemsReferenceRows(items, rs, ps, next)
    ensures ItemsReferenceRows(Filter(items, NotOfReceipt(id)), Filter(rs, OtherReceipt(id)), ps, next)
  {
    var keptItems := Filter(items, NotOfReceipt(id));
    var keptReceipts := Filter(rs, OtherReceipt(id));
    forall i | 0 <= i < |keptItems|
      ensures keptItems[i].id < next && HasReceipt(keptReceipts, keptItems[i].receiptId) &&
              HasProduct(ps, keptItems[i].productId)
    {
      assert keptItems[i] in items;
      var j :| 0 <= j < |items| && items[j] == keptItems[i];
      var k :| 0 <= k < |rs| && rs[k].id == keptItems[i].receiptId;
      assert rs[k] in keptReceipts;
      var m :| 0 <= m < |keptReceipts| && keptReceipts[m] == rs[k];
    }
  }

  /**
   * `deleteReceipt`: removes the receipt and, by the cascade, its items; true exactly when a row
   * was deleted. Every other row stays, in order.
   */
  method DeleteReceipt(db: Database, id: Id) returns (deleted: bool)
    requires db.Valid()
    modifies db
    ensures db.Valid()
    ensures deleted <==> HasReceipt(old(db.receipts), id)
    ensures db.receipts == Filter(old(db.receipts), OtherReceipt(id)) && !HasReceipt(db.receipts, id)
    ensures db.items == Filter(old(db.items), NotOfReceipt(id))
    ensures db.products == old(db.products) && db.prices == old(db.prices) && db.nextId == old(db.nextId)
  {
    deleted := HasReceipt(db.receipts, id);
    DeleteReceiptKeepsConsistent(db.State(), id);
    db.receipts := Filter(db.receipts, OtherReceipt(id));
    db.items := Filter(db.items, NotOfReceipt(id));
  }

  /** After a delete, the receipt is gone and none of the remaining items refers to it. */
  lemma {:induction false} DeleteThenFindNothing(t: Tables, id: Id)
    ensures FindReceiptWithItems(Filter(t.receipts, OtherReceipt(id)), Filter(t.items, NotOfReceipt(id)), id).None?
    ensures forall x :: x in Filter(t.items, NotOfReceipt(id)) ==> x.receiptId != id
  {
  }
}
