/**
 * The price history of the catalogue (products-service `services/priceService.ts`): appending an
 * observation, the filtered and newest-first history, the newest price at one store, the
 * comparison of every store's newest price, the best of them, and whether statistics exist.
 *
 * PostgreSQL returns NUMERIC values as text, so a price read back is never a falsy JavaScript
 * value: `price || null` is null only when no row came back.
 */
module PriceService {
  import opened Wrappers
  import opened JsText
  import opened Sequences
  import opened Storage

  /**
   * `registerPrice`: appends one observation of the product at the store, recorded at `now`; a
   * product id that is not in the catalogue is a foreign key violation and changes nothing.
   */
  method RegisterPrice(db: Database, productId: Id, storeCnpj: string, price: Decimal, now: int)
    returns (r: Result<PriceObservation, DbError>)
    requires db.Valid()
    modifies db
    ensures db.Valid()
    ensures HasProduct(old(db.products), productId) ==>
      r == Ok(PriceObservation(old(db.nextId), productId, storeCnpj, price, now)) &&
      db.prices == old(db.prices) + [r.value] &&
      db.products == old(db.products) && db.receipts == old(db.receipts) && db.items == old(db.items) &&
      db.nextId == old(db.nextId) + 1
    ensures !HasProduct(old(db.products), productId) ==>
      r == Err(ForeignKeyViolation) && db.State() == old(db.State())
  {
    if !HasProduct(db.products, productId) {
      return Err(ForeignKeyViolation);
    }
    var row := PriceObservation(db.nextId, productId, storeCnpj, price, now);
    db.prices := db.prices + [row];
    db.nextId := db.nextId + 1;
    r := Ok(row);
  }

  /** Appending keeps every observation that was there, in place. */
  lemma {:induction false} RegisterKeepsHistory(before: seq<PriceObservation>, row: PriceObservation, productId: Id)
    ensures Filter(before + [row], OfProduct(productId)) ==
      Filter(before, OfProduct(productId)) + (if row.productId == productId then [row] else [])
  {
    FilterAppend(before, [row], OfProduct(productId));
  }

  // ---------------------------------------------------------------------------------------
  // Selections

  function OfProduct(productId: Id): PriceObservation -> bool {
    (o: PriceObservation) => o.productId == productId
  }

  function AtStore(storeCnpj: string): PriceObservation -> bool {
    (o: PriceObservation) => o.storeCnpj == storeCnpj
  }

  /** `WHERE product_id = $1 [AND store_cnpj = $2]`: the store filter applies when `storeCnpj` is truthy. */
  function HistoryFilter(productId: Id, storeCnpj: Option<string>): PriceObservation -> bool {
    if storeCnpj.Some? && storeCnpj.value != "" then OfProductAtStore(productId, storeCnpj.value) else OfProduct(productId)
  }

  /** ORDER BY recorded_at DESC. */
  function NewestFirst(): (PriceObservation, PriceObservation) -> bool {
    (a: PriceObservation, b: PriceObservation) => a.recordedAt >= b.recordedAt
  }

  lemma {:induction false} NewestFirstIsPreorder()
    ensures IsTotalPreorder(NewestFirst())
  {
  }

  /** The first `n` rows, all of them when there are fewer. */
  function Take<T>(s: seq<T>, n: nat): (r: seq<T>)
    ensures |r| == if n < |s| then n else |s|
    ensures r == s[..|r|]
  {
    if n < |s| then s[..n] else s
  }

  /**
   * `getPriceHistory`: the product's observations (at the store, when one is given), newest
   * first, at most `limit` of them (default 30); a NaN or negative limit, or one beyond `bigint`,
   * makes the query fail.
   */
  function GetPriceHistory(prices: seq<PriceObservation>, productId: Id, limit: Option<JsNum>, storeCnpj: Option<string>)
    : (r: Result<seq<PriceObservation>, DbError>)
    ensures var n := limit.GetOr(Int(30));
            r.Err? <==> !(n.Int? && RowCount(n.value))
  {
    var n := limit.GetOr(Int(30));
    if !(n.Int? && RowCount(n.value)) then Err(QueryFailed)
    else Ok(Take(SortBy(Filter(prices, HistoryFilter(productId, storeCnpj)), NewestFirst()), n.value))
  }

  /**
   * The history holds only observations of the product (and store), newest first, as many as the
   * limit allows, and none left out is newer than one returned.
   */
  lemma {:induction false} GetPriceHistorySpec(prices: seq<PriceObservation>, productId: Id, limit: Option<JsNum>, storeCnpj: Option<string>)
    requires GetPriceHistory(prices, productId, limit, storeCnpj).Ok?
    ensures var rows := GetPriceHistory(prices, productId, limit, storeCnpj).value;
            var n := limit.GetOr(Int(30)).value;
            var total := |Filter(prices, HistoryFilter(productId, storeCnpj))|;
            |rows| == (if n < total then n else total)
    ensures var rows := GetPriceHistory(prices, productId, limit, storeCnpj).value;
            forall i :: 0 <= i < |rows| ==>
              rows[i] in prices && rows[i].productId == productId &&
              (storeCnpj.Some? && storeCnpj.value != "" ==> rows[i].storeCnpj == storeCnpj.value)
    ensures var rows := GetPriceHistory(prices, productId, limit, storeCnpj).value;
            forall i, j :: 0 <= i < j < |rows| ==> rows[i].recordedAt >= rows[j].recordedAt
    ensures var rows := GetPriceHistory(prices, productId, limit, storeCnpj).value;
            var selected := Filter(prices, HistoryFilter(productId, storeCnpj));
            forall i :: 0 <= i < |rows| ==> forall o :: o in selected && o !in rows ==> o.recordedAt <= rows[i].recordedAt
  {
    var f := HistoryFilter(productId, storeCnpj);
    var selected := Filter(prices, f);
    var rows := GetPriceHistory(prices, productId, limit, storeCnpj).value;
    assert rows == Take(SortBy(selected, NewestFirst()), limit.GetOr(Int(30)).value);
    TopNewest(selected, limit.GetOr(Int(30)).value);
    forall i | 0 <= i < |rows|
      ensures rows[i] in prices && rows[i].productId == productId &&
              (storeCnpj.Some? && storeCnpj.value != "" ==> rows[i].storeCnpj == storeCnpj.value)
    {
      assert rows[i] in selected;
      assert f(rows[i]);
    }
  }

  /** The first `n` rows of the newest-first order: sorted, taken from the rows, and none left out is newer. */
  lemma {:induction false} TopNewest(selected: seq<PriceObservation>, n: nat)
    ensures var rows := Take(SortBy(selected, NewestFirst()), n);
            (forall i :: 0 <= i < |rows| ==> rows[i] in selected) &&
            (forall i, j :: 0 <= i < j < |rows| ==> rows[i].recordedAt >= rows[j].recordedAt) &&
            (forall i :: 0 <= i < |rows| ==> forall o :: o in selected && o !in rows ==> o.recordedAt <= rows[i].recordedAt)
  {
    var sorted := SortBy(selected, NewestFirst());
    var rows := Take(sorted, n);
    NewestFirstIsPreorder();
    SortBySorted(selected, NewestFirst());
    forall i | 0 <= i < |rows| ensures rows[i] in selected {
      assert rows[i] == sorted[i];
      assert sorted[i] in multiset(selected);
    }
    forall i, j | 0 <= i < j < |rows| ensures rows[i].recordedAt >= rows[j].recordedAt {
      assert rows[i] == sorted[i] && rows[j] == sorted[j];
      assert NewestFirst()(sorted[i], sorted[j]);
    }
    forall m | 0 <= m < |rows| ensures sorted[m] in rows {
      assert rows[m] == sorted[m];
    }
    forall i, o | 0 <= i < |rows| && o in selected && o !in rows ensures o.recordedAt <= rows[i].recordedAt {
      assert o in multiset(sorted);
      var k :| 0 <= k < |sorted| && sorted[k] == o;
      assert k >= |rows|;
      assert rows[i] == sorted[i];
      assert NewestFirst()(sorted[i], sorted[k]);
    }
  }

  /** The newest of some observations; among equally new ones, the first in table order. */
  function Latest(obs: seq<PriceObservation>): (o: PriceObservation)
    requires obs != []
    ensures o in obs
    ensures forall x :: x in obs ==> x.recordedAt <= o.recordedAt
  {
    if |obs| == 1 then obs[0]
    else
      var rest := Latest(obs[1..]);
      assert forall x :: x in obs ==> x == obs[0] || x in obs[1..];
      if obs[0].recordedAt >= rest.recordedAt then obs[0] else rest
  }

  /** `WHERE product_id = $1 AND store_cnpj = $2`. */
  function OfProductAtStore(productId: Id, storeCnpj: string): PriceObservation -> bool {
    (o: PriceObservation) => o.productId == productId && o.storeCnpj == storeCnpj
  }

  /** The product has an observation at the store. */
  predicate Observed(prices: seq<PriceObservation>, productId: Id, storeCnpj: string) {
    Filter(prices, OfProductAtStore(productId, storeCnpj)) != []
  }

  lemma {:induction false} ObservedMeans(prices: seq<PriceObservation>, productId: Id, storeCnpj: string)
    ensures Observed(prices, productId, storeCnpj) <==>
      exists o :: o in prices && o.productId == productId && o.storeCnpj == storeCnpj
  {
    var obs := Filter(prices, OfProductAtStore(productId, storeCnpj));
    if obs != [] {
      assert obs[0] in obs;
    }
  }

  /** The newest observation of the product at the store. */
  function Newest(prices: seq<PriceObservation>, productId: Id, storeCnpj: string): (o: PriceObservation)
    requires Observed(prices, productId, storeCnpj)
    ensures o in prices && o.productId == productId && o.storeCnpj == storeCnpj
  {
    Latest(Filter(prices, OfProductAtStore(productId, storeCnpj)))
  }

  /**
   * `getLatestPrice`: the price of the newest observation of the product at the store, or null
   * when there is none.
   */
  function GetLatestPrice(prices: seq<PriceObservation>, productId: Id, storeCnpj: string): (r: Option<Decimal>)
    ensures r.None? <==> forall o :: o in prices ==> !(o.productId == productId && o.storeCnpj == storeCnpj)
    ensures r.Some? ==>
      exists o :: o in prices && o.productId == productId && o.storeCnpj == storeCnpj && o.price == r.value &&
        forall x :: x in prices && x.productId == productId && x.storeCnpj == storeCnpj ==> x.recordedAt <= o.recordedAt
  {
    if Observed(prices, productId, storeCnpj) then Some(Newest(prices, productId, storeCnpj).price) else None
  }
  // ---------------------------------------------------------------------------------------
  // comparePrices, findBestPrice, getPriceStats

  lemma {:induction false} ObservedCons(prices: seq<PriceObservation>, productId: Id, storeCnpj: string)
    requires prices != []
    ensures Observed(prices, productId, storeCnpj) <==>
      (prices[0].productId == productId && prices[0].storeCnpj == storeCnpj) || Observed(prices[1..], productId, storeCnpj)
  {
  }

  /** The stores where the product has observations, each once. */
  function ProductStores(prices: seq<PriceObservation>, productId: Id): (r: seq<string>)
    ensures forall i, j :: 0 <= i < j < |r| ==> r[i] != r[j]
    ensures forall s :: s in r <==> Observed(prices, productId, s)
  {
    if prices == [] then []
    else
      var rest := ProductStores(prices[1..], productId);
      var x := prices[0];
      assert forall s :: Observed(prices, productId, s) <==>
        (x.productId == productId && x.storeCnpj == s) || Observed(prices[1..], productId, s) by {
        forall s { ObservedCons(prices, productId, s); }
      }
      if x.productId == productId && x.storeCnpj !in rest then [x.storeCnpj] + rest else rest
  }

  /**
   * `SELECT DISTINCT ON (store_cnpj) ... ORDER BY store_cnpj, recorded_at DESC`: for each of the
   * stores, the newest observation of the product there.
   */
  function NewestAt(prices: seq<PriceObservation>, productId: Id, stores: seq<string>): (r: seq<PriceObservation>)
    requires forall s :: s in stores ==> Observed(prices, productId, s)
    ensures |r| == |stores|
    ensures forall i :: 0 <= i < |r| ==>
      Observed(prices, productId, stores[i]) && r[i] == Newest(prices, productId, stores[i])
  {
    if stores == [] then []
    else
      assert stores[0] in stores;
      [Newest(prices, productId, stores[0])] + NewestAt(prices, productId, stores[1..])
  }

  /** The subquery's rows: the newest observation of the product at each store that has one. */
  function NewestOfProduct(prices: seq<PriceObservation>, productId: Id): seq<PriceObservation> {
    NewestAt(prices, productId, ProductStores(prices, productId))
  }

  /** One row of the comparison. */
  datatype PriceComparison = PriceComparison(
    storeCnpj: string,
    storeName: Option<string>,
    currentPrice: Decimal,
    lastUpdated: int,
    priceCount: nat)

  /** `LEFT JOIN LATERAL (SELECT store_name FROM receipts WHERE store_cnpj = ... LIMIT 1)`. */
  function StoreNameOf(receipts: seq<Receipt>, storeCnpj: string): (r: Option<string>)
    ensures (forall i :: 0 <= i < |receipts| ==> receipts[i].storeCnpj != Some(storeCnpj)) ==> r.None?
  {
    if receipts == [] then None
    else if receipts[0].storeCnpj == Some(storeCnpj) then receipts[0].storeName
    else StoreNameOf(receipts[1..], storeCnpj)
  }

  /**
   * The comparison row of an observation: the store, its name, the price, the time, and
   * `COUNT(*) OVER (PARTITION BY store_cnpj)` over the rows `rows` of the subquery.
   */
  function Entry(o: PriceObservation, rows: seq<PriceObservation>, receipts: seq<Receipt>): PriceComparison {
    PriceComparison(o.storeCnpj, StoreNameOf(receipts, o.storeCnpj), o.price, o.recordedAt, |Filter(rows, AtStore(o.storeCnpj))|)
  }

  function Entries(rows: seq<PriceObservation>, receipts: seq<Receipt>): (r: seq<PriceComparison>)
    ensures |r| == |rows|
    ensures forall i :: 0 <= i < |rows| ==> r[i] == Entry(rows[i], rows, receipts)
  {
    seq(|rows|, i requires 0 <= i < |rows| => Entry(rows[i], rows, receipts))
  }

  /** PostgreSQL's order on NUMERIC: by value, with NaN above every number. */
  predicate DecimalLe(a: Decimal, b: Decimal) {
    match (a, b)
    case (Finite(x), Finite(y)) => x <= y
    case (_, NaN) => true
    case (NaN, Finite(_)) => false
  }

  /** ORDER BY price ASC. */
  function CheapestFirst(): (PriceComparison, PriceComparison) -> bool {
    (a: PriceComparison, b: PriceComparison) => DecimalLe(a.currentPrice, b.currentPrice)
  }

  lemma {:induction false} CheapestFirstIsPreorder()
    ensures IsTotalPreorder(CheapestFirst())
  {
  }

  /** The comparison before the final ORDER BY. */
  function Comparison(prices: seq<PriceObservation>, receipts: seq<Receipt>, productId: Id): seq<PriceComparison> {
    Entries(NewestOfProduct(prices, productId), receipts)
  }

  /** `comparePrices`: each store's newest observation of the product, cheapest first. */
  function ComparePrices(prices: seq<PriceObservation>, receipts: seq<Receipt>, productId: Id): (r: seq<PriceComparison>)
    ensures multiset(r) == multiset(Comparison(prices, receipts, productId))
  {
    SortBy(Comparison(prices, receipts, productId), CheapestFirst())
  }

  function StoreOf(c: PriceComparison): string { c.storeCnpj }

  /** A row of the comparison is the entry of its store's newest observation, the `i`-th row of the subquery. */
  lemma {:induction false} InComparison(prices: seq<PriceObservation>, receipts: seq<Receipt>, productId: Id, c: PriceComparison)
    returns (i: nat)
    requires c in ComparePrices(prices, receipts, productId)
    ensures i < |NewestOfProduct(prices, productId)|
    ensures c == Entry(NewestOfProduct(prices, productId)[i], NewestOfProduct(prices, productId), receipts)
    ensures Observed(prices, productId, c.storeCnpj)
    ensures NewestOfProduct(prices, productId)[i] == Newest(prices, productId, c.storeCnpj)
  {
    var stores := ProductStores(prices, productId);
    var rows := NewestOfProduct(prices, productId);
    var unsorted := Comparison(prices, receipts, productId);
    assert unsorted == Entries(rows, receipts);
    assert c in multiset(unsorted);
    i :| 0 <= i < |unsorted| && unsorted[i] == c;
    assert rows == NewestAt(prices, productId, stores);
    assert Observed(prices, productId, stores[i]) && rows[i] == Newest(prices, productId, stores[i]);
    assert c == Entry(rows[i], rows, receipts);
    assert c.storeCnpj == rows[i].storeCnpj == stores[i];
  }

  /** The unsorted comparison lists the stores in the order of `ProductStores`. */
  lemma {:induction false} ComparisonStores(prices: seq<PriceObservation>, receipts: seq<Receipt>, productId: Id)
    ensures |Comparison(prices, receipts, productId)| == |ProductStores(prices, productId)|
    ensures forall i :: 0 <= i < |ProductStores(prices, productId)| ==>
      Comparison(prices, receipts, productId)[i].storeCnpj == ProductStores(prices, productId)[i]
  {
    var stores := ProductStores(prices, productId);
    var rows := NewestOfProduct(prices, productId);
    assert rows == NewestAt(prices, productId, stores);
    assert Comparison(prices, receipts, productId) == Entries(rows, receipts);
  }

  /** The comparison has one row per store, and exactly the stores with an observation of the product. */
  lemma {:induction false} ComparePricesStores(prices: seq<PriceObservation>, receipts: seq<Receipt>, productId: Id)
    ensures DistinctBy(ComparePrices(prices, receipts, productId), StoreOf)
    ensures forall s :: Observed(prices, productId, s) <==>
      exists c :: c in ComparePrices(prices, receipts, productId) && c.storeCnpj == s
  {
    var stores := ProductStores(prices, productId);
    var unsorted := Comparison(prices, receipts, productId);
    var r := ComparePrices(prices, receipts, productId);
    ComparisonStores(prices, receipts, productId);
    assert DistinctBy(unsorted, StoreOf) by {
      forall i, j | 0 <= i < j < |unsorted| ensures StoreOf(unsorted[i]) != StoreOf(unsorted[j]) {
        assert unsorted[i].storeCnpj == stores[i];
        assert unsorted[j].storeCnpj == stores[j];
      }
    }
    DistinctByPermutation(unsorted, r, StoreOf);
    forall s | Observed(prices, productId, s) ensures exists c :: c in r && c.storeCnpj == s {
      var i :| 0 <= i < |stores| && stores[i] == s;
      assert unsorted[i] in multiset(r);
      assert unsorted[i].storeCnpj == s;
    }
    forall c | c in r ensures Observed(prices, productId, c.storeCnpj) {
      var _ := InComparison(prices, receipts, productId, c);
    }
  }

  /** A row carries the price and time of its store's newest observation, and the store's name. */
  lemma {:induction false} RowIsNewest(prices: seq<PriceObservation>, receipts: seq<Receipt>, productId: Id, c: PriceComparison)
    requires c in ComparePrices(prices, receipts, productId)
    ensures Observed(prices, productId, c.storeCnpj)
    ensures c.currentPrice == Newest(prices, productId, c.storeCnpj).price
    ensures c.lastUpdated == Newest(prices, productId, c.storeCnpj).recordedAt
    ensures c.storeName == StoreNameOf(receipts, c.storeCnpj)
  {
    var i := InComparison(prices, receipts, productId, c);
  }

  /** Every row carries the price `getLatestPrice` gives for its store. */
  lemma {:induction false} ComparePricesLatest(prices: seq<PriceObservation>, receipts: seq<Receipt>, productId: Id)
    ensures forall c :: c in ComparePrices(prices, receipts, productId) ==>
              GetLatestPrice(prices, productId, c.storeCnpj) == Some(c.currentPrice)
  {
    forall c | c in ComparePrices(prices, receipts, productId)
      ensures GetLatestPrice(prices, productId, c.storeCnpj) == Some(c.currentPrice)
    {
      RowIsNewest(prices, receipts, productId, c);
    }
  }

  /** The comparison is cheapest first. */
  lemma {:induction false} ComparePricesSorted(prices: seq<PriceObservation>, receipts: seq<Receipt>, productId: Id)
    ensures SortedBy(ComparePrices(prices, receipts, productId), CheapestFirst())
  {
    CheapestFirstIsPreorder();
    SortBySorted(Comparison(prices, receipts, productId), CheapestFirst());
  }

  /** In rows with one row per store, a store's partition holds that row alone. */
  lemma {:induction false} CountOfDistinct(rows: seq<PriceObservation>, k: nat)
    requires k < |rows|
    requires forall i, j :: 0 <= i < j < |rows| ==> rows[i].storeCnpj != rows[j].storeCnpj
    ensures |Filter(rows, AtStore(rows[k].storeCnpj))| == 1
    decreases |rows|
  {
    var s := rows[k].storeCnpj;
    if k == 0 {
      forall x | x in rows[1..] ensures !AtStore(s)(x) {
        var j :| 0 <= j < |rows[1..]| && rows[1..][j] == x;
        assert rows[j + 1] == x;
      }
      FilterNone(rows[1..], AtStore(s));
    } else {
      CountOfDistinct(rows[1..], k - 1);
      assert rows[1..][k - 1] == rows[k];
      assert rows[0].storeCnpj != s;
    }
  }

  /** priceCount counts the one-row-per-store subquery, so it is always 1. */
  lemma {:induction false} PriceCountIsOne(prices: seq<PriceObservation>, receipts: seq<Receipt>, productId: Id)
    ensures forall c :: c in ComparePrices(prices, receipts, productId) ==> c.priceCount == 1
  {
    var stores := ProductStores(prices, productId);
    var rows := NewestOfProduct(prices, productId);
    assert forall i :: 0 <= i < |rows| ==> rows[i].storeCnpj == stores[i];
    forall c | c in ComparePrices(prices, receipts, productId) ensures c.priceCount == 1 {
      var i := InComparison(prices, receipts, productId, c);
      CountOfDistinct(rows, i);
    }
  }

  /** The answer of `findBestPrice`. */
  datatype BestPrice = BestPrice(storeCnpj: string, storeName: Option<string>, price: Decimal, recordedAt: int)

  /** `findBestPrice`: the first row of the same cheapest-first comparison, or null when it is empty. */
  function FindBestPrice(prices: seq<PriceObservation>, receipts: seq<Receipt>, productId: Id): Option<BestPrice> {
    var rows := ComparePrices(prices, receipts, productId);
    if rows == [] then None
    else Some(BestPrice(rows[0].storeCnpj, rows[0].storeName, rows[0].currentPrice, rows[0].lastUpdated))
  }

  /**
   * `findBestPrice` is null exactly when the product has no observation; otherwise its price is
   * the newest price at its store and no row of the comparison has a lower one.
   */
  lemma {:induction false} FindBestPriceSpec(prices: seq<PriceObservation>, receipts: seq<Receipt>, productId: Id)
    ensures FindBestPrice(prices, receipts, productId).None? <==> forall o :: o in prices ==> o.productId != productId
    ensures var best := FindBestPrice(prices, receipts, productId);
            best.Some? ==>
              GetLatestPrice(prices, productId, best.value.storeCnpj) == Some(best.value.price) &&
              forall c :: c in ComparePrices(prices, receipts, productId) ==> DecimalLe(best.value.price, c.currentPrice)
  {
    var rows := ComparePrices(prices, receipts, productId);
    ComparisonEmpty(prices, receipts, productId);
    ComparePricesLatest(prices, receipts, productId);
    ComparePricesSorted(prices, receipts, productId);
    if rows != [] {
      assert rows[0] in rows;
      FirstIsCheapest(rows);
    }
  }

  /** The comparison is empty exactly when the product was never observed. */
  lemma {:induction false} ComparisonEmpty(prices: seq<PriceObservation>, receipts: seq<Receipt>, productId: Id)
    ensures ComparePrices(prices, receipts, productId) == [] <==> forall o :: o in prices ==> o.productId != productId
  {
    var rows := ComparePrices(prices, receipts, productId);
    ComparePricesStores(prices, receipts, productId);
    if o :| o in prices && o.productId == productId {
      ObservedMeans(prices, productId, o.storeCnpj);
      assert Observed(prices, productId, o.storeCnpj);
    }
    if rows != [] {
      assert rows[0] in rows;
      ObservedMeans(prices, productId, rows[0].storeCnpj);
    }
  }

  /** The first row of a cheapest-first list is no dearer than any row. */
  lemma {:induction false} FirstIsCheapest(rows: seq<PriceComparison>)
    requires rows != [] && SortedBy(rows, CheapestFirst())
    ensures forall c :: c in rows ==> DecimalLe(rows[0].currentPrice, c.currentPrice)
  {
    forall c | c in rows ensures DecimalLe(rows[0].currentPrice, c.currentPrice) {
      var k :| 0 <= k < |rows| && rows[k] == c;
      if k > 0 {
        assert CheapestFirst()(rows[0], rows[k]);
      }
    }
  }

  /** The part of `getPriceStats` modelled: the number of stores. */
  datatype PriceStats = PriceStats(storeCount: nat)

  /** `getPriceStats`: null when the product has no observation (the average is then NULL). */
  function GetPriceStats(prices: seq<PriceObservation>, productId: Id): (r: Option<PriceStats>)
    ensures r.None? <==> forall o :: o in prices ==> o.productId != productId
    ensures r.Some? ==> r.value.storeCount >= 1
  {
    var stores := ProductStores(prices, productId);
    if stores == [] then
      assert forall o :: o in prices ==> o.productId != productId by {
        forall o | o in prices ensures o.productId != productId {
          ObservedMeans(prices, productId, o.storeCnpj);
        }
      }
      None
    else
      assert Observed(prices, productId, stores[0]);
      ObservedMeans(prices, productId, stores[0]);
      Some(PriceStats(|stores|))
  }

  /** The statistics count as many stores as the comparison has rows. */
  lemma {:induction false} PriceStatsCountStores(prices: seq<PriceObservation>, receipts: seq<Receipt>, productId: Id)
    requires GetPriceStats(prices, productId).Some?
    ensures GetPriceStats(prices, productId).value.storeCount == |ComparePrices(prices, receipts, productId)|
  {
    var unsorted := Comparison(prices, receipts, productId);
    assert |multiset(ComparePrices(prices, receipts, productId))| == |multiset(unsorted)|;
  }
}
