/**
 * The receipt-service's own catalogue access (receipt-service `services/productsService.ts`): its
 * normaliser is the comparison key alone, without the unit-synonym rewrite of the products-service;
 * it finds or inserts a product by that key without a category, appends price observations, and
 * falls back to the local find-or-create when the products-service cannot be reached.
 */
module ReceiptProducts {
  import opened Wrappers
  import opened JsText
  import opened NameKey
  import opened Storage
  import NormalizationService
  import ProductModel
  import PriceService

  /**
   * The receipt-service key is BaseKey; the products-service key rewrites unit synonyms on top of it.
   * The same two names share a key in the products-service and not here.
   */
  lemma {:induction false} CopiesDisagreeOnKilo()
    ensures BaseKey("ARROZ 1 KILO") != BaseKey("ARROZ 1 KG")
    ensures NormalizationService.Normalize("ARROZ 1 KILO") == NormalizationService.Normalize("ARROZ 1 KG")
  {
    NormalizationService.KeyOfArrozKilo();
    NormalizationService.KeyOfArrozKg();
    NormalizationService.KiloIsKg();
    assert "arroz 1 kilo" != "arroz 1 kg" by {
      assert |"arroz 1 kilo"| != |"arroz 1 kg"|;
    }
  }

  /** The row the receipt-service inserts: the raw name, its key and the unit as given, no category. */
  function LocalProductRow(name: string, key: string, unit: string, id: Id, now: int): (p: Product)
    ensures p.id == id && p.name == name && p.normalizedName == key
    ensures p.category.None? && p.unit == Some(unit)
  {
    Product(id, name, key, None, Some(unit), now, now)
  }

  /** The lookup-then-insert of `findOrCreateProduct`, on an already computed key. */
  method FindOrCreateByKey(db: Database, productName: string, key: string, unit: string, now: int)
    returns (product: Product)
    requires db.Valid()
    modifies db
    ensures db.Valid()
    ensures product.normalizedName == key && product in db.products
    ensures HasKey(old(db.products), key) ==>
      Some(product) == ProductByKey(old(db.products), key) && db.State() == old(db.State())
    ensures !HasKey(old(db.products), key) ==>
      product == LocalProductRow(productName, key, unit, old(db.nextId), now) &&
      db.products == old(db.products) + [product] && db.nextId == old(db.nextId) + 1 &&
      db.prices == old(db.prices) && db.receipts == old(db.receipts) && db.items == old(db.items)
  {
    var existing := ProductByKey(db.products, key);
    if existing.Some? {
      return existing.value;
    }
    product := LocalProductRow(productName, key, unit, db.nextId, now);
    ProductModel.InsertKeepsConsistent(db.State(), product);
    db.products := db.products + [product];
    db.nextId := db.nextId + 1;
  }

  /**
   * `findOrCreateProduct` of the receipt-service: the row with key BaseKey(name) unchanged when one
   * exists, otherwise one new row with the raw name, that key, the unit (default "UN") and no
   * category.
   */
  method FindOrCreateProduct(db: Database, productName: string, unit: Option<string>, now: int)
    returns (product: Product)
    requires db.Valid()
    modifies db
    ensures db.Valid()
    ensures product.normalizedName == BaseKey(productName) && product in db.products
    ensures HasKey(old(db.products), BaseKey(productName)) ==>
      Some(product) == ProductByKey(old(db.products), BaseKey(productName)) && db.State() == old(db.State())
    ensures !HasKey(old(db.products), BaseKey(productName)) ==>
      product == LocalProductRow(productName, BaseKey(productName), unit.GetOr("UN"), old(db.nextId), now) &&
      db.products == old(db.products) + [product] && db.nextId == old(db.nextId) + 1 &&
      db.prices == old(db.prices) && db.receipts == old(db.receipts) && db.items == old(db.items)
  {
    product := FindOrCreateByKey(db, productName, BaseKey(productName), unit.GetOr("UN"), now);
  }

  /**
   * Two lookups in a row with the same key return the same product, and the catalogue then holds
   * exactly one row with that key.
   */
  method FindOrCreateTwice(db: Database, first: string, second: string, key: string, unit: string, now: int)
    returns (p: Product, q: Product)
    requires db.Valid()
    modifies db
    ensures db.Valid()
    ensures p == q
    ensures forall i :: 0 <= i < |db.products| && db.products[i].normalizedName == key ==> db.products[i] == p
    ensures |db.products| <= |old(db.products)| + 1
  {
    p := FindOrCreateByKey(db, first, key, unit, now);
    var between := db.products;
    var k :| 0 <= k < |between| && between[k] == p;
    ProductModel.ProductByKeyIsTheRow(between, db.nextId, k);
    q := FindOrCreateByKey(db, second, key, unit, now);
    assert db.products == between;
    forall i | 0 <= i < |between| && between[i].normalizedName == key ensures between[i] == p {
      ProductModel.ProductByKeyIsTheRow(between, db.nextId, i);
    }
  }

  /** `registerPrice` of the receipt-service: the same insert as the products-service's, result dropped. */
  method RegisterPrice(db: Database, productId: Id, storeCnpj: string, price: Decimal, now: int)
    returns (r: Result<(), DbError>)
    requires db.Valid()
    modifies db
    ensures db.Valid()
    ensures HasProduct(old(db.products), productId) ==>
      r.Ok? && db.prices == old(db.prices) + [PriceObservation(old(db.nextId), productId, storeCnpj, price, now)] &&
      db.products == old(db.products) && db.receipts == old(db.receipts) && db.items == old(db.items) &&
      db.nextId == old(db.nextId) + 1
    ensures !HasProduct(old(db.products), productId) ==>
      r == Err(ForeignKeyViolation) && db.State() == old(db.State())
  {
    var inserted := PriceService.RegisterPrice(db, productId, storeCnpj, price, now);
    if inserted.Err? {
      return Err(inserted.error);
    }
    r := Ok(());
  }

  /**
   * `callProductsService`: the products-service's answer when the call succeeds (`remote`), passed
   * through as it is; otherwise the local find-or-create, whose product carries the name's key.
   */
  method CallProductsService(db: Database, productName: string, unit: string, remote: Option<Product>, now: int)
    returns (product: Product)
    requires db.Valid()
    modifies db
    ensures db.Valid()
    ensures remote.Some? ==> product == remote.value && db.State() == old(db.State())
    ensures remote.None? ==> product.normalizedName == BaseKey(productName) && product in db.products
  {
    if remote.Some? {
      return remote.value;
    }
    product := FindOrCreateProduct(db, productName, Some(unit), now);
  }
}
