# Receipt manager: receipts, catalogue, prices and password reset

This project models the core of a receipt-manager backend written in TypeScript. The backend is a
set of services:

- the **receipt service** reads a Brazilian NFC-e ("Nota Fiscal de Consumidor Eletrônica") from the
  QR code of a till receipt, files each line item under a catalogue product, records the price paid
  at the store, and stores the receipt with its items;
- the **products service** keeps the product catalogue, keyed by a normalised product name, and the
  price history, and answers price questions: the history of a product, each store's latest price,
  and the cheapest store;
- the **user service** runs the password-reset flow: one-hour reset tokens, a throttle of three
  active tokens per user, the classification of a presented token as valid, unknown, used or
  expired, and the reset itself;
- the **analytics service** contributes only its request validators.

The database is modelled as in-memory tables. The receipt and catalogue tables are a class
`Storage.Database`, the reset tokens a class `ResetTokens.TokenStore`, and the users a class
`PasswordReset.UserTable`. The handlers that change these tables are methods, with `modifies`
clauses and postconditions that give the new state. The upload is the one exception: its item
loop's product and price writes are stated per item (the product found or created by the item's
key and the price row recorded), not as exact new tables. Every query is a function over the
tables, and lemmas prove what the queries promise. A request handler's reply is a value of
`Http.Reply<T>`: a success status with its payload, or a failure status with the `error` and
`message` texts the handler sends.

Modules, one per source file, plus shared ones:

- `NormalizationService`: the catalogue normaliser, the categoriser, the unit extractor and
  find-or-create.
- `ReceiptProducts`: the receipt service's simpler normaliser, find-or-create, price registration
  and the fallback from the products service.
- `NfceParser`: the extraction over the tree xml2js builds, the access key and the fixed mock
  document.
- `ReceiptModel` and `ReceiptController`: receipt persistence and the upload, list, details and
  delete handlers.
- `ProductModel`, `PriceService` and `ProductController`: the catalogue, the price history and their
  handlers.
- `ResetTokens` and `PasswordReset`: the token table and the three reset handlers.
- `EmailTemplates`: placeholder substitution and the reset link.
- `ReceiptValidation`, `ProductValidation`, `UserValidation` and `AnalyticsValidation`: the Zod
  schemas.

Shared modules:

- `JsText`: JavaScript string and number semantics: `toLowerCase`, `\s`, `trim`, `Number`,
  `parseFloat`, `parseInt`, `Math.ceil`.
- `SqlText`: `LIKE`/`ILIKE` and text order.
- `Sequences`: filter, stable `ORDER BY`, `LIMIT`/`OFFSET`.
- `Pagination`: page bounds and `totalPages`.
- `Storage`: the tables and their constraints.
- `NameKey`: the lower-case, NFD, strip-marks, collapse-spaces and trim chain that both normalisers
  share.
- `Zod`: string checks, UUID and e-mail formats.
- `Http` and `Wrappers`: reply and option/result types.

Prices, totals and quantities are `Decimal` values in every table and reply: the number
`parseFloat` reads from the receipt's text, in whole units of 1/10000, or NaN. Time is an abstract integer `now`.

Where the code and its own documentation disagree, the model follows the code:

- `getLatestPrice` does not return null for a zero price. node-postgres returns a NUMERIC column as
  text, so a zero price arrives as "0.00", which is truthy.
- The products service's update handler reports a name whose key belongs to another product as a
  500, not a 400. Its catch block only recognises a Zod error.
- The unit extractor can never yield "pct" (see Findings).

## Model

| member | source | states |
|---|---|---|
| NameKey.BaseKeySingleSpaced | backend/services/receipt-service/src/services/productsService.ts:18-25 | the receipt-service key never starts or ends with white space and never has two white-space characters in a row |
| NameKey.BaseKeyIdempotent | backend/services/receipt-service/src/services/productsService.ts:18-25 | normalising a receipt-service key again gives the same key |
| NameKey.BaseKeyIgnoresCase | backend/services/receipt-service/src/services/productsService.ts:19-20 | names that lower-case to the same text get the same key |
| NameKey.BaseKeyIgnoresMark | backend/services/receipt-service/src/services/productsService.ts:21-22 | inserting a combining mark U+0300–U+036F anywhere in a name leaves its key unchanged |
| NameKey.BaseKeyChars | backend/services/receipt-service/src/services/productsService.ts:18-25 | no character of a key is left to lower-case, decompose or strip |
| NameKey.AcucarKey | backend/services/products-service/src/services/normalizationService.ts:11-14 | "AÇÚCAR" and "acucar" have the same key, "acucar" |
| NameKey.StripMarks | backend/services/products-service/src/services/normalizationService.ts:14 | no combining diacritical mark is left in the result |
| NormalizationService.NormalizeProductName | backend/services/products-service/src/services/normalizationService.ts:10-45 | the loop over the abbreviation record yields the comparison key rewritten word by word through the table |
| NormalizationService.ReplaceEach | backend/services/products-service/src/services/normalizationService.ts:39-42 | applying the rules in table order, each to the previous result, is the composed rewrite |
| NormalizationService.NormalizeSingleSpaced | backend/services/products-service/src/services/normalizationService.ts:10-45 | the normalised name has no white space at either end and never two white-space characters in a row |
| NormalizationService.NormalizeIdempotent | backend/services/products-service/src/services/normalizationService.ts:19-42 | normalising a normalised name gives it back, since every rewrite target maps to itself |
| NormalizationService.NormalizeIsKey | backend/services/products-service/src/services/normalizationService.ts:11-42 | the comparison key of a normalised name is the name itself |
| NormalizationService.NormalizeIgnoresCase | backend/services/products-service/src/services/normalizationService.ts:12 | names differing only in letter case get the same normalised name |
| NormalizationService.NormalizeIgnoresMark | backend/services/products-service/src/services/normalizationService.ts:13-14 | inserting a combining mark anywhere leaves the normalised name unchanged |
| NormalizationService.AbbreviationsClosed | backend/services/products-service/src/services/normalizationService.ts:19-36 | every value of the table ("kg", "l", "ml", "g", "un", "pct") is mapped to itself |
| NormalizationService.ApplyRulesPerWord | backend/services/products-service/src/services/normalizationService.ts:39-42 | the rule-by-rule global `\bkey\b` replacement rewrites each maximal word by the whole table |
| NormalizationService.RuleWordIsLookup | backend/services/products-service/src/services/normalizationService.ts:19-42 | with a closed table, running the rules in order on one word is a single dictionary lookup |
| NormalizationService.MapWordsNoDouble | backend/services/products-service/src/services/normalizationService.ts:39-42 | the synonym rewrite never puts two white-space characters next to each other |
| NormalizationService.MapWordsEnds | backend/services/products-service/src/services/normalizationService.ts:39-42 | the synonym rewrite keeps the text empty or not, and white space or not at either end |
| NormalizationService.KiloIsKg | backend/services/products-service/src/services/normalizationService.ts:21-42 | "ARROZ 1 KILO" and "ARROZ 1 KG" both normalise to "arroz 1 kg" |
| NormalizationService.NoRewriteInsideWord | backend/services/products-service/src/services/normalizationService.ts:40 | a synonym inside a longer word is kept: "leite" keeps its "l", "5kilo" its "kilo" |
| NormalizationService.NotAbbreviation | backend/services/products-service/src/services/normalizationService.ts:19-42 | a word that is no key of the table is left as it is |
| NormalizationService.Categorize | backend/services/products-service/src/services/normalizationService.ts:52-140 | the category is the first group, in order, with a keyword in the lower-cased name, and "Outros" exactly when no group matches; never null |
| NormalizationService.FirstCategory | backend/services/products-service/src/services/normalizationService.ts:56-136 | a category is found exactly when some group has a keyword in the text, and it is that group's |
| NormalizationService.NoGroupIsDefault | backend/services/products-service/src/services/normalizationService.ts:56-139 | no group names the fallback category "Outros" |
| NormalizationService.MacarraoIsGrain | backend/services/products-service/src/services/normalizationService.ts:56-62 | "MACARRAO" is a grain although it contains the fruit keyword "maca", because grains are tested first |
| NormalizationService.PaoWithTildeIsOther | backend/services/products-service/src/services/normalizationService.ts:53-139 | "PÃO" lower-cases to "pão", matches no keyword and is "Outros": categorisation does not fold accents |
| NormalizationService.SuggestCategory | backend/services/products-service/src/services/normalizationService.ts:196-205 | the suggestion is the rule-based category of the name |
| NormalizationService.NoDigitNoUnit | backend/services/products-service/src/services/normalizationService.ts:179-189 | a name without a digit has no unit |
| NormalizationService.ExtractFiveKg | backend/services/products-service/src/services/normalizationService.ts:177-187 | "ARROZ 5KG" gives "5kg" |
| NormalizationService.ExtractOneL | backend/services/products-service/src/services/normalizationService.ts:177-187 | "LEITE 1L" gives "1l" |
| NormalizationService.PctImpliesPc | backend/services/products-service/src/services/normalizationService.ts:181 | wherever "pct" matches, the earlier alternative "pc" matches too |
| NormalizationService.PctNeverExtracted | backend/services/products-service/src/services/normalizationService.ts:181-186 | as written, "pct" is never the unit extracted |
| NormalizationService.ExtractOnePct | backend/services/products-service/src/services/normalizationService.ts:181-186 | as written, "1PCT" gives "1pc" |
| NormalizationService.EveryUnitReachable | backend/services/products-service/src/services/normalizationService.ts:181 | with no alternative a prefix of a later one, every alternative is extracted from its own text |
| NormalizationService.LongestFirstReachesPct | backend/services/products-service/src/services/normalizationService.ts:181 | with "pct" tried before "pc", every unit of the regex is reachable |
| NormalizationService.ExtractOnePctFixed | backend/services/products-service/src/services/normalizationService.ts:181-186 | with "pct" first, "1PCT" gives "1pct" |
| NormalizationService.FindOrCreateProduct | backend/services/products-service/src/services/normalizationService.ts:146-173 | the product with key normalizeProductName(name), unchanged, when the catalogue has one; otherwise exactly one new row with the raw name, that key, the category of the name and the unit (default "UN") |
| ReceiptProducts.CopiesDisagreeOnKilo | backend/services/receipt-service/src/services/productsService.ts:18-25 | the receipt-service key keeps "kilo", so "ARROZ 1 KILO" and "ARROZ 1 KG" get different keys there but the same one in the products service |
| ReceiptProducts.FindOrCreateByKey | backend/services/receipt-service/src/services/productsService.ts:39-58 | the row with the key unchanged when one exists, else one appended row with that key, and nothing else changes |
| ReceiptProducts.FindOrCreateProduct | backend/services/receipt-service/src/services/productsService.ts:32-59 | the row with key BaseKey(name) when one exists; otherwise one new row with the raw name, the key, the unit (default "UN") and no category |
| ReceiptProducts.FindOrCreateTwice | backend/services/receipt-service/src/services/productsService.ts:32-59 | two lookups with names of the same key return the same product, and one row has that key afterwards |
| ReceiptProducts.RegisterPrice | backend/services/receipt-service/src/services/productsService.ts:64-76 | appends exactly one (product, store, price) row to the price history and changes nothing else |
| ReceiptProducts.CallProductsService | backend/services/receipt-service/src/services/productsService.ts:83-106 | the remote answer, passed through unchanged with the tables untouched, when the call succeeds; otherwise the local find-or-create, whose product is a row of the table keyed by the name's key (the upload handler itself calls find-or-create directly, not this fallback) |
| NfceParser.RootPrecedence | backend/services/receipt-service/src/parsers/nfceParser.ts:38-42 | a truthy earlier root in the chain is the one used |
| NfceParser.NoRootIsInvalid | backend/services/receipt-service/src/parsers/nfceParser.ts:38-42 | without any of the three roots the document is rejected with a message starting "Failed to parse NFC-e XML:" |
| NfceParser.FailuresMentionParse | backend/services/receipt-service/src/parsers/nfceParser.ts:88-91 | every failure message contains "parse" |
| NfceParser.ParseNfce | backend/services/receipt-service/src/parsers/nfceParser.ts:26-92 | every failure message starts with "Failed to parse NFC-e XML: " |
| NfceParser.AcceptedStructure | backend/services/receipt-service/src/parsers/nfceParser.ts:38-79 | a document is accepted exactly when it has a root with `emit` and `ide` and every `det` has a `prod` |
| NfceParser.HeaderFallbacks | backend/services/receipt-service/src/parsers/nfceParser.ts:45-59 | store name from xnome, else xfant, else "Store Name Not Found"; CNPJ from cnpj, else ""; number from nnf, else cnf, else ""; date from dhemi, else demi, else the time of parsing |
| NfceParser.TotalFallbacks | backend/services/receipt-service/src/parsers/nfceParser.ts:50-51 | the total is the text of vnf, else vnfce, else "0" |
| NfceParser.MissingTotalIsZero | backend/services/receipt-service/src/parsers/nfceParser.ts:50-51 | a document without a totals block is accepted with the amount 0 |
| NfceParser.DetList | backend/services/receipt-service/src/parsers/nfceParser.ts:62-65 | an array is kept, a single truthy value becomes a one-element list, anything else an empty list |
| NfceParser.ItemsFollowDets | backend/services/receipt-service/src/parsers/nfceParser.ts:62-79 | the items are the `det` elements in document order, one per element |
| NfceParser.SingleOrNoDet | backend/services/receipt-service/src/parsers/nfceParser.ts:62-65 | a single `det` gives one item and an absent `det` none |
| NfceParser.ParseItem | backend/services/receipt-service/src/parsers/nfceParser.ts:67-78 | an element fails exactly when it has no `prod`, with V8's message for reading `xprod` of undefined |
| NfceParser.ItemFields | backend/services/receipt-service/src/parsers/nfceParser.ts:67-78 | each item field is its tag's text when present, else its default: "Unknown Product", "1", "0", "0", "UN"; the name is a string unless its tag is an element or repeated |
| NfceParser.ParseItems | backend/services/receipt-service/src/parsers/nfceParser.ts:66-79 | the items in document order, or the failure of the first element that throws |
| NfceParser.EmptyProdDefaults | backend/services/receipt-service/src/parsers/nfceParser.ts:70-76 | an empty `prod` gets name "Unknown Product", quantity 1, unit price 0, total 0 and unit "UN"; the total is not recomputed |
| NfceParser.ExtractAccessKey | backend/services/receipt-service/src/parsers/nfceParser.ts:98-104 | the leftmost run of 44 digits, or null exactly when the payload has no such run |
| NfceParser.ParseFetchedDocument | backend/services/receipt-service/src/parsers/nfceParser.ts:124-183 | whatever the QR code, the mock parses to ARROZ BRANCO 5KG 2×15.90, FEIJAO PRETO 1KG 3×8.50, LEITE INTEGRAL 1L 4×5.20, total text 78.10, CNPJ 12345678000190, number 123456 |
| NfceParser.MockTotalAmount | backend/services/receipt-service/src/parsers/nfceParser.ts:176-178 | the mock's total reads as 78.10 |
| Storage.ProductById | backend/services/products-service/src/models/Product.ts:44-51 | the first row with the id, or null exactly when there is none |
| Storage.ProductByKey | backend/services/products-service/src/models/Product.ts:56-65 | the first row with exactly that normalized name, or null exactly when there is none |
| Storage.ReceiptById | backend/services/receipt-service/src/models/Receipt.ts:113-120 | the first receipt with the id, or null exactly when there is none |
| Storage.Database.Restore | backend/services/receipt-service/src/models/Receipt.ts:102-104 | ROLLBACK puts every table back to the snapshot |
| ProductModel.OrNull | backend/services/products-service/src/models/Product.ts:34-36 | a missing or empty category or unit is stored as null, any other text as itself |
| ProductModel.CreateProduct | backend/services/products-service/src/models/Product.ts:30-39 | inserts exactly one row with a fresh id, or fails with a unique violation and changes nothing when the key is taken |
| ProductModel.ProductByKeyIsTheRow | backend/services/products-service/src/models/Product.ts:56-65 | with the unique index, the lookup by key finds the one row with that key |
| ProductModel.BuildProductConditions | backend/services/products-service/src/models/Product.ts:77-96 | one condition per truthy filter, the counter one past the parameters, and a row passes exactly when it matches the filters |
| ProductModel.ListProductsSpec | backend/services/products-service/src/models/Product.ts:70-118 | the page holds catalogue rows passing the search (name or key, case-insensitive) and category filters, in name order, at most `limit`; the total counts every match; the query fails exactly for a NaN or negative bound or one beyond PostgreSQL's `bigint` |
| ProductModel.ListProductsWindow | backend/services/products-service/src/models/Product.ts:77-111 | the page is the run of ordered matches starting at row (page-1)*limit, `limit` long or up to the last match |
| ProductModel.BuildAssignments | backend/services/products-service/src/models/Product.ts:131-153 | one assignment per supplied field, and applying them is the patch |
| ProductModel.Patched | backend/services/products-service/src/models/Product.ts:131-166 | a supplied field takes the given value, every other field keeps its value, and updated_at is now |
| ProductModel.UpdateProduct | backend/services/products-service/src/models/Product.ts:123-170 | with no field it returns the row as it is; an unknown id gives null and no change; a key belonging to another row is a unique violation with no change; otherwise only that row is patched, in place |
| ProductModel.DeleteProduct | backend/services/products-service/src/models/Product.ts:175-182 | true exactly when a row with that id existed and was removed; a referenced product is a foreign-key violation and nothing is removed |
| ProductModel.GetProductStats | backend/services/products-service/src/models/Product.ts:187-221 | null exactly when no receipt item references the product; otherwise the purchase count is the number of distinct receipts with an item of the product, at least one |
| ProductModel.PurchasesCountDistinct | backend/services/products-service/src/models/Product.ts:196-198 | the count is `COUNT(DISTINCT ri.receipt_id)`: one more item of the product on a receipt already counted leaves it unchanged, and one on a new receipt adds one |
| PriceService.RegisterPrice | backend/services/products-service/src/services/priceService.ts:195-208 | appends exactly one observation (product, store, price, now); an unknown product is a foreign-key violation that changes nothing |
| PriceService.RegisterKeepsHistory | backend/services/products-service/src/services/priceService.ts:195-208 | every existing observation stays, in place |
| PriceService.GetPriceHistory | backend/services/products-service/src/services/priceService.ts:22-48 | fails exactly for a NaN or negative limit or one beyond PostgreSQL's `bigint` |
| PriceService.GetPriceHistorySpec | backend/services/products-service/src/services/priceService.ts:22-48 | only observations of the product (and of the store when one is given), newest first, at most `limit`, and none left out is newer than one returned |
| PriceService.GetLatestPrice | backend/services/products-service/src/services/priceService.ts:53-66 | the price of the newest observation of the product at the store, or null exactly when there is none |
| PriceService.ComparePricesStores | backend/services/products-service/src/services/priceService.ts:71-106 | one row per store, and exactly the stores where the product was observed |
| PriceService.ComparePricesLatest | backend/services/products-service/src/services/priceService.ts:74-88 | every row carries the price getLatestPrice gives for its store |
| PriceService.RowIsNewest | backend/services/products-service/src/services/priceService.ts:74-96 | every row is its store's newest observation, with the store's name |
| PriceService.ComparePricesSorted | backend/services/products-service/src/services/priceService.ts:89 | the comparison is cheapest first |
| PriceService.PriceCountIsOne | backend/services/products-service/src/services/priceService.ts:78-88 | priceCount is counted over the one-row-per-store subquery, so it is always 1 |
| PriceService.FindBestPriceSpec | backend/services/products-service/src/services/priceService.ts:213-258 | null exactly when the product has no observation; otherwise the best price is its store's newest and no store's newest price is lower |
| PriceService.ComparisonEmpty | backend/services/products-service/src/services/priceService.ts:71-106 | the comparison is empty exactly when the product was never observed |
| PriceService.GetPriceStats | backend/services/products-service/src/services/priceService.ts:111-151 | null exactly when the product has no observation |
| PriceService.PriceStatsCountStores | backend/services/products-service/src/services/priceService.ts:124-135 | the statistics count as many stores as the comparison has rows |
| ReceiptModel.ReceiptExistsByQRCode | backend/services/receipt-service/src/models/Receipt.ts:223-233 | true exactly when some receipt has that user and that QR code |
| ReceiptModel.ItemRows | backend/services/receipt-service/src/models/Receipt.ts:80-97 | one row per item, with consecutive ids, each belonging to the new receipt whatever receipt id the input carried |
| ReceiptModel.InsertItem | backend/services/receipt-service/src/models/Receipt.ts:82-96 | one item insert appends a row with the next id and the receipt's id, changes no other table, and keeps every key and foreign key valid |
| ReceiptModel.InsertItems | backend/services/receipt-service/src/models/Receipt.ts:80-101 | when every insert goes through, the rows of the items are appended in order and returned; otherwise the first failure is reported |
| ReceiptModel.CreateReceipt | backend/services/receipt-service/src/models/Receipt.ts:50-108 | on commit, one receipt row and one item row per item, in order, and the returned items match the input's length and order; on any failure every table is as before and the error is passed on |
| ReceiptModel.FindReceiptWithItems | backend/services/receipt-service/src/models/Receipt.ts:125-143 | null exactly for an unknown id; otherwise that receipt with its items |
| ReceiptModel.FindReceiptWithItemsSpec | backend/services/receipt-service/src/models/Receipt.ts:133-142 | the items are exactly the receipt's item rows, each as often as in the table, oldest first |
| ReceiptModel.CreateThenFind | backend/services/receipt-service/src/models/Receipt.ts:50-143 | a receipt just created is found with exactly its item rows, in input order |
| ReceiptModel.CreateThenExists | backend/services/receipt-service/src/models/Receipt.ts:223-233 | after a commit the duplicate check sees the new receipt |
| ReceiptModel.SecondUploadRefused | backend/services/receipt-service/src/models/Receipt.ts:50-108 | creating the same QR code twice for one user fails the second time and changes nothing |
| ReceiptModel.BuildReceiptConditions | backend/services/receipt-service/src/models/Receipt.ts:157-183 | the user condition then one per truthy filter; a row passes exactly when it matches the query |
| ReceiptModel.ListUserReceiptsSpec | backend/services/receipt-service/src/models/Receipt.ts:148-206 | only the user's receipts within the inclusive date bounds and with a store name containing the text, newest purchase first, at most `limit`; the total counts every match |
| ReceiptModel.ListUserReceiptsWindow | backend/services/receipt-service/src/models/Receipt.ts:159-199 | the page is the run of ordered matches starting at row (page-1)*limit, `limit` long or up to the last match |
| ReceiptModel.ListUserReceiptsViaConditions | backend/services/receipt-service/src/models/Receipt.ts:157-198 | the clause the builder produces selects the same rows as the filters |
| ReceiptModel.DeleteReceipt | backend/services/receipt-service/src/models/Receipt.ts:208-218 | true exactly when the receipt existed; it and its items are removed and every other row stays in order |
| ReceiptModel.DeleteThenFindNothing | backend/services/receipt-service/src/models/Receipt.ts:211-218 | after a delete the receipt is gone and no remaining item refers to it |
| ReceiptController.UploadFailure | backend/services/receipt-service/src/controllers/receiptController.ts:113-134 | a validation error is 400, an error whose message contains "parse" is 400, anything else is 500 |
| ReceiptController.ParseFailureIsBadRequest | backend/services/receipt-service/src/controllers/receiptController.ts:120-128 | every parser failure is reported as 400 |
| ReceiptController.ProcessItem | backend/services/receipt-service/src/controllers/receiptController.ts:56-71 | one turn of the loop: find or create the item's product, append its unit price at the store, and fill the product into the item; a name that is not a string throws before any write |
| ReceiptController.ProcessItems | backend/services/receipt-service/src/controllers/receiptController.ts:55-72 | items in document order up to the first name that is not a string, each with one find-or-create and one price row; products and prices only grow, receipts and items are untouched |
| ReceiptController.SaveReceipt | backend/services/receipt-service/src/controllers/receiptController.ts:74-87 | exactly when the transaction commits, 201 and the tables become `Created`: the receipt row built from the input and one item row per processed item, filed under it with consecutive ids; the reply describes that receipt (new id, store, total, date, count, time) and each item with its new id, raw name and amounts; otherwise 500 and nothing is written |
| ReceiptController.StoreParsed | backend/services/receipt-service/src/controllers/receiptController.ts:55-87 | the loop processes the items up to the first name that is not a string (each one's product has the item's key, its price row records that product at the store with the unit price) with receipts and items untouched; then the tables become `Created` from the receipt of the parse and those items exactly when every name is a string and it is storable, with a 201 describing the new receipt and items with their new ids, and otherwise stay as the loop left them with a 500 |
| ReceiptController.RowsDescribeDrafts | backend/services/receipt-service/src/controllers/receiptController.ts:63-108 | the reply's receipt is the stored row's id, store name, CNPJ, total, purchase date and creation time with the item count; each item carries its row's id (consecutive after the receipt's), the raw name and the parsed quantity, unit price and total unchanged |
| ReceiptController.UploadedReply | backend/services/receipt-service/src/controllers/receiptController.ts:91-108 | the 201 reply's item count is the number of stored items, listed in stored order |
| ReceiptController.UploadReceipt | backend/services/receipt-service/src/controllers/receiptController.ts:17-136 | 401 without a user, 400 for a schema failure, a duplicate QR code or a parse failure, all with no write; otherwise the loop's per-item product and price writes, then 201 with the tables `Created` from the parsed receipt and the processed items, the reply describing them with their new ids, exactly when every name is a string and it is storable, else 500 with the loop's writes kept |
| ReceiptController.NameFailureIsServerError | backend/services/receipt-service/src/controllers/receiptController.ts:110-134 | the TypeError of a name that is not a string does not mention "parse", so the upload answers 500 "Could not process receipt" |
| ReceiptController.StoredItemsKeyed | backend/services/receipt-service/src/controllers/receiptController.ts:55-87 | after a stored upload the k-th new item row is the k-th processed item under the new receipt, with the parsed item's raw name and unit price, a product whose key is the item's key, and the k-th new price row recording that product at the store with that price |
| ReceiptController.CommitsMeansNoFailure | backend/services/receipt-service/src/controllers/receiptController.ts:35-87 | after the loop the transaction fails exactly when the date is unreadable or a statement fails |
| ReceiptController.ListReceipts | backend/services/receipt-service/src/controllers/receiptController.ts:142-194 | 401 without a user, 400 for a query the schema refuses, else the reply to the validated query |
| ReceiptController.ListReplySpec | backend/services/receipt-service/src/controllers/receiptController.ts:155-178 | 500 exactly when a date does not parse or the bounds are NaN, negative or beyond PostgreSQL's `bigint`; otherwise the user's matching receipts, newest first, the count, and ceil(total/limit) pages covering every match |
| ReceiptController.OwnedReceipt | backend/services/receipt-service/src/controllers/receiptController.ts:202-228 | 401 without a user, 500 for an id that is not a uuid, 404 for an unknown receipt, 403 for another user's, in that order; otherwise the receipt with its items |
| ReceiptController.DetailsOnlyForOwner | backend/services/receipt-service/src/controllers/receiptController.ts:200-256 | details are shown only to the owner, with exactly that receipt's items |
| ReceiptController.RemoveReceipt | backend/services/receipt-service/src/controllers/receiptController.ts:262-305 | the receipt is deleted, with its items, only after both checks pass; every refusal leaves the tables unchanged |
| ReceiptController.OthersReceiptsKept | backend/services/receipt-service/src/controllers/receiptController.ts:284-292 | another user's receipt is refused with 403 by the check that guards the delete |
| Pagination.PagesCoverAll | backend/services/products-service/src/controllers/productController.ts:42 | pages 1..ceil(total/limit) are exactly the non-empty pages |
| SqlText.ILikeContaining | backend/services/products-service/src/models/Product.ts:84-86 | for a search text without `%`, `_` or `\`, ILIKE '%q%' is case-insensitive substring search |
| SqlText.WildcardInSearch | backend/services/products-service/src/models/Product.ts:84-86 | a `%` in the search text matches anything |
| ProductController.ListProductsReply | backend/services/products-service/src/controllers/productController.ts:34-69 | a query the schema refuses gives 400, otherwise the reply to the valid query |
| ProductController.ListPageSpec | backend/services/products-service/src/controllers/productController.ts:37-53 | 500 exactly when the page and limit give no bounds (NaN, negative or beyond PostgreSQL's `bigint`); otherwise matching rows in name order, at most `limit`, the total, and a page count that is null exactly for limit 0 and covers every match |
| ProductController.ListDefaults | backend/services/products-service/src/controllers/productController.ts:37-42 | with no parameters: page 1, limit 20, the total counts every product, and the rows are exactly the first min(20, total) products of the catalogue in name order |
| ProductController.FirstPageUnfiltered | backend/services/products-service/src/controllers/productController.ts:37-42 | page 1 of 20 without filters is the first min(20, total) rows of the catalogue in name order |
| ProductController.ProductDetailsReply | backend/services/products-service/src/controllers/productController.ts:75-103 | 500 for a route id that is not a uuid; otherwise 404 exactly for an unknown id, else the row with statistics null exactly when no item references it |
| ProductController.CreatedRowFields | backend/services/products-service/src/controllers/productController.ts:112-126 | the stored key is the normalised name, the category is the given one when non-empty else the name's category, the unit the given one when non-empty else "UN" |
| ProductController.CategoryNeverEmpty | backend/services/products-service/src/controllers/productController.ts:119 | the category the rules give is never empty, so a created product always has one |
| ProductController.CreateFailure | backend/services/products-service/src/controllers/productController.ts:143-155 | a unique violation is 400 "Product with similar name already exists"; any other database error is 500 |
| ProductController.CreateProductHandler | backend/services/products-service/src/controllers/productController.ts:109-156 | 400 with nothing written for a refused body or a taken key; otherwise 201 with the one appended row |
| ProductController.CreateValidated | backend/services/products-service/src/controllers/productController.ts:115-149 | for a validated body: 400 with nothing written when the name's key is taken, otherwise 201 with one appended row carrying the raw name, the key, the category or the name's category, and the unit or "UN" |
| ProductController.OneRowPerKey | backend/services/products-service/src/controllers/productController.ts:143-149 | after a refused duplicate a single row has the key |
| ProductController.UpdatesOf | backend/services/products-service/src/controllers/productController.ts:167-173 | the key is recomputed exactly when a non-empty name is supplied; the other fields pass through |
| ProductController.KeyFollowsName | backend/services/products-service/src/controllers/productController.ts:165-173 | a name that passes the schema is never empty, so a supplied name always brings its key |
| ProductController.UpdateProductHandler | backend/services/products-service/src/controllers/productController.ts:162-205 | 400 for a refused body; then 500 with no change for a route id that is not a uuid; 404 for an unknown id, 500 with no change for a key of another product, otherwise 200 with only the supplied fields changed |
| ProductController.DeleteFailure | backend/services/products-service/src/controllers/productController.ts:229-242 | a foreign-key violation is 400 "Cannot delete product with existing receipts"; any other error is 500 |
| ProductController.DeleteProductHandler | backend/services/products-service/src/controllers/productController.ts:211-243 | 500 with no change for a route id that is not a uuid, 404 for an unknown id, 400 with nothing removed for a referenced product, otherwise 200 with exactly that row gone |
| ProductController.NormalizeHandler | backend/services/products-service/src/controllers/productController.ts:249-276 | 400 for a refused body; otherwise findOrCreateProduct with the validated name and unit ("UN" by default) |
| ProductController.HistoryReply | backend/services/products-service/src/controllers/productController.ts:282-315 | a refused query gives 400 (before the route id is used), otherwise the reply to the valid query |
| ProductController.HistoryPage | backend/services/products-service/src/controllers/productController.ts:285-298 | 500 exactly for a route id that is not a uuid or a NaN or negative limit or one beyond PostgreSQL's `bigint`; otherwise at most `limit` observations of the product (and store), newest first, with statistics null exactly when it was never observed |
| ProductController.UnobservedHistoryEmpty | backend/services/products-service/src/controllers/productController.ts:282-298 | a never-observed product, known or not, gets 200 with an empty history and null statistics: this route has no 404 |
| ProductController.UnobservedPageEmpty | backend/services/products-service/src/controllers/productController.ts:285-298 | under any valid limit a never-observed product's history is empty with null statistics |
| ProductController.CompareReply | backend/services/products-service/src/controllers/productController.ts:321-354 | 500 for a route id that is not a uuid; otherwise 404 exactly for an unknown id, else the row and each store's latest price |
| ProductController.BestPriceIsCheapest | backend/services/products-service/src/controllers/productController.ts:324-346 | the best price is null exactly when the product was never observed, and otherwise no compared store is cheaper |
| ProductController.TrendDays | backend/services/products-service/src/controllers/productController.ts:363 | the trend window is never 0 days |
| ProductController.TrendDaysDefaults | backend/services/products-service/src/controllers/productController.ts:363 | missing, unparsable and zero values give 30 days; "7days" gives 7 |
| ProductController.TopLimitDefaults | backend/services/products-service/src/controllers/productController.ts:399 | missing, unparsable and zero values give a limit of 10; "25" gives 25 |
| ProductController.UnparsableFallsBack | backend/services/products-service/src/controllers/productController.ts:363 | a value parseInt reads as NaN gives the fallback |
| ProductController.DigitsRead | backend/services/products-service/src/controllers/productController.ts:363 | leading digits are read whatever follows, and a zero falls back |
| ResetTokens.FindValid | backend/services/user-service/src/models/PasswordResetToken.ts:53-66 | a token with that text, unused and expiring after now, or nothing exactly when there is none |
| ResetTokens.FindByValue | backend/services/user-service/src/models/PasswordResetToken.ts:71-82 | a token with that text whatever its used flag or expiry, or nothing exactly when there is none |
| ResetTokens.CountActive | backend/services/user-service/src/models/PasswordResetToken.ts:131-142 | the number of the user's tokens that are unused and expire after now, the predicate findValidToken uses |
| ResetTokens.UseWhere | backend/services/user-service/src/models/PasswordResetToken.ts:87-111 | the selected rows become used; every other row and column stays |
| ResetTokens.TokenStore.Create | backend/services/user-service/src/models/PasswordResetToken.ts:28-48 | appends one unused token of the user, created now and expiring the given hours later (default 1), with an id no earlier row has |
| ResetTokens.TokenStore.MarkUsed | backend/services/user-service/src/models/PasswordResetToken.ts:87-96 | every row with the text becomes used, nothing else changes, and the result is true exactly when there was one |
| ResetTokens.TokenStore.InvalidateUser | backend/services/user-service/src/models/PasswordResetToken.ts:102-111 | every unused token of the user becomes used and the result is how many changed |
| ResetTokens.TokenStore.DeleteExpired | backend/services/user-service/src/models/PasswordResetToken.ts:117-125 | removes exactly the tokens expiring before now and returns how many |
| ResetTokens.MarkUsedIdempotent | backend/services/user-service/src/models/PasswordResetToken.ts:87-96 | marking twice is marking once |
| ResetTokens.MarkedNotValid | backend/services/user-service/src/models/PasswordResetToken.ts:53-96 | after marking, no token with the text is valid but it is still found by value |
| ResetTokens.NoActiveAfterInvalidate | backend/services/user-service/src/models/PasswordResetToken.ts:102-142 | right after invalidation the user has no active token |
| ResetTokens.InvalidateKeepsOthers | backend/services/user-service/src/models/PasswordResetToken.ts:102-111 | other users' active tokens are untouched |
| ResetTokens.InvalidateTwice | backend/services/user-service/src/models/PasswordResetToken.ts:102-111 | a second invalidation changes nothing |
| ResetTokens.CleanupKeepsValid | backend/services/user-service/src/models/PasswordResetToken.ts:117-125 | the cleanup removes no valid token: lookups and counts of valid tokens are unchanged |
| ResetTokens.ExpiryBoundary | backend/services/user-service/src/models/PasswordResetToken.ts:53-125 | a token expiring exactly now is neither valid nor deleted |
| ResetTokens.CreatedIsActive | backend/services/user-service/src/models/PasswordResetToken.ts:28-48 | a token created now with a positive duration is valid at once and the owner's active count grows by one |
| PasswordReset.FindUserByEmail | backend/services/user-service/src/controllers/passwordResetController.ts:27 | the user with that address, or nothing exactly when there is none |
| PasswordReset.UserTable.SetPassword | backend/services/user-service/src/controllers/passwordResetController.ts:209-214 | the hash and updated_at of that user change; every other user stays |
| PasswordReset.ForgotPassword | backend/services/user-service/src/controllers/passwordResetController.ts:20-87 | the same 200 for an unknown address, a user with 3 or more active tokens, and a new token; exactly one one-hour token is created only for a known user below the throttle; a refused body is 400 |
| PasswordReset.Classify | backend/services/user-service/src/controllers/passwordResetController.ts:106-142 | valid when findValidToken finds it; otherwise unknown, used (checked first), expired, or the fall-back case |
| PasswordReset.UsedReportedFirst | backend/services/user-service/src/controllers/passwordResetController.ts:121-135 | a used token is reported as used even when it has also expired |
| PasswordReset.BoundaryExactlyAtExpiry | backend/services/user-service/src/controllers/passwordResetController.ts:137-142 | the fall-back reply is reached exactly for an unused token expiring at now itself |
| PasswordReset.RejectionOf | backend/services/user-service/src/controllers/passwordResetController.ts:112-142 | unknown is 404 "Token inválido", used is 400 "Este token já foi utilizado", expired is 400 asking for a new request, and the fall-back case is 400 "Token inválido" |
| PasswordReset.ValidateResetToken | backend/services/user-service/src/controllers/passwordResetController.ts:93-159 | an empty token is 400, a valid one 200 with valid true, any other its rejection; nothing changes |
| PasswordReset.ResetPassword | backend/services/user-service/src/controllers/passwordResetController.ts:165-260 | with a valid token, the owner's hash is replaced, the token is marked used and every unused token of the owner invalidated; any other token changes no password and no token |
| PasswordReset.ResetSpendsTokens | backend/services/user-service/src/controllers/passwordResetController.ts:216-220 | after a reset the same token is refused as used and the owner has no active token |
| PasswordReset.SpentTokenRefused | backend/services/user-service/src/controllers/passwordResetController.ts:172-190 | once every row with the text is used, the text is refused as used |
| EmailTemplates.SplitJoinInverse | backend/services/user-service/src/services/email.service.ts:49 | splitting on the separator and joining with it gives the text back |
| EmailTemplates.SplitJoin | backend/services/user-service/src/services/email.service.ts:49 | split then join replaces every non-overlapping occurrence, left to right |
| EmailTemplates.AbsentKept | backend/services/user-service/src/services/email.service.ts:49 | a text without the placeholder is kept |
| EmailTemplates.PrefixKept | backend/services/user-service/src/services/email.service.ts:49 | text before the first placeholder is kept as it is |
| EmailTemplates.ReplaceVariables | backend/services/user-service/src/services/email.service.ts:45-52 | for each key in insertion order, every placeholder of the key in the text so far is replaced by its value |
| EmailTemplates.NoVariables | backend/services/user-service/src/services/email.service.ts:45-52 | with an empty map the template is returned unchanged |
| EmailTemplates.UnknownPlaceholdersKept | backend/services/user-service/src/services/email.service.ts:45-52 | a template holding no placeholder of any key comes back unchanged |
| EmailTemplates.FrontendUrl | backend/services/user-service/src/services/email.service.ts:18 | an unset or empty setting falls back to http://localhost:5173 |
| EmailTemplates.ResetLink | backend/services/user-service/src/services/email.service.ts:63 | the link starts with the front-end address followed by "/reset-password/" |
| EmailTemplates.ResetLinkRoundTrip | backend/services/user-service/src/services/email.service.ts:63 | the front end's reset page (its route, outside the mailer) reads back exactly the token the link was built with |
| EmailTemplates.UserNameReplacedAgain | backend/services/user-service/src/services/email.service.ts:45-73 | keys apply in insertion order: a user name that is "{{resetLink}}" is replaced by the link |
| ReceiptValidation.ValidateUpload | backend/services/receipt-service/src/utils/validation.ts:6-12 | accepted exactly when the QR code is a string of 10..1000 characters and the user id a UUID |
| ReceiptValidation.UploadIssuesByField | backend/services/receipt-service/src/utils/validation.ts:6-12 | a refused upload has an issue for each failing field and for no passing one |
| ReceiptValidation.ValidateListQuery | backend/services/receipt-service/src/utils/validation.ts:17-23 | page and limit default to "1" and "10" and go through Number; the filters pass through unchanged |
| ReceiptValidation.ListQueryDefaults | backend/services/receipt-service/src/utils/validation.ts:18-19 | an empty query asks for page 1 of 10 |
| ReceiptValidation.NonNumericPageAccepted | backend/services/receipt-service/src/utils/validation.ts:18 | a page that is not a number is accepted as NaN |
| Zod.NumberWithDefault | backend/services/products-service/src/utils/validation.ts:42-43 | absent gives the default read by Number; a string that is not a number is accepted as NaN |
| ProductValidation.RequiredName | backend/services/products-service/src/utils/validation.ts:7-10 | accepted exactly for a string of 2..255 characters |
| ProductValidation.NullableText | backend/services/products-service/src/utils/validation.ts:11-20 | absent, null, or a string of at most n characters are accepted, anything else refused |
| ProductValidation.ValidateProduct | backend/services/products-service/src/utils/validation.ts:6-21 | name 2..255, category at most 100, unit at most 20 (or null or absent) |
| ProductValidation.ProductIssuesByField | backend/services/products-service/src/utils/validation.ts:6-21 | a refused body has an issue for each failing field and for no passing one |
| ProductValidation.ValidatePatch | backend/services/products-service/src/utils/validation.ts:6-21 | the partial schema: the same checks with the name optional too |
| ProductValidation.PatchAcceptsProduct | backend/services/products-service/src/utils/validation.ts:6-21 | every full body is a valid patch with the same fields |
| ProductValidation.EmptyPatch | backend/services/products-service/src/utils/validation.ts:6-21 | an empty body is a valid patch that supplies nothing |
| ProductValidation.UnitWithDefault | backend/services/products-service/src/utils/validation.ts:31-35 | absent becomes "UN", a string of at most 20 is kept, null is refused |
| ProductValidation.ValidateNormalize | backend/services/products-service/src/utils/validation.ts:26-36 | a name of 2..255 and a unit of at most 20, "UN" by default |
| ProductValidation.ValidateListQuery | backend/services/products-service/src/utils/validation.ts:41-46 | page and limit default to "1" and "20" through Number; search and category optional |
| ProductValidation.ValidateHistoryQuery | backend/services/products-service/src/utils/validation.ts:51-54 | the limit defaults to "30" through Number; the store is optional |
| ProductValidation.ListQueryDefaults | backend/services/products-service/src/utils/validation.ts:42-43 | an empty query asks for page 1 of 20, unfiltered |
| ProductValidation.HistoryQueryDefaults | backend/services/products-service/src/utils/validation.ts:52 | an empty query asks for at most 30 observations of every store |
| UserValidation.CheckedEmail | backend/services/user-service/src/utils/validation.ts:7-11 | accepted exactly for a string in the e-mail format of 5..255 characters |
| UserValidation.ValidateRegister | backend/services/user-service/src/utils/validation.ts:6-21 | the e-mail as above, a password of 6..100 and a name of 2..100 ASCII letters and white space |
| UserValidation.ValidateLogin | backend/services/user-service/src/utils/validation.ts:26-29 | an e-mail in the format, of any length, and a non-empty password |
| UserValidation.ValidateUpdate | backend/services/user-service/src/utils/validation.ts:34-46 | an optional name of 2..100 characters with no letters-only rule and an optional e-mail as at registration |
| UserValidation.EmailMinRedundant | backend/services/user-service/src/utils/validation.ts:9-10 | every address in the format has at least six characters, so `.min(5)` never decides |
| UserValidation.JoaoRejected | backend/services/user-service/src/utils/validation.ts:20-39 | "João" is refused at registration and accepted by the profile update |
| UserValidation.RegisteredCanLogIn | backend/services/user-service/src/utils/validation.ts:6-29 | credentials accepted at registration are accepted at login |
| UserValidation.EmptyUpdate | backend/services/user-service/src/utils/validation.ts:34-46 | an empty update body is valid and supplies nothing |
| AnalyticsValidation.EnumField | backend/services/analytics-service/src/utils/validation.ts:7 | absent takes the default, one of the options is kept, anything else is refused with one issue on the field; another string gets Zod's `Invalid enum value. Expected 'a' \| 'b', received 'x'` text |
| AnalyticsValidation.BoundedInt | backend/services/analytics-service/src/utils/validation.ts:14 | accepted exactly for an integer in 1..max; NaN is refused |
| AnalyticsValidation.ValidateSummary | backend/services/analytics-service/src/utils/validation.ts:6-8 | the period is day, week, month or year, "month" by default |
| AnalyticsValidation.ValidateTopProducts | backend/services/analytics-service/src/utils/validation.ts:13-16 | a limit in 1..100 (10 by default) and a period of week, month, year or all ("all" by default) |
| AnalyticsValidation.ValidateSpendingTrend | backend/services/analytics-service/src/utils/validation.ts:21-24 | days in 1..365 (30 by default) and a grouping of day, week or month ("day" by default) |
| AnalyticsValidation.ValidateStoresCompare | backend/services/analytics-service/src/utils/validation.ts:29-32 | a limit in 1..50 (10 by default) and an optional product UUID |
| AnalyticsValidation.Defaults | backend/services/analytics-service/src/utils/validation.ts:6-32 | an empty query yields every schema's defaults |
| AnalyticsValidation.EmptyCountRefused | backend/services/analytics-service/src/utils/validation.ts:13-24 | an empty or null count is refused, since Number gives 0, which is not positive |
| AnalyticsValidation.DayNotTopPeriod | backend/services/analytics-service/src/utils/validation.ts:15 | "day" is refused as a top-products period |

## Left out

- XML text parsing (xml2js) is not modelled. The parser starts from the tree, and the stored XML text is a parameter of the upload.
- `extractURL` is not modelled, because it relies on the WHATWG URL parser.
- `fetchNFCeXML` is the fixed mock document. The network fetch it stands in for does not exist in the code.
- The remote `/normalize` call of `callProductsService` is a parameter: its answer, or its failure.
- `getTopProducts`, `getPriceTrend`, and the replies of the trend and top-products handlers are not modelled. They are SQL aggregates with float averages and DATE_TRUNC. Only the handlers' `parseInt(...) || default` choices are modelled.
- ProductModel.GetProductStats: only the null case and the count of distinct purchasing receipts (`totalPurchases`) are stated. The averages, minimum, maximum and last-purchase values are floating-point aggregates.
- PriceService.GetPriceStats: only the null case and the store count are stated. The average, minimum, maximum and the price count are floating-point aggregates.
- Time is an abstract integer `now`. The database clock (`NOW()`, `CURRENT_TIMESTAMP`) and the application clock (`new Date()`) are the same value, and daylight-saving time and time zones are not modelled.
- Date parsing is a parameter `parseDate`, for both `new Date(text)` and PostgreSQL's timestamp input. An unreadable date makes the insert or the query fail.
- `parseFloat` is modelled in units of 1/10000: further fraction digits are dropped, and exponents, `Infinity` and hexadecimal forms are not modelled.
- `Number` reads a signed run of decimal digits. A fraction, an exponent, a hexadecimal, octal or binary literal (`"0x10"`) and `"Infinity"` are read as NaN, although JavaScript gives a number for each; these texts reach the `transform(Number)` and `z.coerce.number()` fields.
- JavaScript `toLowerCase` is modelled for ASCII and Latin-1 letters only. NFD is modelled for the accented Latin-1 lower-case letters; other characters are their own decomposition.
- String length is counted in UTF-16 code units, two for a character from U+10000 up (JsText.Utf16Length). A JavaScript string holding a lone surrogate cannot be written: a model character is a Unicode scalar value.
- Pagination.Bounds, PriceService.GetPriceHistory, ProductModel.ListProductsSpec, ReceiptModel.ListUserReceiptsSpec, ProductController.ListPageSpec, ProductController.HistoryPage, ReceiptController.ListReplySpec: page, limit and offset are exact integers. JavaScript's `Number` rounds integers above 2^53, so for such texts the bound PostgreSQL receives, and whether it fits `bigint`, can differ from the model's.
- Text order (`ORDER BY name`) is code-point order, not a collation. Ties keep table order (a stable sort) in every ordered read where PostgreSQL promises no order among equals: `name` in ProductModel.ListProductsSpec, `recorded_at DESC` in PriceService.GetPriceHistorySpec, `purchase_date DESC` in ReceiptModel.ListUserReceiptsSpec, `created_at` in ReceiptModel.FindReceiptWithItemsSpec and the price in PriceService.ComparePricesSorted.
- A read that takes one row without an ORDER BY takes the first row in table order, where PostgreSQL promises no particular row: the store name of a comparison row (PriceService.StoreNameOf, the `LIMIT 1` of the LATERAL join), the token lookups (ResetTokens.First) and the user found by e-mail (PasswordReset.FindUserByEmail). The e-mail lookup is unique only if the schema makes it so.
- SqlText.Like: a pattern ending in a lone backslash is matched as if it were an ordinary character, where PostgreSQL raises an error. The queries' `%text%` patterns end in `%`, so it does not arise there.
- ILIKE is LIKE over the lower-cased text. A search text holding `%`, `_` or `\` acts as a pattern, as in the code (SqlText.WildcardInSearch).
- The schema is not among the source files. The model assumes:
  - a unique index on `products.normalized_name` and on `receipts (user_id, qr_code_data)`;
  - foreign keys from price rows and receipt items to `products` that restrict deletes;
  - a foreign key from receipt items to `receipts` that cascades.
- Statement failures other than constraint violations are an injected `failAt` position in the receipt transaction. Elsewhere they are a database error value the reply mapping handles; connection loss and pg error texts are not modelled.
- Concurrency is not modelled: every request runs alone, so the find-or-create race between two uploads does not arise.
- Non-string leaf values are converted with JavaScript's `String()`. What pg would store for an object instead is not modelled. An item name that is an object or an array is not stored: `name.toLowerCase` throws in the upload's loop (ReceiptController.ProcessItem), which then answers 500 and keeps the earlier items' writes.
- AnalyticsValidation.Coerce: an array or object query value (a repeated or nested parameter) is taken as NaN, not as what `Number([...])` would give.
- The Zod e-mail and UUID formats follow Zod 3.22's patterns without internationalised domains. Zod's exact issue texts for type errors are not carried.
- Hashing is a parameter: the hash of the new password is given. Token generation is a parameter too: the new token's text is given, and its uniqueness is not assumed.
- E-mail sending is left out. Its success is a parameter that does not change the reply. The confirmation e-mail after a reset is fire-and-forget and not modelled.
- The forgot-password and reset-password schemas are not among the source files. The body is an `Option` of the validated fields, `None` for a refused body.
- The 500 replies of the password handlers are not modelled: their only causes are database and mailer failures.
- `Object.keys` order is the order of the variable list given to replaceVariables.
- The success messages of the 201 and 200 replies are not carried in the payloads. Failure replies carry their texts.
- UploadReceipt, StoreParsed: the item loop's product and price writes are stated per item, as the product with the item's key and the price row with that product, store and unit price. The other columns of a created product (its id, unit and time) and of a price row (its date and receipt link) are stated by FindOrCreateProduct and RegisterPrice but not carried up to these handlers.
- The HTTP server, the gateway, the JWT middlewares and the frontend are left out. The authenticated user id is a parameter.

## Findings

| source | as written | input that shows it | evidently intended | confidence | as-written member | corrected member |
|---|---|---|---|---|---|---|
| backend/services/products-service/src/services/normalizationService.ts:181 | the unit alternation tries "pc" before "pct", so the match stops after "pc" | "1PCT" gives "1pc" | "1pct", since "pct" is listed as a unit | not executed | NormalizationService.PctNeverExtracted, NormalizationService.ExtractOnePct | NormalizationService.ExtractUnitLongestFirst, NormalizationService.EveryUnitReachable, NormalizationService.ExtractOnePctFixed |
