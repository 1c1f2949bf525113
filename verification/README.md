# CruchCount core, modelled in Dafny

CruchCount is a small point-of-sale desktop application. It has a product
catalog in one SQLite table (`products`, keyed by barcode) and a cashier's
cart that is filled by scanning or typing barcodes. This project models the
application's core and proves properties of it:

- **The catalog store** (`cruchcount/db.py`). The table is a map from
  barcode to row. A logical clock stands in for `updated_at`. The module has:
  - the upsert, as a method on a `Database` object;
  - exact lookup;
  - search, as a specification function. Search is modelled together with
    SQLite's `LIKE` and `LIMIT` semantics.
- **The cart page** (`cruchcount/ui/pages/cart_page.py`). The cart is a
  `CartPage` object whose `lines` field stands for the insertion-ordered
  `cart_items` dictionary. Its methods mirror the page's handlers:
  - add by barcode, with the unknown-product dialog;
  - the totals loop of `_render_table`;
  - clear, decrease and remove;
  - checkout;
  - scan and manual entry.

  The pure effect of each edit is a function on the lines. Lemmas relate each
  edit to the dictionary view (`LineOf`, `KeyOrder`) and to the two totals.
- **The inventory page** (`cruchcount/ui/pages/inventory_page.py`). It covers:
  - form validation, upsert and the "existed" flag of `save_product`;
  - the form reset;
  - the catalog prefill of `_on_barcode_editing_finished`.

Files:

| file | module | contents |
|---|---|---|
| `wrappers.dfy` | `Wrappers` | `Option` |
| `pricing.dfy` | `Pricing` | cents, the spin-box range and its clamping |
| `text.dfy` | `Text` | Python `str.strip`, `split(" \| ", 1)[0]`, barcode extraction, placeholder names |
| `like.dfy` | `SqlLike` | SQLite `LIKE` without ESCAPE, and its meaning for `q%` and `%q%` |
| `catalog.dfy` | `Catalog` | rows, lookup, upsert (`Put`, `Database.UpsertProduct`) |
| `search.dfy` | `CatalogSearch` | newest-first order, rank classes, `LIMIT`, `search_products` |
| `cart_lines.dfy` | `CartLines` | cart lines as values, totals, add/decrement/remove and their lemmas |
| `cart_page.dfy` | `CartPage` | the `CartPage` class and its handlers |
| `inventory.dfy` | `InventoryPage` | form reading and the `InventoryPage` class |

Conventions:

- Money is whole cents (`int`). Both spin boxes accept 0.01 to 999999.99 and
  start at 1.00, which is `[1, 99999999]` cents with a default of 100.
- A dialog's answer or a table selection is a parameter:
  - `tempPrice: Option<int>` is the unknown-product dialog: `None` when it
    is cancelled, otherwise the accepted price.
  - `confirmed: bool` is a Yes/No question.
  - `selected: Option<string>` is the selected row's barcode.
- The catalog's CHECK constraint and its timestamps are the invariant
  `TableOk`. It holds whenever the `Database` object is valid.
- Definitions used by the contracts without rows of their own:
  `CartLines.KeyOrder` is the dictionary's keys in insertion order,
  `CatalogSearch.Products` turns result barcodes into result records,
  `CatalogSearch.Rank` is the `CASE` sort class (its meaning is
  `RankMeaning`), and `CartLines.Total` is the row-by-row sum (its
  properties are the `Total*` lemmas and `RenderTotals`).

Facts about the code that the model keeps:

- Search is ASCII-case-insensitive: SQLite's default `LIKE` folds ASCII
  letters only.
- `%` and `_` typed into a query act as wildcards, because the query is not
  escaped. `Rank` uses `Like` itself, and `RankMeaning` states the plain
  prefix or substring reading for wildcard-free queries only.
- The store does not reject an empty barcode or name. Only the inventory
  form refuses blanks (`ReadForm`). The cart never writes to the store.
- There is no set-quantity operation in the code. The cart table is
  read-only, and quantities change only through add, decrease and remove.

## Model

| member | source | states |
|---|---|---|
| `Pricing.SpinBoxValue` | cruchcount/ui/pages/inventory_page.py:44-47 | the value a spin box holds is always in [1, 99999999] cents; an in-range value is kept, one below or above becomes the bound |
| `Text.TrimStart` | cruchcount/ui/pages/cart_page.py:144 | removing leading whitespace never lengthens the text and leaves it empty or starting with a non-space character |
| `Text.TrimStartDrops` | cruchcount/ui/pages/cart_page.py:144 | trimming the front removes only whitespace and keeps the rest of the text as it was |
| `Text.TrimEnd` | cruchcount/ui/pages/cart_page.py:144 | removing trailing whitespace never lengthens the text and leaves it empty or ending with a non-space character |
| `Text.TrimEndDrops` | cruchcount/ui/pages/cart_page.py:144 | trimming the back removes only whitespace and keeps the rest of the text as it was |
| `Text.Strip` | cruchcount/ui/pages/cart_page.py:144 | `strip()` is empty exactly when the text is all whitespace, and otherwise neither starts nor ends with whitespace |
| `Text.StripSlice` | cruchcount/ui/pages/cart_page.py:144 | `strip()` returns a contiguous slice of the text, starting where the leading whitespace ends, with only whitespace before it and only whitespace after it |
| `Text.StripIdempotent` | cruchcount/ui/pages/cart_page.py:152 | stripping a stripped text changes nothing |
| `Text.UntouchedByStrip` | cruchcount/ui/pages/cart_page.py:152 | a text with non-space ends is its own strip |
| `Text.BeforeSeparator` | cruchcount/ui/pages/cart_page.py:155 | `split(" \| ", 1)[0]` is a prefix of the text that ends at the first separator, or is the whole text when there is none |
| `Text.BeforeSeparatorClean` | cruchcount/ui/pages/cart_page.py:155 | the text before the first separator contains no separator |
| `Text.SliceClean` | cruchcount/ui/pages/inventory_page.py:116 | a slice of a separator-free text is separator-free |
| `Text.ExtractBarcode` | cruchcount/ui/pages/cart_page.py:151-156 | the barcode read from an entry is empty exactly when the entry is blank, so a non-blank manual entry always adds a non-empty barcode; it has no whitespace at either end and never holds the separator |
| `Text.ExtractBarcodeIdempotent` | cruchcount/ui/pages/inventory_page.py:116-118 | the barcode written back into the field by editing-finished reads back as the same barcode |
| `Text.ExtractFromSuggestion` | cruchcount/ui/pages/cart_page.py:155-164 | a suggestion line `barcode \| name \| ¥price` yields its barcode, for every barcode a field can yield except one ending in `" \|"` |
| `Text.PlaceholderName` | cruchcount/ui/pages/cart_page.py:196 | a placeholder name is the temporary-product label followed by the last four characters of the barcode, or by the whole barcode when it is shorter |
| `SqlLike.Like` | cruchcount/db.py:71-77 | a `LIKE` pattern without `%` or `_` matches exactly the texts of its length that equal it with ASCII letters folded |
| `SqlLike.PercentMatchesAll` | cruchcount/db.py:77 | the pattern `%` matches every text |
| `SqlLike.LikePrefix` | cruchcount/db.py:71-77 | for a wildcard-free query, `barcode LIKE q%` holds exactly when the barcode starts with q (ASCII letters compared without case) |
| `SqlLike.LikeContains` | cruchcount/db.py:71-77 | for a wildcard-free query, `name LIKE %q%` holds exactly when q occurs somewhere in the name (ASCII letters compared without case) |
| `Catalog.Lookup` | cruchcount/db.py:45-51 | a lookup finds a product exactly when the barcode is stored, and then returns that barcode with the stored name and price |
| `Catalog.Put` | cruchcount/db.py:31-43 | after an upsert the lookup of its barcode returns exactly the written product, every other lookup is unchanged, the row is the newest, and the CHECK and timestamp invariant is kept |
| `Catalog.Database.Open` | cruchcount/db.py:18-29 | a store opened on rows that meet the table constraints is valid and holds those rows |
| `Catalog.Database.UpsertProduct` | cruchcount/db.py:21-43 | a write succeeds exactly when the price is positive (`CHECK(price > 0)`); a successful one is `Put` at the current clock and advances the clock, a refused one changes nothing; validity is kept |
| `Catalog.LastWriteWins` | cruchcount/db.py:36-39 | two upserts of one barcode leave the same table as the second alone |
| `CatalogSearch.NewestExists` | cruchcount/db.py:60 | every non-empty set of stored barcodes has a newest row |
| `CatalogSearch.Newest` | cruchcount/db.py:60 | the row picked first by `ORDER BY updated_at DESC` is one no other row of the set is newer than |
| `CatalogSearch.ByRecency` | cruchcount/db.py:56-64 | the blank-query order lists only stored barcodes |
| `CatalogSearch.ByRecencyFacts` | cruchcount/db.py:56-64 | `ORDER BY updated_at DESC` lists every stored barcode exactly once, newest first |
| `CatalogSearch.RankMeaning` | cruchcount/db.py:71-77 | the sort class is 0 exactly for barcode-prefix matches and 1 exactly for name-only matches |
| `CatalogSearch.Select` | cruchcount/db.py:72-74 | one sort class holds only stored rows of that class |
| `CatalogSearch.SelectFacts` | cruchcount/db.py:72-74 | one sort class keeps exactly the rows of that class, once each, still newest first |
| `CatalogSearch.Hits` | cruchcount/db.py:67-79 | the unlimited result lists only stored barcodes |
| `CatalogSearch.HitsMembers` | cruchcount/db.py:53-79 | the unlimited result holds exactly the rows the `WHERE` clause matches, and every row for a blank query |
| `CatalogSearch.HitsOrder` | cruchcount/db.py:56-75 | the unlimited result holds no row twice and is ordered by the `CASE` class, then newest first |
| `CatalogSearch.HitsFacts` | cruchcount/db.py:53-79 | the unlimited result holds exactly the matching rows (every row for a blank query), once each, barcode matches before name-only matches and newest first within each |
| `CatalogSearch.Take` | cruchcount/db.py:75 | `LIMIT n` keeps a prefix of at most n rows, cut short only at exactly n; a negative limit keeps everything |
| `CatalogSearch.Search` | cruchcount/db.py:53-79 | a search returns at most `limit` products (any number for a negative limit), each exactly as stored |
| `CatalogSearch.SearchSound` | cruchcount/db.py:53-79 | every returned product is a stored, matching row; no barcode is returned twice; the order is class first, then newest |
| `CatalogSearch.SearchComplete` | cruchcount/db.py:53-79 | at most `limit` rows come back, and a matching row is left out only when the result is full of rows that precede it |
| `CatalogSearch.UpsertedComesFirst` | cruchcount/db.py:31-64 | a product just written is the first result of any search that finds it by barcode, including the blank-query listing |
| `CartLines.Subtotal` | cruchcount/ui/pages/cart_page.py:35-37 | a line holding at least one unit at a positive price has a positive subtotal |
| `CartLines.LineOf` | cruchcount/ui/pages/cart_page.py:244 | `cart_items.get` returns a line filed under the barcode that is in the cart, and `None` exactly when no line is filed under it |
| `CartLines.Find` | cruchcount/ui/pages/cart_page.py:178 | finds the first line filed under a barcode, or reports that no line is |
| `CartLines.FindSameKeys` | cruchcount/ui/pages/cart_page.py:179 | editing a line's fields in place does not move any key |
| `CartLines.FindAt` | cruchcount/ui/pages/cart_page.py:178 | a barcode first held at position i is found at i |
| `CartLines.FindUnique` | cruchcount/ui/pages/cart_page.py:178 | in a cart with one line per barcode, each line is the one found for its barcode |
| `CartLines.Without` | cruchcount/ui/pages/cart_page.py:249 | deleting a key keeps exactly the other keys |
| `CartLines.WithoutAbsent` | cruchcount/ui/pages/cart_page.py:259 | deleting a key that is absent leaves the key order unchanged |
| `CartLines.WithoutAt` | cruchcount/ui/pages/cart_page.py:260 | deleting a key held once, at position i, closes the gap and keeps the order |
| `CartLines.AddOne` | cruchcount/ui/pages/cart_page.py:178-186 | adding a unit always changes the cart and adds at most one line, a one-unit line with the given name and price |
| `CartLines.Decremented` | cruchcount/ui/pages/cart_page.py:244-249 | decreasing deletes at most one line, and every line of another barcode is one the cart held |
| `CartLines.Removed` | cruchcount/ui/pages/cart_page.py:259-260 | removing deletes at most one line, and every line left is one the cart held |
| `CartLines.TotalUpdate` | cruchcount/ui/pages/cart_page.py:206-208 | replacing one line changes a total by exactly the difference of that line's values |
| `CartLines.TotalErase` | cruchcount/ui/pages/cart_page.py:206-208 | deleting one line takes exactly that line's value off a total |
| `CartLines.TotalAppend` | cruchcount/ui/pages/cart_page.py:206-208 | appending a line adds exactly its value to a total |
| `CartLines.TotalsBounds` | cruchcount/ui/pages/cart_page.py:264-270 | a valid cart holds at least one unit per line; it is empty exactly when it holds no units; a non-empty cart's amount is positive |
| `CartLines.AddOneEffect` | cruchcount/ui/pages/cart_page.py:178-186 | adding a unit raises an existing line by one and keeps its name and price, or appends a one-unit line; no other line changes; validity is kept |
| `CartLines.AddOneTotals` | cruchcount/ui/pages/cart_page.py:178-186 | adding a unit adds one to the quantity and that line's unit price to the amount |
| `CartLines.DecrementEffect` | cruchcount/ui/pages/cart_page.py:244-249 | decreasing an absent barcode changes nothing; otherwise its line loses one unit, and a line at one unit is deleted; no other line changes |
| `CartLines.ErasePositions` | cruchcount/ui/pages/cart_page.py:249 | after deleting the line at i, each later line moves down by one |
| `CartLines.EraseEffect` | cruchcount/ui/pages/cart_page.py:249 | deleting the line at i removes that barcode and leaves every other line and its order, keeping validity |
| `CartLines.EraseKeys` | cruchcount/ui/pages/cart_page.py:249 | deleting the line at i deletes exactly its key from the key order |
| `CartLines.EraseLookup` | cruchcount/ui/pages/cart_page.py:249 | deleting the line at i leaves the lookup of every other barcode unchanged |
| `CartLines.DecrementTotals` | cruchcount/ui/pages/cart_page.py:244-249 | decreasing a held barcode takes one unit and one unit price off the totals |
| `CartLines.RemoveEffect` | cruchcount/ui/pages/cart_page.py:259-260 | removing deletes the barcode's line, if any, and leaves every other line and its order |
| `CartLines.RemoveTotals` | cruchcount/ui/pages/cart_page.py:259-260 | removing a line takes its quantity and its subtotal off the totals |
| `CartLines.AddTwiceFromEmpty` | cruchcount/ui/pages/cart_page.py:171-186 | the same barcode added twice to an empty cart makes one line of two units at the first add's price |
| `CartPage.ResolveUnknown` | cruchcount/ui/pages/cart_page.py:189-198 | the dialog yields a product exactly when it is accepted, under the barcode, at the typed price and with the placeholder name |
| `CartPage.AfterAdd` | cruchcount/ui/pages/cart_page.py:171-186 | an add leaves the cart as it was exactly when the lookup missed and the dialog was cancelled |
| `CartPage.AddByBarcodeEffect` | cruchcount/ui/pages/cart_page.py:171-198 | the catalog is consulted on every add; a miss with a cancelled dialog leaves the cart as it was; otherwise the line gains a unit, or a new line gets the catalog's name and price or the placeholder name and the dialog's price; validity is kept |
| `CartPage.CartPage.constructor` | cruchcount/ui/pages/cart_page.py:78 | a new page has an empty cart |
| `CartPage.CartPage.AddByBarcode` | cruchcount/ui/pages/cart_page.py:171-187 | the new lines are the add of the resolved product to the old lines, and validity is kept |
| `CartPage.CartPage.RenderTotals` | cruchcount/ui/pages/cart_page.py:200-217 | the row-by-row loop computes exactly the total quantity and total amount of the lines |
| `CartPage.CartPage.ClearCart` | cruchcount/ui/pages/cart_page.py:219-226 | the question is asked exactly when the cart is non-empty, and the cart is emptied exactly on Yes |
| `CartPage.CartPage.DecreaseSelected` | cruchcount/ui/pages/cart_page.py:238-251 | with no selection only the hint is shown; otherwise the selected barcode is decremented |
| `CartPage.CartPage.RemoveSelected` | cruchcount/ui/pages/cart_page.py:253-262 | with no selection only the hint is shown; otherwise the selected barcode's line is removed |
| `CartPage.CartPage.Checkout` | cruchcount/ui/pages/cart_page.py:264-280 | an empty cart is refused unchanged; otherwise the summary shows the cart's totals (at least one unit, positive amount) and Yes empties the cart |
| `CartPage.CartPage.OnScanSubmitted` | cruchcount/ui/pages/cart_page.py:143-149 | a blank scan changes nothing; otherwise the stripped scan is added |
| `CartPage.CartPage.OnManualSubmitted` | cruchcount/ui/pages/cart_page.py:151-159 | a blank entry changes nothing; otherwise the barcode read from the entry is added |
| `InventoryPage.ReadForm` | cruchcount/ui/pages/inventory_page.py:76-85 | the form is refused for a blank barcode field, then for a blank name, and for nothing else; otherwise it yields the extracted barcode and the stripped name, both non-empty |
| `InventoryPage.SuggestionMisread` | cruchcount/ui/pages/inventory_page.py:76 | the form accepts the barcode `x \|`, and the suggestion line built from it reads back as `x` |
| `InventoryPage.ReadFormListed` | cruchcount/ui/pages/inventory_page.py:76-85 | the corrected form reading refuses exactly the barcodes ending in `" \|"` and otherwise reads the form as `ReadForm` does |
| `InventoryPage.ListedReadsBack` | cruchcount/ui/pages/inventory_page.py:101-105 | every barcode the corrected form reading accepts comes back out of any suggestion line built from it |
| `InventoryPage.InventoryPage.constructor` | cruchcount/ui/pages/inventory_page.py:42-47 | a new form is empty with the price at 1.00 |
| `InventoryPage.InventoryPage.SetPrice` | cruchcount/ui/pages/inventory_page.py:44-47 | the price field holds the clamped value and the other fields are untouched |
| `InventoryPage.InventoryPage.SaveProduct` | cruchcount/ui/pages/inventory_page.py:75-99 | a refused form changes nothing; otherwise the upsert succeeds, the message says "overwritten" exactly when the barcode was already stored, and the form is reset |
| `InventoryPage.InventoryPage.OnBarcodeEditingFinished` | cruchcount/ui/pages/inventory_page.py:111-122 | a blank field is left alone; otherwise the field shows the extracted barcode and, for a stored product, its name and clamped price |
| `InventoryPage.SaveThenReopen` | cruchcount/ui/pages/inventory_page.py:75-122 | after a save, typing the saved barcode back reads the same barcode, shows exactly the saved name and price, and saving again writes the same product |

## Findings

| source | as written | input that shows it | evidently intended | confidence | as-written member | corrected member |
|---|---|---|---|---|---|---|
| cruchcount/ui/pages/inventory_page.py:76 | `save_product` stores any non-blank barcode the field yields, including one ending in `" \|"`, while the suggestion lines (inventory_page.py:104, cart_page.py:164) are read back by cutting at the first `" \| "` | barcode field `x \|`, name `n`: the stored barcode is `x \|`, and its suggestion line `x \| \| n \| ¥1.00` reads back as `x` | every saved product can be picked back from its own suggestion line | not executed | `InventoryPage.SuggestionMisread` | `InventoryPage.ListedReadsBack` |

## Left out

- SQLite itself is not modelled: file creation, connections, `commit`, and I/O or storage errors. The store is a map, and the only refused write is one that breaks the price check.
- `Catalog.Database.UpsertProduct`: a write with `price <= 0` raises `sqlite3.IntegrityError` from the `CHECK(price > 0)` constraint in the source. The model returns `ok == false` and leaves the store unchanged; the exception and its propagation to the caller are not modelled.
- `updated_at` is the local wall-clock time `datetime('now', 'localtime')` with one-second resolution. The model uses a logical clock that every successful upsert advances, so a row written by `UpsertProduct` is strictly newer than every other row. Rows already in the store when it is opened (`Database.Open`) may share a timestamp, as rows written in the same second can in SQLite.
- `CatalogSearch.UpsertedComesFirst` holds for the logical clock only. With real timestamps it fails in two cases: rows written in the same second tie and come back in an order SQLite does not define, and local time can go backwards (the end of daylight saving time, a clock set back), so a row written later can sort after older rows under `ORDER BY updated_at DESC`.
- Prices are floats in the source and whole cents here. Binary rounding of `price * quantity` and of the sums, and the `:.2f` formatting, are not modelled.
- Widget work is not modelled: table cells, labels, focus, message-box texts and clearing the entry fields after submission. The handlers' effects on the cart and on the form fields are modelled.
- `_update_suggestions` and `_update_barcode_suggestions` fill the completer from a search limited to 20 rows. Search itself is modelled (`CatalogSearch.Search`), but the completer lists and their contains-filter are not.
- `_selected_barcode` is not modelled. The selected row becomes the `selected` parameter.
- `CartItem` is a value here. The source mutates the object held in the dictionary, but no reference to it escapes the page, so the effect is the same.
- `CatalogSearch.Search` orders rows with equal timestamps by an unspecified choice (`Newest`), as SQLite leaves their order undefined. Such ties can only be among rows present at `Open`; no upsert creates one.
- `CatalogSearch.RankMeaning` reads the query as a plain prefix or substring only when it contains no `%` or `_`. Queries with wildcards are covered by `Like` itself, not by a simpler reading.
- The dialogs' Qt event loops are not modelled. Their answers are parameters.
- `InventoryPage.InventoryPage.SaveProduct` uses the form reading as written (`ReadForm`), so the page model keeps the behaviour shown under "Findings"; the corrected reading `ReadFormListed` stands beside it.
- `app.py` and `main_window.py` only build windows, so they are not part of this model.
