# Point-of-sale stores, modelled in Dafny

This project models the state logic of a small point-of-sale web app. It covers:

- the sale store: the active sale, parked drafts, a capped history of paid sales, line items merged by product and add-on set, and totals with tax;
- the catalog store: products and their add-ons, grouped by category, with a built-in default catalog;
- the `clampInt` helper that normalises quantities;
- localisation: `{name}` interpolation, message lookup with fallback, text direction, and the stored locale;
- the confirmation dialog;
- the toast list.

The pure helpers are functions with lemmas. The stores, whose actions reassign fields step by step, are classes whose methods state the whole new state.

Modules, one per file:

- `Types` (`types.dfy`): the records of the app (`Product`, `Addon`, `LineItem`, `Sale`, `Payment`), `Option`, and `Patch`. A `Patch` is one field of a shallow merge: kept or set.
- `Lists` (`lists.dfy`): the list idioms the stores use on records keyed by id:
  - `filter` by key is `Without` and `Only`;
  - `findIndex` / `find` by key is `FindKey`;
  - `reduce` to a sum is `SumOf`.
- `Order` (`order.dfy`): the default `Array.prototype.sort` order on strings. It holds a sort, its uniqueness on permutations, and `join`.
- `Money` (`money.dfy`): `Math.trunc` and `clampInt`.
- `SaleLogic` (`sale.dfy`): the pure part of the sale store, namely the modifier signature, the upsert of a line, the totals, the quantity edit and the capped history.
- `PosStore` (`pos_store.dfy`): the sale store's actions on a `PosStore` object. The lifecycle invariant `Valid` states three things, and every action preserves it:
  - the active sale and the drafts are open drafts with distinct lines;
  - the history holds only paid sales;
  - the history holds at most 50 of them.
- `Catalog` (`catalog.dfy`): the catalog store.
- `I18n` (`i18n.dfy`): interpolation, lookup, locale and direction.
- `Confirmation` (`confirmation.dfy`): the dialog store. The promise resolver is the number of the request waiting for an answer. Settling it appends an `Answer` to `delivered`.
- `Toasts` (`toast.dfy`): the toast store.

Fresh ids and the current time are parameters of the actions that need them.

## Model

| member | source | states |
|---|---|---|
| SaleLogic.SignatureOfNoModifiers | src/stores/pos.ts:29-30 | absent and empty modifier lists both have the empty signature |
| SaleLogic.SignatureOrderIndependent | src/stores/pos.ts:29-36 | two modifier lists with the same add-on ids (as a multiset) have the same signature, whatever the selection order |
| Order.Sort | src/stores/pos.ts:34 | the sorted ids are in ascending string order and are a permutation of the input |
| Order.SortPermutationInvariant | src/stores/pos.ts:31-35 | sorting two permutations of one list gives the same list, so the joined signature depends only on the multiset of ids |
| SaleLogic.Signature | src/stores/pos.ts:29-36 | the sorted add-on ids joined with ","; its properties are stated by SignatureOfNoModifiers (empty for no add-ons) and SignatureOrderIndependent (independent of selection order) |
| SaleLogic.PriceWithMods | src/stores/pos.ts:38-41 | base price plus every add-on price; stated for the new line by AddNewProduct and for the totals by UpsertTotals |
| SaleLogic.Upsert | src/stores/pos.ts:43-64 | find the first line with the same product and signature, bump it or append a new one; stated by AddMatchingProduct, AddNewProduct, UpsertKeepsDistinct, UpsertTotals and UpsertQtyFor |
| SaleLogic.ItemCount | src/stores/pos.ts:83-85 | the sum of the quantities; stated by UpsertTotals and AddRepeatedlyMerges |
| SaleLogic.Subtotal | src/stores/pos.ts:86-88 | the sum of unit price times quantity; stated by UpsertTotals and TwoAddsExample |
| SaleLogic.TotalCents | src/stores/pos.ts:92-94 | subtotal plus rounded tax; stated by TwoAddsExample, and for the store by PosStore.PosStore.ActiveTotalCents |
| SaleLogic.QtyEdit | src/stores/pos.ts:120-125 | the clamped quantity edit; stated by QtyEditBelowOne, QtyEditAtLeastOne, QtyEditExamples, QtyEditUnknownLine and QtyEditKeepsDistinct |
| SaleLogic.CreateSale | src/stores/pos.ts:14-23 | a draft with the given id, both times set to the given time, no items; stated by the store's NewSale, ParkActiveSale, PayActiveSale and ClearAllData |
| SaleLogic.Touch | src/stores/pos.ts:25-27 | only the update time changes; stated by ParkActiveSale (same id and items) |
| SaleLogic.Settle | src/stores/pos.ts:159-167 | the sale stamped paid with its payment; stated by PosStore.PosStore.PayActiveSale |
| Order.LexLe | src/stores/pos.ts:34 | string order of the default sort; LexLeReflexive, LexLeTotal, LexLeAntisymmetric and LexLeTransitive make it a total order |
| Order.Join | src/stores/pos.ts:35 | `join` with a separator; used only through Signature |
| SaleLogic.AddonIds | src/stores/pos.ts:32 | the id list has one entry per add-on, in order |
| SaleLogic.AddMatchingProduct | src/stores/pos.ts:43-63 | when line `i` is the first with the same product and signature, the list keeps its length, line `i` gains exactly one unit and nothing else of it changes, and every other line is unchanged |
| SaleLogic.AddNewProduct | src/stores/pos.ts:38-57 | with no matching line, exactly one line is appended at the end: the fresh id, the product, qty 1, the base price plus every add-on price; modifiers are stored only when non-empty |
| SaleLogic.NewLineKey | src/stores/pos.ts:49-56 | a new line is keyed by the product and the signature it was added with |
| SaleLogic.UpsertKeepsDistinct | src/stores/pos.ts:43-64 | adding a product never creates two lines with the same product and signature, and afterwards a line for it exists |
| SaleLogic.UpsertTotals | src/stores/pos.ts:43-88 | adding a product raises the item count by exactly one, and raises the subtotal by the unit price of the line it lands on |
| SaleLogic.UpsertQtyFor | src/stores/pos.ts:43-64 | adding a product adds one unit for its product and add-on set and none for any other |
| SaleLogic.AddRepeatedlyInvariant | src/stores/pos.ts:112-118 | repeated adds of one product keep the lines distinct and add one unit per add |
| SaleLogic.AddRepeatedlyMerges | src/stores/pos.ts:112-118 | adding a product `n >= 1` times to a sale without it leaves exactly one line for it, of quantity `n` |
| SaleLogic.TaxCents | src/stores/pos.ts:89-91 | the tax is the subtotal times the rate in basis points, rounded to the nearest cent with halves rounding up |
| SaleLogic.TwoAddsExample | src/stores/pos.ts:38-94 | a 5.00 product with a 1.50 add-on added twice gives one line of 2 at 6.50; at 800 basis points, a subtotal of 13.00 gives tax 1.04 and total 14.04 |
| SaleLogic.WithQty | src/stores/pos.ts:125 | every line with the id gets the new quantity and every other line is unchanged, position by position |
| SaleLogic.QtyEditBelowOne | src/stores/pos.ts:120-124 | a quantity that clamps to 0 removes exactly the lines with that id and keeps the rest |
| SaleLogic.QtyEditAtLeastOne | src/stores/pos.ts:120-125 | a quantity of one or more sets the truncated quantity, or 999 for a quantity of 1000 or more, on the lines with that id only; length and the other lines are unchanged |
| SaleLogic.QtyEditExamples | src/stores/pos.ts:121-125 | 1000 becomes 999; -5 and 0 remove the line |
| SaleLogic.QtyEditUnknownLine | src/stores/pos.ts:120-125 | an unknown line id leaves the items unchanged, whatever the quantity |
| SaleLogic.QtyEditKeepsDistinct | src/stores/pos.ts:120-125 | editing a quantity keeps the lines distinct |
| SaleLogic.RecordPaid | src/stores/pos.ts:168 | the new history starts with the paid sale, has at most 50 entries, and continues with a prefix of the old history |
| SaleLogic.RecordPaidEvictsOldest | src/stores/pos.ts:168 | with 50 entries already, the oldest one is dropped |
| Lists.Without | src/stores/pos.ts:131 | `filter` by id: exactly the entries with another id remain; without a match the list is unchanged, and with one it shrinks |
| Lists.WithoutAppend | src/stores/pos.ts:153 | filtering keeps the relative order: it distributes over concatenation |
| Lists.WithoutIdempotent | src/stores/pos.ts:153 | removing the same id a second time removes nothing more |
| Lists.FindKey | src/stores/pos.ts:144 | `findIndex`: the first index whose key matches, or none exactly when no entry matches |
| Lists.WithoutKeepsDistinct | src/stores/pos.ts:131 | removing entries keeps the remaining entries distinct |
| PosStore.PosStore.constructor | src/stores/pos.ts:67-80 | each persisted part is taken when present, and a fresh sale, empty drafts and empty history otherwise; the tax rate is 800 and the store is hydrated; a fresh store is valid |
| PosStore.PosStore.ActiveItemCount | src/stores/pos.ts:83-85 | the active sale's item count; PosStore.PosStore.AddProduct states that it rises by one |
| PosStore.PosStore.ActiveSubtotalCents | src/stores/pos.ts:86-88 | the active sale's subtotal; ActiveTaxCents and ActiveTotalCents are stated against it |
| PosStore.PosStore.ActiveTaxCents | src/stores/pos.ts:89-91 | the active sale's tax is within half a cent of the exact tax |
| PosStore.PosStore.ActiveTotalCents | src/stores/pos.ts:92-94 | the total exceeds the subtotal by the rounded tax |
| PosStore.PosStore.Persist | src/stores/pos.ts:97-105 | once hydrated, a version-1 snapshot of the active sale, drafts and history is saved; otherwise nothing changes |
| PosStore.PosStore.NewSale | src/stores/pos.ts:107-110 | the active sale becomes a fresh empty draft; the rest is unchanged and persisted |
| PosStore.PosStore.AddProduct | src/stores/pos.ts:112-118 | the items become the upsert of the product, the sale is stamped, and the item count rises by one; validity is preserved |
| PosStore.PosStore.SetLineQty | src/stores/pos.ts:120-128 | the items become the clamped quantity edit; validity is preserved |
| PosStore.PosStore.RemoveLine | src/stores/pos.ts:130-133 | the lines with that id are removed; validity is preserved |
| PosStore.PosStore.ParkActiveSale | src/stores/pos.ts:135-141 | an empty sale changes nothing; otherwise the sale, with the same id and items, heads the drafts, and a fresh empty sale becomes active |
| PosStore.PosStore.ResumeDraft | src/stores/pos.ts:143-150 | an unknown id changes nothing; otherwise the first such draft becomes the active sale and every draft with that id leaves the drafts |
| PosStore.PosStore.DeleteDraft | src/stores/pos.ts:152-155 | the drafts with that id are removed and the rest keep their order |
| PosStore.PosStore.PayActiveSale | src/stores/pos.ts:157-171 | an empty sale changes nothing; otherwise the history is headed by the sale paid for its total, holds at most 50 entries followed by a prefix of the old history, and a fresh empty sale becomes active |
| PosStore.PosStore.ClearAllData | src/stores/pos.ts:173-178 | a fresh sale, no drafts and no history, which is valid |
| Money.Trunc | src/pos/money.ts:13 | `Math.trunc` rounds toward zero |
| Money.ClampInt | src/pos/money.ts:12-14 | the result is at least `min`; at most `max` when `min <= max`; the truncated value when that is in range; `min` below the range; `max` above it; `min` when `max < min` |
| Money.ClampIntOfInteger | src/pos/money.ts:13 | an integer already in range comes back unchanged |
| Money.ClampIntIdempotent | src/pos/money.ts:13 | clamping a clamped value changes nothing |
| Catalog.DefaultProductIds | src/stores/catalog.ts:6-46 | the default catalog has eight products with distinct ids |
| Catalog.DefaultCategories | src/stores/catalog.ts:6-46 | the default catalog's categories are Coffee, Drinks, Bakery and Food |
| Catalog.CategoryOf | src/stores/catalog.ts:83 | the category, or "Uncategorized" when absent or empty; stated by InExactlyOneGroup |
| Catalog.InExactlyOneGroup | src/stores/catalog.ts:83-85 | a product lies in the group of a category exactly when that is its category, or "Uncategorized" when it has none |
| Catalog.GroupOfConcatenation | src/stores/catalog.ts:82-85 | a group keeps the catalog order |
| Catalog.GroupStep | src/stores/catalog.ts:83-85 | one loop step pushes the product onto its category's group, creating the group when needed, and keeps the grouping exact |
| Catalog.CatalogStore.ProductsByCategory | src/stores/catalog.ts:80-88 | there is one non-empty group per category that occurs, holding exactly that category's products in catalog order |
| Catalog.CatalogStore.constructor | src/stores/catalog.ts:76-78 | the store starts from the loaded catalog |
| Catalog.CatalogStore.AddProduct | src/stores/catalog.ts:95-104 | exactly one product is appended, under the fresh id, with add-ons defaulting to an empty list; it is returned and the earlier products are unchanged |
| Catalog.MergeProduct | src/stores/catalog.ts:110 | a merge never changes the id; each of name, sku, price, category and add-on list becomes the patch's value when the patch carries it and stays as it was otherwise; an empty patch changes nothing |
| Catalog.CatalogStore.UpdateProduct | src/stores/catalog.ts:106-113 | an unknown id changes nothing; otherwise only the first product with that id is merged and keeps its id |
| Catalog.CatalogStore.DeleteProduct | src/stores/catalog.ts:115-118 | the products with that id are removed and the rest keep their order |
| Catalog.CatalogStore.AddAddon | src/stores/catalog.ts:120-129 | a missing product changes nothing; otherwise the new add-on is appended to its add-on list, an absent list read as empty |
| Catalog.MergeAddon | src/stores/catalog.ts:134 | merging keeps the add-on id; name and price become the patch's values when it carries them and stay as they were otherwise |
| Catalog.PatchAddons | src/stores/catalog.ts:134 | each add-on with the matching id becomes its merge with the patch, every other add-on stays as it was; ids, length and order are kept; with no match nothing changes |
| Catalog.CatalogStore.UpdateAddon | src/stores/catalog.ts:131-136 | a missing product, or one without an add-on list, changes nothing; otherwise the product's add-ons are patched |
| Catalog.CatalogStore.DeleteAddon | src/stores/catalog.ts:138-143 | the add-ons with that id are removed; an emptied list becomes absent; a missing product, or one without add-ons, changes nothing |
| Catalog.CatalogStore.ResetToDefault | src/stores/catalog.ts:145-148 | the products become the built-in default catalog |
| I18n.InterpolateWithoutVars | src/i18n/index.ts:15 | without variables the template is returned unchanged |
| I18n.TokenAtShape | src/i18n/index.ts:16 | a token found is `{`, one or more word characters and `}` |
| I18n.WordPrefixMaximal | src/i18n/index.ts:16 | the name matched is the longest run of word characters |
| I18n.ScanPlainChar | src/i18n/index.ts:16 | a character other than an opening brace is copied |
| I18n.ScanPlainText | src/i18n/index.ts:16 | text without an opening brace is copied unchanged |
| I18n.ScanStrayBrace | src/i18n/index.ts:16 | an opening brace that does not start a `{word}` token is copied, and scanning goes on right after it |
| I18n.DoubledBraceExample | src/i18n/index.ts:16 | "{{a}}" with `a` set to "x" becomes "{x}" |
| I18n.TokenAtSplit | src/i18n/index.ts:16 | a string that starts with a token is that token followed by the rest |
| I18n.ScanToken | src/i18n/index.ts:16 | a token is replaced by its value, or kept when there is none, and scanning resumes after it |
| I18n.InterpolateSplice | src/i18n/index.ts:14-17 | the text before a token is kept, the token is substituted and the rest is interpolated on its own |
| I18n.InterpolateEmptyVars | src/i18n/index.ts:16 | with an empty variable map every token stays as written |
| I18n.NoRescanExample | src/i18n/index.ts:16 | a substituted value that looks like a token is not scanned again |
| I18n.EmptyValueExample | src/i18n/index.ts:16 | an empty string value still replaces its token |
| I18n.TokenAt | src/i18n/index.ts:16 | the token a string starts with, if any; stated by TokenAtShape, TokenAtSplit and ScanToken |
| I18n.Scan | src/i18n/index.ts:16 | one left-to-right pass of the global replace; stated by ScanPlainText, ScanPlainChar, ScanStrayBrace and ScanToken |
| I18n.Interpolate | src/i18n/index.ts:14-17 | the template unchanged without variables, else one scan; stated by InterpolateWithoutVars, InterpolateEmptyVars, InterpolateSplice and the examples |
| I18n.Decimal | src/i18n/index.ts:16 | `String(n)` of an integer in decimal |
| I18n.Translate | src/i18n/index.ts:44-47 | the looked-up message, interpolated; stated by Lookup and the interpolation lemmas |
| I18n.I18nState.T | src/i18n/index.ts:44-47 | Translate with the current locale |
| I18n.Lookup | src/i18n/index.ts:45 | the active locale's message, else the English one, else the key |
| I18n.ArabicFallsBackToEnglish | src/i18n/index.ts:45 | a key missing in Arabic shows what English shows |
| I18n.InitialLocale | src/i18n/index.ts:19-27 | the start locale is Arabic exactly when "ar" is stored; anything else gives English |
| I18n.InitialLocaleRoundTrip | src/i18n/index.ts:22 | a stored locale code reads back as that locale |
| I18n.DirOf | src/i18n/index.ts:33 | right-to-left exactly for Arabic |
| I18n.I18nState.constructor | src/i18n/index.ts:32 | the locale starts as the initial locale read from the stored code |
| I18n.I18nState.Dir | src/i18n/index.ts:33 | the current direction is right-to-left exactly when the locale is Arabic |
| I18n.I18nState.SetLocale | src/i18n/index.ts:35-36 | the locale becomes the chosen one |
| Confirmation.ConfirmationStore.constructor | src/stores/confirmation.ts:22-30 | closed, empty title and message, labels "Confirm"/"Cancel", variant danger, nothing pending, nothing answered |
| Confirmation.ConfirmationStore.Ask | src/stores/confirmation.ts:32-41 | opens the dialog with the given title and message and the defaults for omitted options; the new request replaces any pending one, and nothing is answered |
| Confirmation.ConfirmationStore.Confirm | src/stores/confirmation.ts:43-46 | a pending request receives `true`, then the dialog is back in its initial state |
| Confirmation.ConfirmationStore.Cancel | src/stores/confirmation.ts:47-50 | a pending request receives `false`, then the dialog is back in its initial state |
| Confirmation.ConfirmationStore.Reset | src/stores/confirmation.ts:51-59 | every field returns to its initial value |
| Confirmation.SecondAskSupersedesFirst | src/stores/confirmation.ts:32-46 | after two questions and one confirmation, only the second request has been answered |
| Toasts.ToastStore.constructor | src/stores/toast.ts:22-24 | no toasts |
| Toasts.ToastStore.Show | src/stores/toast.ts:26-33 | exactly one toast is appended at the end with the message, tone defaulting to neutral and timeout to 2200 ms; earlier toasts are unchanged |
| Toasts.ToastStore.Dismiss | src/stores/toast.ts:36-38 | exactly the toasts with that id are removed, the rest stay in order; an unknown id changes nothing |
| Toasts.DismissUndoesShow | src/stores/toast.ts:26-38 | showing a toast with a fresh id and then dismissing it restores the list |
| Toasts.DismissOtherKeepsShown | src/stores/toast.ts:33-37 | dismissing another id keeps the new toast last |

## Left out

- Persistence is not modelled beyond recording the snapshot the sale store would write. This covers `src/pos/storage.ts`, the catalog's `loadCatalog`, `saveCatalog` and `_persist`, and the locale in `localStorage`. That is browser I/O, JSON parsing and `try`/`catch`. The catalog store starts from whatever catalog was loaded, and the sale store starts from an optional snapshot.
- PosStore.PosStore.constructor: validity is promised only for a store without a snapshot. A persisted snapshot is taken as read and not checked.
- Id and time generation (`now`, `newId`, `newProductId`, `newAddonId`, the toast `id()`) is nondeterministic. Ids and times are parameters. `payActiveSale` reads the clock three times, but the model uses one time per action.
- `formatMoney` is left out: it is floating-point division and locale formatting.
- The timer in the toast `show` is left out. `Dismiss` is what the timer calls.
- The Promise in the confirmation `ask` is left out. Only the state transitions and the answer each request receives are modelled.
- The document `lang`/`dir` watcher, the server-side `window` check, the Vue `inject` wrapper, app bootstrap and routing are left out.
- The message tables are a parameter, because the messages module is not part of this model. `I18nState.T` composes lookup and interpolation, and its properties are those of `Lookup` and `Interpolate`.
- Floating-point numbers are left out. A quantity is a real number with no NaN or infinity. The tax uses exact integer rounding, while the source uses floating-point division. Values that are `null` or `undefined` at run time, and JavaScript prototype keys in the variable map and in the message tables, are left out. Interpolated numbers are integers written in decimal, so the source's exponent notation for huge values is not modelled.
- Order.Sort: it orders strings by code point. The source's default `sort` compares UTF-16 code units, and the two orders differ only for characters outside the Basic Multilingual Plane.
- Catalog.CatalogStore.ProductsByCategory: the source groups into a plain object, so a category named after a member every object inherits ("constructor", "toString", "valueOf", "hasOwnProperty", "__proto__" and the like) finds a non-array there and the `push` throws a TypeError; the model has no such names and groups that product like any other.
- Catalog.CatalogStore.ProductsByCategory: the groups form a map, so the insertion order of the record's keys is not modelled.
- SaleLogic.QtyFor: the quantity grows without bound on repeated adds, as in the source. The 999 cap applies only to a quantity that is set explicitly.
