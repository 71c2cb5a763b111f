# bw-flip-app calculators in Dafny

This project models the three calculators of a house-flipping web app:

- **RehabCalc** estimates a rehab budget. The base is square footage times a
  per-square-foot rate for the scope (light, mid, gut). On top come
  switchable line items: HVAC at a flat cost, every other item at a rate
  times square footage. Estimates are saved in a store keyed by the trimmed
  address, and older saves are migrated when they are loaded.
- **Max Offer** computes four offer tiers from the ARV (after-repair value)
  and a rehab amount. It keeps a list of saved offers, upserted by
  normalised address. It can pull a rehab total from a RehabCalc save.
- **ProfitCalc** computes base costs, financing and carry, gross and net
  profit and the margins of a deal. It keeps a list of saved deals by id.
  It can pull the ARV from Max Offer. Its rehab pull reads RehabCalc's
  saves as a list, but they are an object keyed by address, so as written
  the pull never fills the rehab field (see Findings).

The shared modules model the JavaScript they rely on:

- `Results`: `Option` and `Outcome`. An alert is `Outcome.Alert(message)`.
- `JsText`: `trim`, ASCII `toLowerCase`, the default string order of
  `sort`, and `Object.keys(store).sort()`.
- `JsArray`: `Array.prototype.filter`.
- `JsNumber`: the pages' `toNumber` helpers over `parseFloat`, and
  `String(number)` for amounts.

Each page is a class. Its fields are the React state plus the stored data
the page reads or writes. Browser inputs are parameters:

- a `confirm(...)` answer is `confirmed: bool`;
- `Date.now()` is `freshId`;
- the enumeration order of `Object.keys` is `keyOrder`;
- the contents of `localStorage` are an `Option` (None when nothing is
  stored) of the parsed value.

Derived values are pure functions: the rehab total, the tiers and the
profit figures.

## Model

| member | source | states |
|---|---|---|
| JsText.Trim | src/pages/RehabCalc.jsx:134 | `trim` never lengthens the text; `TrimShape` says exactly what it cuts |
| JsText.TrimShape | src/pages/RehabCalc.jsx:134 | `trim` cuts exactly the leading and trailing white space; what is left neither starts nor ends with white space |
| JsText.TrimBlank | src/pages/RehabCalc.jsx:134-138 | an address trims to empty, and saving is refused, exactly when it is all white space |
| JsText.TrimIdempotent | src/pages/MaxOffer.jsx:434 | trimming a trimmed address changes nothing |
| JsText.Lower | src/pages/MaxOffer.jsx:434 | `toLowerCase` keeps the length and maps each character on its own |
| JsText.LowerIdempotent | src/pages/MaxOffer.jsx:185 | lower-casing twice is lower-casing once, and no ASCII capital is left |
| JsText.StrLessTransitive | src/pages/RehabCalc.jsx:103 | the string order of `sort()` is transitive |
| JsText.StrLessTotal | src/pages/RehabCalc.jsx:103 | any two distinct keys are ordered one way or the other |
| JsText.SortedKeyListUnique | src/pages/RehabCalc.jsx:142 | the sorted key list is determined by the set of keys |
| JsArray.FilterMembers | src/pages/MaxOffer.jsx:175 | `filter` keeps exactly the accepted elements |
| JsArray.FilterAppend | src/pages/ProfitCalc.jsx:97 | `filter` keeps order: the filter of a concatenation is the concatenation of the filters |
| JsText.SortedKeys | src/pages/RehabCalc.jsx:103-104 | `Object.keys(store).sort()` is strictly increasing, holds exactly the keys, and starts with the least key |
| JsNumber.NatToDecimalValue | src/pages/MaxOffer.jsx:164 | the decimal text of a number reads back as that number |
| JsNumber.IntToStringInjective | src/pages/MaxOffer.jsx:164 | `String(id)` of two ids is equal exactly when the ids are |
| JsNumber.Clean | src/pages/RehabCalc.jsx:79 | the cleaned text holds only digits, `.` and `-`, and is no longer than the input |
| JsNumber.CleanIdempotent | src/pages/MaxOffer.jsx:7 | cleaning cleaned text changes nothing |
| JsNumber.CleanAppend | src/pages/MaxOffer.jsx:7 | cleaning distributes over concatenation |
| JsNumber.CleanRunsIsClean | src/pages/ProfitCalc.jsx:6 | removing runs of other characters (`+` in the pattern) gives the same text as removing them one by one |
| JsNumber.ScanNumeral | src/pages/MaxOffer.jsx:8 | `parseFloat` finds a number exactly when the cleaned text starts with one, and that number is well formed |
| JsNumber.ScanNumeralOfPrefix | src/pages/MaxOffer.jsx:8 | `parseFloat` reads a numeral followed by anything that does not extend it (no digit next, and no `.` and digit after a numeral without fraction digits) as exactly that numeral |
| JsNumber.ScanNumeralSplits | src/pages/MaxOffer.jsx:8 | what `parseFloat` reads is a prefix of the cleaned text that the rest does not extend: the longest numeric prefix |
| JsNumber.ToNumberOfNumeralPrefix | src/pages/MaxOffer.jsx:5-10 | a numeral followed by text whose cleaned form does not extend it reads as the numeral's value; the rest is ignored |
| JsNumber.ToNumberPrefixExamples | src/pages/MaxOffer.jsx:5-10 | "100-", "5.", "1.2.3" and "12-3" read as 100, 5, 1.2 and 12 |
| JsNumber.ToNumber | src/pages/MaxOffer.jsx:5-10 | `null`/`undefined` and text that does not start with a number read as 0 |
| JsNumber.ToNumberProfit | src/pages/ProfitCalc.jsx:4-8 | a missing value and text whose cleaned form does not start with a number read as 0 |
| JsNumber.ToNumberVariantsAgree | src/pages/ProfitCalc.jsx:4-8 | ProfitCalc's `toNumber` agrees with the other pages' on every input |
| JsNumber.ToNumberIgnoresNoise | src/pages/RehabCalc.jsx:77-82 | characters that are not digits, `.` or `-` do not change the value read |
| JsNumber.ToNumberOfNumeral | src/pages/MaxOffer.jsx:5-10 | a well formed decimal numeral reads back as its value |
| JsNumber.ToNumberCurrencyExample | src/pages/RehabCalc.jsx:77-82 | "$45,000.50" reads as 45000.5 |
| JsNumber.ToNumberZeroExamples | src/pages/MaxOffer.jsx:5-10 | "abc", "" and a missing value read as 0 |
| JsNumber.NumberToString | src/pages/MaxOffer.jsx:198 | `String(total)` is non-empty text of digits, `.` and `-` that starts with `-` exactly for a negative amount |
| JsNumber.ToNumberOfNumberToString | src/pages/MaxOffer.jsx:198 | `String(total)` reads back as the total, for totals with at most 20 decimals |
| Rehab.RateByKey | src/pages/RehabCalc.jsx:90-98 | light 10, mid 20, gut 45 per square foot; any other scope gives 0 |
| Rehab.Total | src/pages/RehabCalc.jsx:99-124 | the estimate is sf times 10, 20 or 45 for light, mid or gut plus the switched-on items; for any other scope only the items |
| Rehab.TogglesTotalAppend | src/pages/RehabCalc.jsx:116-123 | the toggles total of two lists is the sum of their totals |
| Rehab.TogglesTotalPointwise | src/pages/RehabCalc.jsx:116-123 | the total depends only on each item's contribution |
| Rehab.NothingIncluded | src/pages/RehabCalc.jsx:116-117 | with no item switched on the toggles add 0 |
| Rehab.EditItems | src/pages/RehabCalc.jsx:108-112 | `updateItem` sets the one field of the items with that id; every other item and field is kept |
| Rehab.EditUnknownId | src/pages/RehabCalc.jsx:108-112 | an id no item has changes nothing |
| Rehab.ToggleChangesTotal | src/pages/RehabCalc.jsx:108-124 | switching an item takes its old contribution out of the total and adds its amount when switched on |
| Rehab.ClearItems | src/pages/RehabCalc.jsx:126-127 | clear switches every item off with cost 0 and keeps its id, name and rate |
| Rehab.ClearedTotalIsZero | src/pages/RehabCalc.jsx:126-130 | after clear the estimate is 0 |
| Rehab.TotalExample | src/pages/RehabCalc.jsx:99-124 | 1000 sf at mid with Roof at 8 per sf and HVAC at 5000 is 33000 |
| Rehab.StoredItems | src/pages/RehabCalc.jsx:140 | the saved items are the live items, field by field, in order |
| Rehab.MigrateItem | src/pages/RehabCalc.jsx:175-182 | after migration every item has a rate and an HVAC item a cost |
| Rehab.MigrateDefaults | src/pages/RehabCalc.jsx:175-182 | missing id, name, included, rate and cost take the documented defaults |
| Rehab.MigrateStored | src/pages/RehabCalc.jsx:140-182 | a saved item migrates back with its id, name, switch and contribution |
| Rehab.Names | src/pages/RehabCalc.jsx:185 | the set of names is exactly the names in the list |
| Rehab.NextIdBase | src/pages/RehabCalc.jsx:186 | `Math.max(0, ...ids)` is at least 0, at least every id, and 0 or one of the ids |
| Rehab.MissingMembers | src/pages/RehabCalc.jsx:188-192 | the items added are the catalog items whose names are absent |
| Rehab.RenumberIds | src/pages/RehabCalc.jsx:190 | added items are numbered on from the start id |
| Rehab.MissingIsFilter | src/pages/RehabCalc.jsx:188-192 | the items added are the catalog filtered by the absent names, in catalog order |
| Rehab.EnsuredProperties | src/pages/RehabCalc.jsx:184-193 | stored items come first and unchanged; every catalog name is present; the additions are, in catalog order, the catalog items whose names the stored items lack, numbered on from one above the largest id; the list is never empty |
| Rehab.CatalogWithoutIds | src/pages/RehabCalc.jsx:7-14 | the catalog up to ids, both directions |
| Rehab.EnsureCatalog | src/pages/RehabCalc.jsx:184-193 | the `forEach` loop produces exactly the merged list |
| Rehab.AddMissing | src/pages/RehabCalc.jsx:187-192 | pushing each catalog item whose name is absent, with ids `nextIdBase + 1`, `+ 2`, ..., appends exactly the renumbered missing items |
| Rehab.LoadItems | src/pages/RehabCalc.jsx:175-193 | the items the load builds are the migrated items completed from the catalog, with every catalog name and a rate on every item but HVAC |
| Rehab.LoadedScope | src/pages/RehabCalc.jsx:198 | a loaded scope is never empty |
| Rehab.LoadedItemsValid | src/pages/RehabCalc.jsx:168-193 | a loaded project has every catalog item, and every non-HVAC item has a rate |
| Rehab.SaveLoadKeepsTotal | src/pages/RehabCalc.jsx:133-199 | saving then loading gives back sf, scope and the estimate |
| Rehab.RehabCalc.constructor | src/pages/RehabCalc.jsx:84-106 | a fresh page shows the catalog and selects the least saved key |
| Rehab.RehabCalc.UpdateItem | src/pages/RehabCalc.jsx:108-112 | only the items change, as `EditItems` says |
| Rehab.RehabCalc.SetSf | src/pages/RehabCalc.jsx:327 | the square-footage field is read through `toNumber` |
| Rehab.RehabCalc.SetScope | src/pages/RehabCalc.jsx:332 | the scope select sets the scope and nothing else |
| Rehab.RehabCalc.Clear | src/pages/RehabCalc.jsx:126-130 | items cleared, sf 0, scope light, estimate 0 |
| Rehab.RehabCalc.SaveProject | src/pages/RehabCalc.jsx:133-145 | blank address alerts and changes nothing; else the snapshot is stored under the trimmed address, which becomes selected, and the key list stays sorted |
| Rehab.RehabCalc.DeleteCurrent | src/pages/RehabCalc.jsx:148-165 | the two alerts, a declined confirm, and the removal with the re-selection of the first key |
| Rehab.RehabCalc.LoadSelected | src/pages/RehabCalc.jsx:168-199 | no selection or no record does nothing; else address, migrated items, sf and scope are loaded |
| Rehab.RehabCalc.DeleteSelected | src/pages/RehabCalc.jsx:202-213 | removes the selected record after a confirm and selects the first remaining key |
| MaxOffer.RateByScope | src/pages/MaxOffer.jsx:28-32 | mid 20, gut 45, anything else 10 |
| MaxOffer.ComputeRehabTotalFromRecord | src/pages/MaxOffer.jsx:35-51 | a missing record is 0; a record without items is sf times the scope rate |
| MaxOffer.RecordTogglesOfStored | src/pages/MaxOffer.jsx:42-48 | the `reduce` over a RehabCalc save equals RehabCalc's toggles total |
| MaxOffer.MigratedToggles | src/pages/MaxOffer.jsx:42-48 | the `reduce` over any stored items equals RehabCalc's toggles total of the same items after migration |
| MaxOffer.RecordTotalOfLoaded | src/pages/MaxOffer.jsx:35-51 | for any stored record, the recomputed total is the estimate RehabCalc shows after loading it, plus 10 per sf when the scope is not light, mid or gut |
| MaxOffer.RecordTotalOfSnapshot | src/pages/MaxOffer.jsx:35-51 | the total recomputed from a save is RehabCalc's estimate, plus 10 per sf when the scope is unknown |
| MaxOffer.Tiers | src/pages/MaxOffer.jsx:123-130 | four tiers at LTV 0.8, 0.75, 0.7, 0.65: ARV times LTV, and that less rehab |
| MaxOffer.TiersDecrease | src/pages/MaxOffer.jsx:123-130 | for a non-negative ARV both figures fall from tier to tier |
| MaxOffer.TiersExample | src/pages/MaxOffer.jsx:123-130 | ARV 300000 and rehab 50000 give 240000/190000 at 80% and 195000/145000 at 65% |
| MaxOffer.FindIndexByAddress | src/pages/MaxOffer.jsx:433-435 | the first index whose trimmed lower-cased address matches, else -1 |
| MaxOffer.MergeEntry | src/pages/MaxOffer.jsx:438 | the new fields replace the old ones and a truthy old id is kept |
| MaxOffer.Upsert | src/pages/MaxOffer.jsx:432-442 | a match is replaced in place and the rest kept; otherwise the item is prepended |
| MaxOffer.UpsertKeepsNormUnique | src/pages/MaxOffer.jsx:432-442 | distinct normalised addresses stay distinct |
| MaxOffer.UpsertThenFind | src/pages/MaxOffer.jsx:432-442 | after an upsert the address is found with the fields just saved |
| MaxOffer.UpsertTwice | src/pages/MaxOffer.jsx:432-442 | saving the same address twice adds at most one entry; the second save rewrites the first one's entry in place and keeps its id unless that id is 0 |
| MaxOffer.FindById | src/pages/MaxOffer.jsx:164 | the first entry whose `String(id)` is the selection, or none has it |
| MaxOffer.FilterOutIdAppend | src/pages/MaxOffer.jsx:175 | deleting keeps the other entries in their order: it distributes over concatenation, and a single entry stays exactly when its id text differs |
| MaxOffer.DeleteById | src/pages/MaxOffer.jsx:175 | removing by the text of an id removes exactly that id |
| MaxOffer.FirstMatchingKey | src/pages/MaxOffer.jsx:185-191 | the first key that matches after trim and lower-case, or none does |
| MaxOffer.ResolveRehabKey | src/pages/MaxOffer.jsx:188-192 | an explicit pick wins; else, for a non-blank address, the first key that matches it, or none |
| MaxOffer.MatchedKeyNotBlank | src/pages/MaxOffer.jsx:188-194 | a resolved key is never empty |
| MaxOffer.MaxOfferPage.constructor | src/pages/MaxOffer.jsx:82-117 | empty form, persisted list, sorted rehab keys, first key picked |
| MaxOffer.MaxOfferPage.ClearValues | src/pages/MaxOffer.jsx:133-137 | ARV and rehab emptied, everything else kept |
| MaxOffer.MaxOfferPage.ResetForm | src/pages/MaxOffer.jsx:138-144 | form and selection emptied, lists and pick kept |
| MaxOffer.MaxOfferPage.SaveProject | src/pages/MaxOffer.jsx:147-161 | blank address alerts; else the list is upserted with the trimmed address and keeps its addresses distinct |
| MaxOffer.MaxOfferPage.LoadSelected | src/pages/MaxOffer.jsx:163-171 | an unknown id alerts; else the saved fields are loaded and a saved source becomes the pick |
| MaxOffer.MaxOfferPage.DeleteSelected | src/pages/MaxOffer.jsx:173-179 | no selection alerts; else the entries with that id go and the selection is cleared |
| MaxOffer.MaxOfferPage.PullRehab | src/pages/MaxOffer.jsx:182-204 | both alerts; else rehab becomes `String(total)` of the chosen record (read back by `JsNumber.ToNumberOfNumberToString`) and the source key is kept |
| Profit.Compute | src/pages/ProfitCalc.jsx:143-169 | base costs plus gross profit is the ARV; net profit is gross profit less points, interest, draw fees, utilities and taxes |
| Profit.LoanOverride | src/pages/ProfitCalc.jsx:152-154 | a positive manual loan wins; otherwise the loan is purchase times LTV |
| Profit.EmptyLoanUsesLtv | src/pages/ProfitCalc.jsx:152-154 | an empty loan field reads as 0 and the LTV loan applies |
| Profit.ProfitBreakdown | src/pages/ProfitCalc.jsx:143-169 | each displayed line is its input (ARV, purchase, rehab) or its percentage of its base (closing on buy of the purchase, closing on sell of the ARV, contingency of the rehab), and the monthly interest is the loan times APR/1200; base costs are the purchase, rehab and three percentage lines, without financing; points are the points percentage of the loan, interest accrues monthly on the loan over the carry months, draw fees are draws times the draw amount, and utilities and taxes are each their monthly amount times the carry months |
| Profit.Margins | src/pages/ProfitCalc.jsx:170-171 | margins are the profits as a share of a positive ARV, 0 otherwise |
| Profit.NetAtMostGross | src/pages/ProfitCalc.jsx:156-169 | with non-negative financing inputs the net profit is at most the gross profit |
| Profit.FiguresExample | src/pages/ProfitCalc.jsx:143-171 | the worked deal gives base costs 294900, gross 55100, loan 187000, net 43880 |
| Profit.Or | src/pages/ProfitCalc.jsx:77 | `x \|\| d` is the text or the fallback, and empty only when both are |
| Profit.LoadRoundTrip | src/pages/ProfitCalc.jsx:73-93 | a saved deal loads back unchanged exactly when no field with a non-empty default is empty; loading is idempotent |
| Profit.ReplaceById | src/pages/ProfitCalc.jsx:67 | entries with the id become the new entry, the others stay |
| Profit.RemoveId | src/pages/ProfitCalc.jsx:97 | exactly the entries with another id are kept |
| Profit.RemoveIdAppend | src/pages/ProfitCalc.jsx:97 | the removal keeps the other entries in their order: it distributes over concatenation, and a single entry stays exactly when its id differs |
| Profit.FindProject | src/pages/ProfitCalc.jsx:74 | the first entry with the id, or none has it |
| Profit.SaveThenFind | src/pages/ProfitCalc.jsx:56-97 | a saved entry is what a load by its id finds; after a removal the id is gone |
| Profit.FirstAddressMatch | src/pages/ProfitCalc.jsx:124 | the first entry with a non-empty address equal after lower-casing, or none |
| Profit.MatchOrLast | src/pages/ProfitCalc.jsx:124-125 | the first matching entry, else the last one when none matches |
| Profit.RehabPullAsWritten | src/pages/ProfitCalc.jsx:130-140 | the rehab field never changes; the alert comes exactly when nothing is stored |
| Profit.IntendedRehabKey | src/pages/ProfitCalc.jsx:136-137 | the first key equal to the address after lower-casing, else the last key when none is |
| Profit.RehabPullIntended | src/pages/ProfitCalc.jsx:136-138 | with no saved project the field is kept; otherwise it is filled with non-empty text |
| Profit.RehabPullIntendedReadsBack | src/pages/ProfitCalc.jsx:136-138 | the intended pull writes text that reads back as the chosen record's total |
| Profit.RehabPullDiscrepancy | src/pages/ProfitCalc.jsx:134-135 | with one record saved under the address, the pull as written leaves the field empty and the intended pull fills it |
| Profit.AddressRulesDiffer | src/pages/ProfitCalc.jsx:124 | the three pages' address rules disagree on " 12 Main St " against "12 main st" |
| Profit.ProfitCalc.constructor | src/pages/ProfitCalc.jsx:17-48 | a fresh form with the default percentages and no selection |
| Profit.ProfitCalc.HandleSave | src/pages/ProfitCalc.jsx:56-71 | empty address does nothing; a selection replaces its entries; otherwise the entry is appended under the fresh id and selected |
| Profit.ProfitCalc.HandleLoad | src/pages/ProfitCalc.jsx:73-93 | an unknown id does nothing; else the entry is selected and its fields loaded with defaults |
| Profit.ProfitCalc.HandleRemove | src/pages/ProfitCalc.jsx:95-116 | no selection does nothing; else its entries go and the form is reset |
| Profit.ProfitCalc.PullFromMaxOffer | src/pages/ProfitCalc.jsx:118-128 | nothing stored alerts; an empty list does nothing; else the ARV of the match or the last entry |
| Profit.ProfitCalc.PullFromRehabCalc | src/pages/ProfitCalc.jsx:130-140 | the page is unchanged; the alert comes exactly when nothing is stored |

## Left out

- Floating point: amounts are unbounded reals, so rounding, `NaN`, `Infinity` and the `Number.isFinite` checks do not arise.
- `toLowerCase` is modelled for ASCII letters only; other characters are kept as they are.
- String order: `sort()` compares UTF-16 code units; the model compares characters.
- JsNumber.NumberToString: writes plain decimal notation with at most 20 fraction digits. It does not model `String(x)`'s exponent notation for very large or very small values, or its shortest round-trip digits.
- `localStorage` and `JSON`: writes, parse failures and the `try`/`catch` blocks are left out; stored data is passed in already parsed.
- `updatedAt` timestamps are not stored by the model, since nothing reads them.
- JSON `null` and a missing field are both `None`.
- Stored-object key test: JavaScript's `key in store` also sees inherited properties such as `toString`, and `__proto__` keys behave specially; the model's store is a plain map.
- Rehab.RehabCalc.UpdateItem: models the fields the page edits (included, rate, cost) and not arbitrary field names.
- The `toLocaleString` display formatting, the form rendering and the navigation bar are not modelled.
- Object.keys order for Max Offer's address lookup is the `keyOrder` parameter; the model does not derive it from insertion order.
- Rehab.RateByKey: an unknown scope gives 0 per sf in RehabCalc (src/pages/RehabCalc.jsx:98), while Max Offer's `rateByScope` gives 10 (src/pages/MaxOffer.jsx:28-32). MaxOffer.RecordTotalOfSnapshot and MaxOffer.RecordTotalOfLoaded state the difference.
- Profit.ProfitBreakdown: the gross profit follows the code (ARV less base costs, without financing and carry).
- Profit.ProfitCalc.PullFromMaxOffer: the page matches lower-cased addresses without trimming, unlike Max Offer's own upsert; the model follows the page.

## Findings

| source | as written | input that shows it | evidently intended | confidence | as-written member | corrected member |
|---|---|---|---|---|---|---|
| src/pages/ProfitCalc.jsx:134-138 | RehabCalc's saves are read as a list, but they are an object keyed by address, so `list.length` is undefined and the pull always returns without setting rehab | one RehabCalc save under the current address "12 Main St" and an empty rehab field: the field stays empty | take the save whose key matches the address, else the last one, and fill in its recomputed rehab total | not executed | Profit.RehabPullAsWritten, Profit.RehabPullDiscrepancy | Profit.RehabPullIntended, Profit.RehabPullIntendedReadsBack |

The corrected pull chooses its project by the rule the same page applies to
Max Offer entries (src/pages/ProfitCalc.jsx:124-125), which the rehab pull's
own lines 136-137 repeat: the first key equal to the address after
lower-casing, without trimming, else the last key. It keeps that rule rather
than Max Offer's trimmed comparison because it is the one the page's code
states for this button.
