# raspberry-instock-check, modelled in Dafny

A model of the stock-alert bot in `index.ts`. The bot polls rpilocator.com. Each listing is identified by a key made of its SKU, vendor and price. The bot keeps a cache of every listing it has seen and compares each fresh table against it. It sends one Telegram alert per cycle for listings that came back in stock. When a listing it announced sells out, it edits the alert that announced it. It forgets each alert after 24 hours.

The modules follow the program's parts:

- `wrappers.dfy` (`Wrappers`): `Option`.
- `ordered_map.dfy` (`OrderedMaps`): a JavaScript `Map` with string keys. It keeps insertion order, `set` on an existing key keeps its place, and `delete` removes the key. Iteration order matters here because the message text walks the maps and the ledger keeps "the last listing".
- `listing.dfy` (`Listings`): the row record, `getRaspberryKey` and the SKU filter.
- `differ.dfy` (`Differ`): the listing cache as a class, `RaspberryCache`. Its `Update` loop is proved equal to `Diff`, a fold of one step per row (`Visit`). The lemmas describe what that fold reports.
- `composer.dfy` (`Composer`): product links with their query strings, the vendor-name rewrite, and the vendor id table as a class, `VendorsCache`. It also holds the alert text. `ComposeMessage` is the looping builder, proved equal to `TelegramMessage`.
- `ledger.dfy` (`Ledger`): the alert ledger as a class, `AlertLedger`. It holds `messageIds` (key to message id), `contents` (message id to what the message shows) and the pending expiry `timers`.
  - `SendAlert` records a sent alert; `UpdateAlert` marks listings unavailable and produces edits.
  - `Expire` is the body of one timer callback; `Sweep(now)` runs the callbacks that are due.
  - Each method is proved equal to a fold (`RecordAll`, `MarkAll`, `SweepRun`), and the lemmas are about those folds.
- `stock_check.dfy` (`StockCheck`): `checkStock`, one polling cycle over the three caches, proved equal to `Cycle`.

What the model takes as parameters rather than computing:

- the parsed page, or a failed fetch;
- what Telegram answers to a send: a message id, or a failure;
- the set of message ids whose edit Telegram refuses;
- the clock reading used for the 24-hour timers.

Behaviour of `index.ts` worth knowing:

- The cache keeps unavailable listings too. It is updated key by key and never replaced, and no key ever leaves it (`CacheNeverShrinks`).
- A listing that is missing from a later table is never reported (`VanishedIsNeverReported`). Only listings present in the table with flipped availability are reported.
- The model filter keeps rows whose SKU *equals* a listed model, case-sensitively. It is not a prefix match.
- Recording an alert does not store one entry per announced listing. For every announced key, the code binds the key to each newly available listing in turn. It then overwrites the message's content, so the content keeps only the last announced key, bound to the last listing (`RecordedContentHoldsLastListing`). An edit recomposed from that content no longer lists the other listings the alert announced.
- Expiry runs per key, not per message. When a key is announced again within 24 hours, the first message's timer deletes the key even though it now points at the newer message (`ReannouncedKeyForgottenEarly`).
- The code has no rule against two cycles running at once; the model runs cycles one after another.

## Model

| member | source | states |
|---|---|---|
| OrderedMaps.Set | index.ts:143 | `Map.set`: the key is bound to the value; every other key keeps its binding; an existing key keeps its place in iteration order; a new key goes last; well-formedness is preserved |
| OrderedMaps.Delete | index.ts:253 | `Map.delete`: the key is gone; every other key keeps its binding; the order of the rest is kept; well-formedness is preserved |
| Listings.KeyLayout | index.ts:178 | the key is the SKU, a dash, the vendor, a dash and the price, at those positions |
| Listings.SameOfferSameKey | index.ts:178 | listings that agree on SKU, vendor and price have the same key, whatever their other fields |
| Listings.KeyDeterminesOffer | index.ts:178 | when neither SKU nor vendor contains a dash, equal keys mean equal SKU, vendor and price |
| Listings.KeysCanCollide | index.ts:178 | two listings with different SKUs and vendors but the same key exist when a SKU contains a dash |
| Listings.KeepModels | index.ts:77 | a row is kept iff it is in the table and its SKU is one of the models; never longer than the table |
| Listings.FilterBySku | index.ts:75-77 | a model list starting with `*` keeps the whole table; otherwise exactly the rows whose SKU equals a listed model |
| Listings.FilterDistributes | index.ts:75-77 | filtering a concatenation is the concatenation of the filtered parts, so kept rows keep their table order |
| Listings.FilterSingle | index.ts:75-77 | a single row is kept iff the list starts with `*` or names its SKU |
| Differ.RaspberryCache.constructor | index.ts:27 | the cache starts empty |
| Differ.RaspberryCache.Update | index.ts:107-148 | the returned table is the filtered rows; the new cache and both change maps are what `Diff` gives for the old cache and that table |
| Differ.ChangesComeFromTable | index.ts:116-144 | every reported listing is a row of the table, stored under its own key, with the availability of its map; both maps are well formed |
| Differ.VanishedIsNeverReported | index.ts:116-144 | a key that no row of the table has is reported in neither map |
| Differ.CacheAfterRun | index.ts:116-143 | after an update the cache holds the old keys plus the table's keys; each table key maps to its last row; keys not in the table keep their listing |
| Differ.CacheNeverShrinks | index.ts:116-143 | no key leaves the cache, and its size never decreases |
| Differ.FirstCycleIsBaseline | index.ts:107-122 | with an empty cache both change maps are empty and every row's key ends up in the cache |
| Differ.ReportsFollowAvailability | index.ts:125-141 | with a non-empty cache: a new key is reported available iff the row is available and never reported unavailable; a cached key is reported available iff it went from unavailable to available, and unavailable iff it went from available to unavailable |
| Differ.UnchangedTableIsQuiet | index.ts:135-141 | updating twice with the same table reports nothing the second time |
| Differ.AvailableThenUnavailableIsReported | index.ts:135-141 | a listing reported available by one update and present but unavailable in the next table is reported unavailable by the next update |
| Differ.VisitExtendsOrder | index.ts:130-141 | visiting one row leaves the order of each change map as it was or appends the row's key at the end |
| Differ.ReportOrderFollowsTable | index.ts:116-144 | each change map lists its keys in the order the walk over the table first reported them: what the first rows reported comes first, in the same order |
| Differ.ReportedRowsPassFilter | index.ts:75-81 | every reported listing is a row of the fetched table whose SKU passes the model filter |
| Composer.Split | index.ts:154 | `split` always yields at least one part |
| Composer.JoinSplit | index.ts:154-157 | joining the parts of a split with the same separator gives the text back |
| Composer.SplitJoin | index.ts:154-157 | splitting words joined by a separator they do not contain gives the words back |
| Composer.TrimmedIsTrim | index.ts:157 | text with no blank at either end is its own trim |
| Composer.VendorNameMovesCountry | index.ts:154-157 | for a menu text of words separated by single spaces, the vendor name is the words after the first, then the first word |
| Composer.VendorsCache.constructor | index.ts:31 | the vendor table starts empty |
| Composer.VendorsCache.Update | index.ts:151-162 | the new table is the old one with each menu entry's rewritten name bound to its id, in menu order, without `All` |
| Composer.VendorNamesAfterUpdate | index.ts:152-160 | the names in the table after recording a menu are the old names plus the rewritten name of every menu entry |
| Composer.VendorsAfterUpdate | index.ts:160 | every menu name maps to the id of its last entry; names not on the menu keep their id |
| Composer.LinkTarget | index.ts:164-174 | the link target is the product link when direct links are on, otherwise the stock page; the query is `vendor=<id>&` plus the tracking pair when linking to the stock page of a vendor with a known id, the tracking pair alone otherwise |
| Composer.InStock | index.ts:207-208 | the in-stock list holds exactly the available rows of the table |
| Composer.InStockDistributes | index.ts:207-210 | the in-stock filter of a concatenation is the concatenation of the filtered parts, so in-stock lines keep table order and repeated rows |
| Composer.InStockSingle | index.ts:208 | a single row is kept iff it is available |
| Composer.ComposeMessage | index.ts:180-214 | the text equals `TelegramMessage` and the collected keys are the keys of the newly available listings, in map order |
| Composer.AvailableLines | index.ts:188-196 | one line per newly available listing, its mark followed by its link, and the key of each listing, in map order |
| Composer.MessageFraming | index.ts:184-212 | the text starts with the header and ends with the footer; each change section is empty iff its map is empty |
| Composer.AnnouncedKeysAreMapKeys | index.ts:188-193 | when each listing is stored under its own key, the collected keys are the map's keys in order |
| Ledger.BindKey | index.ts:225-228 | the loop binding one key to each newly available listing builds `BindToEach` |
| Ledger.BindToEachKeepsLast | index.ts:225-228 | that map binds only the key, to the last listing |
| Ledger.AlertLedger.constructor | index.ts:39-40 | the ledger starts empty with no timers |
| Ledger.AlertLedger.SendAlert | index.ts:216-244 | the composed text is `TelegramMessage`; after a successful send the ledger is `RecordAll` of the announced keys under the message id, with timers due 24 hours later; after a failed send it is unchanged |
| Ledger.AlertLedger.Record | index.ts:224-243 | the recording loop leaves the ledger equal to `RecordAll` |
| Ledger.RecordAllEffect | index.ts:224-243 | every announced key points at the message id and other keys are untouched; the message's content is the last key's map with an empty unavailable map; other messages are untouched; one timer per key is appended, in order |
| Ledger.RecordedContentHoldsLastListing | index.ts:225-236 | after recording a non-empty change map, the message's available map binds only the last announced key, to the last listing, and its unavailable map is empty |
| Ledger.AlertLedger.UpdateAlert | index.ts:246-268 | the ledger, the edits issued and the failure are `MarkAll` over the newly unavailable listings in map order |
| Ledger.AlertLedger.Mark | index.ts:248-265 | one iteration equals `MarkOne` |
| Ledger.FailureStops | index.ts:247-267 | after a failure, marking further listings changes nothing |
| Ledger.UnknownKeyIsQuiet | index.ts:249 | a listing whose key points at no message changes nothing |
| Ledger.MarkOneEffect | index.ts:251-265 | the message's available map becomes `Delete` of the key and its unavailable map `Set` of the key to the listing, so the key moves over while every other key keeps its listing and its place; the message keeps its id; other messages are untouched; one edit with the recomposed text is issued; the step fails iff Telegram refuses that edit |
| Ledger.MarkAllFrame | index.ts:247-267 | marking never changes the key-to-message map, the timers, the set of recorded messages or their ids; edits are only appended |
| Ledger.AlertLedger.Expire | index.ts:239-242 | the timer's key and message are forgotten |
| Ledger.AlertLedger.Sweep | index.ts:238-242 | the ledger after running the due callbacks in order equals `Swept` |
| Ledger.SweepEffect | index.ts:238-242 | a sweep forgets exactly the keys and messages named by timers due by then, and keeps exactly the timers not yet due, in order |
| Ledger.SweepIsIdempotent | index.ts:239-242 | a second sweep at the same time changes nothing |
| Ledger.RecordKeepsConsistent | index.ts:235-242 | recording under a fresh message id keeps the ledger consistent: every key reaches a recorded message carrying its own id, every key has a pending timer for its message, and one message's timers fall due together |
| Ledger.MarkKeepsConsistent | index.ts:251-254 | marking keeps the ledger consistent |
| Ledger.SweepKeepsConsistent | index.ts:239-242 | sweeping keeps the ledger consistent |
| Ledger.ConsistentMarkFindsContent | index.ts:251-253 | in a consistent ledger, marking never fails on a missing message content; it can only stop on a refused edit |
| Ledger.ReannouncedKeyForgottenEarly | index.ts:235-242 | a key announced by message 1 and again by message 2 is forgotten when message 1's timer fires, while message 2 is still recorded; marking the listing unavailable then issues no edit |
| Ledger.SplitDueTimesLoseContent | index.ts:239-253 | when two keys of one message get timers due at different times, a sweep between them deletes the message's content while the second key still points at it, and marking that key's listing unavailable fails on the missing content |
| StockCheck.StockChecker.constructor | index.ts:27-40 | the three caches start empty |
| StockCheck.StockChecker.CheckStock | index.ts:270-293 | the caches after one cycle and its report are `Cycle` of the caches before it |
| StockCheck.FetchFailureChangesNothing | index.ts:271-291 | a failed fetch leaves every cache unchanged and reports the failure |
| StockCheck.FirstCycleIsSilent | index.ts:270-286 | the first cycle sends no alert, issues no edit, leaves the ledger unchanged and caches every filtered row |
| StockCheck.CycleKeepsConsistent | index.ts:270-293 | when Telegram gives each alert a fresh message id, a cycle keeps the ledger consistent, and it never fails on a missing message content |

## Left out

- Fetching the page and reading the DOM (`getHTML`, index.ts:53-57, and the cell extraction in `parseHTMLGetRaspberryList`, index.ts:59-74) are left out. The model takes the parsed rows and vendor menu entries as input. The filter on those rows (index.ts:75-77) is modelled.
- The development-mode block in `updateRapsberryCache` (index.ts:83-105) is left out. It forces availabilities by debug round and is off in production.
- The Telegram API is left out. A send becomes its outcome (a message id or a failure) and an edit becomes an `Edit` request. Refused edits are a parameter set. Markdown rendering and the message object are not modelled; only its id is kept. The new text assigned to the stored message object (index.ts:260) is carried directly by the `Edit` (index.ts:261 reads it once for the edit call); the stored text itself is not kept, because nothing reads it afterwards.
- Logging and the error message to the admin chat (index.ts:219, 250, 272, 282, 288-291) are left out. The error becomes the report's `failure`.
- The startup message to the admin chat (index.ts:44-51) is left out.
- The environment configuration (index.ts:7-15) becomes constructor arguments and the `LinkSettings` value.
- `setInterval` scheduling (index.ts:295-296) is left out. The caller runs one cycle at a time, and the overlap of a slow cycle with the next one is not modelled.
- Ledger.AlertLedger.Sweep: `setTimeout` callbacks are modelled as a list of timers that a sweep at a given clock reading fires together, in the order they were armed. Node fires them one by one, interleaved with other callbacks.
- Ledger.AlertLedger.SendAlert: every timer of one alert gets the same due time. In Node each `setTimeout` reads the clock on its own.
- Ledger.ConsistentMarkFindsContent, Ledger.RecordKeepsConsistent and StockCheck.CycleKeepsConsistent assume Telegram never reuses a message id while a timer for it is pending. The source relies on this without checking it.
- Ledger.ConsistentMarkFindsContent, Ledger.SweepKeepsConsistent and StockCheck.CycleKeepsConsistent also rely on every timer of one alert falling due at the same time, which `SendAlert` gives and Node does not promise. When one alert's timers differ, the ledger can lose a message's content while a key still points at it, and the source then throws at index.ts:252-253 (`SplitDueTimesLoseContent`).
- Differ.ReportsFollowAvailability, Differ.UnchangedTableIsQuiet and Differ.AvailableThenUnavailableIsReported are stated for tables whose rows have distinct keys. When keys repeat, later rows overwrite earlier ones; for that case only `CacheAfterRun` and `ChangesComeFromTable` say what happens.
- Composer.VendorNameMovesCountry is stated only for menu texts made of words separated by single spaces. `VendorName` also computes the name for other texts, but the lemma does not describe those results.
- The emptiness of a message's sections is proved, but the exact text of the links is stated only through `LinkTarget`. Telegram's Markdown escaping is not modelled.
