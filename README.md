# List-N-Go price lookup and shopping list, modelled in Dafny

List-N-Go has two parts, and this project models both.

The **server** (`server.js`) answers `GET /get-price?store=…&item=…`:
- it rejects a missing store or item;
- it looks the price up in a NodeCache whose entries live for 3600 seconds;
- on a miss, it dispatches on the lower-cased store to one of three retailer scrapers (Asda, Sainsbury's, Tesco);
- it caches any price a scraper finds.

Each scraper takes the first element that matches the retailer's price selector. It trims the text, removes the first `£` and then the first `,`, and calls `parseFloat`. The result goes through `price || null`.

The **page** (`public/script.js`) keeps the shopping list and its running total. It has:
- an add form, whose quantity field keeps only digits;
- a reset button;
- checkboxes that move ticked items to the end of the list.

Modules:
- `Wrappers` is the `Option` type.
- `Sequences` has first-occurrence search and removal on sequences.
- `JsText` models the JavaScript string built-ins the code relies on:
  - `trim` and `trimStart`;
  - ASCII `toLowerCase`;
  - `parseInt`;
  - the `/[^0-9]/g` filter.
- `PriceCache` is the observable behaviour of the NodeCache instance.
- `Server` has:
  - the retailers and the dispatch;
  - the price-text normalisation and the scrapers;
  - the cache key;
  - the handler as the function `Respond`, with lemmas for every outcome;
  - the correction of a defect the proofs exposed (see Findings);
  - the class `PriceServer`, whose method `GetPrice` updates the cache field as the route is written, and whose method `GetPriceStoreFirst` does so for the corrected route.
- `Pounds` holds amounts of money as whole pence. It provides the `toFixed(2)` text and the page's `parseFloat(text.substring(1)) || 0` read-back.
- `ShoppingList` has:
  - the list entries and the comparator of `reorderItems`;
  - the stable-partition specification of the sort and its lemmas;
  - the class `ShoppingPage`: the list, the total text and the two input fields, with one method per handler.

Foreign code is passed in as parameters in the `Env` record:
- `encodeURIComponent`;
- `axios.get` together with the cheerio query of the first matching element;
- the server's `parseFloat`.

The clock is a millisecond count passed to each request. The price request the page sends is split at its `await`:
- `ClickAddItem` returns the pending request;
- `ReceiveAnswer` takes the answer that came back.

## Model

| member | source | states |
|---|---|---|
| PriceCache.SetLeavesOthers | server.js:108 | a `set` changes what `has` and `get` report for its own key only, at every later time |
| PriceCache.SetThenGet | server.js:9 | a value just set is returned until its 3600-second TTL has run out, and not after |
| PriceCache.LookupKeepsLiveView | server.js:82-83 | the eviction done by a lookup never changes which keys are live or what they hold |
| Sequences.RemoveFirstAt | server.js:23 | `replace` with a string pattern removes exactly the first occurrence |
| Sequences.RemoveFirstMultiset | server.js:23 | removing the first occurrence removes one copy of that character and nothing else |
| JsText.TrimStart | public/script.js:84 | trimStart drops exactly the leading whitespace, up to the first non-whitespace character |
| JsText.Trim | server.js:22 | trim yields the slice with no whitespace at either end and only whitespace around it |
| JsText.TrimIdempotent | public/script.js:83 | trimming twice is trimming once |
| JsText.TrimPadded | server.js:22 | trim removes exactly the whitespace padding around a text that has none at its ends |
| JsText.ToLower | server.js:79 | toLowerCase keeps the length, maps each upper-case letter to its lower-case partner and keeps all else |
| JsText.LowerOfLower | server.js:89 | a text with no capitals is its own lower-case form |
| JsText.DigitsOnly | public/script.js:133-135 | the quantity filter leaves only digits, each digit as often as it was typed |
| JsText.DigitsOnlyKeepsOrder | public/script.js:134 | the digits that remain are in their original order |
| JsText.DigitsOnlyIdempotent | public/script.js:134 | filtering twice is filtering once |
| JsText.ParseIntOfDigits | public/script.js:84 | a run of digits parses to the number it denotes |
| JsText.FilteredQuantity | public/script.js:84-86 | after the filter, the quantity is NaN exactly when empty, never negative, and 0 exactly when all digits are `0` |
| Server.StoreOfNames | server.js:89-101 | a store selects a retailer exactly when its lower-case form is that retailer's name |
| Server.StoreOfIgnoresCase | server.js:89 | stores equal up to case select the same retailer |
| Server.Normalise | server.js:22-23 | a trimmed text with neither `£` nor `,` is returned as it is |
| Server.NormaliseRemovesFirstOnly | server.js:23 | the normalised text holds the trimmed text's characters less one `£` and one `,`, each only where present |
| Server.NormaliseKeepsLaterCommas | server.js:23 | `£1,234,567` becomes `1234,567`, so the second comma stays |
| Server.NormalisePadded | server.js:42-43 | whitespace, `£`, an amount, whitespace: normalised, the amount alone is left |
| Server.Scrape | server.js:12-29 | a scraper never yields NaN or zero |
| Server.ScrapeOutcomes | server.js:15-28 | for any page a scraper fetched: null when the fetch throws or nothing matches; otherwise null for a NaN or zero parse of the normalised first match, and that parse else |
| Server.ScrapersTruthful | server.js:64 | every scraper of the server is truthful: all three end in `\|\| null` |
| Server.KeyInjective | server.js:79 | among stores that select a retailer, two requests share a key only when they name the same store and the same item up to case |
| Server.ItemCaseIgnored | server.js:79 | for every store, items with the same lower-case form share a key |
| Server.StoreCaseKept | server.js:79-91 | `Asda` and `asda` get different keys yet select the same scraper |
| Server.Respond | server.js:72-111 | every reply is a price or a 400 or 404 failure; a failure never adds a cache key; a scraper runs only when both parameters are present, and it is the one the store selects |
| Server.MissingInputRejected | server.js:75-77 | the reply is 400 "Store and item are required." exactly when store or item is absent or empty; the cache is untouched and nothing is scraped |
| Server.HitServedFromCache | server.js:82-84 | a live entry is answered with its price, with no scrape and no cache change |
| Server.ScrapesOnlyOnMiss | server.js:82-101 | a scraper runs exactly on a miss for a store that selects a retailer, and it is that retailer's |
| Server.UnknownStoreRejected | server.js:99-100 | a store selecting no retailer is never scraped and, without a live entry, is a 400 "Invalid store." that only evicts the key's stale entry |
| Server.NotFoundLeavesCache | server.js:103-105 | a 404 "Price not found." happens exactly when the scraper ran and yielded null; any failure leaves only the lookup's eviction |
| Server.OnlyOwnKeyChanges | server.js:108 | a request changes the cache at its own key only |
| Server.SuccessIsCached | server.js:107-110 | a scraped price is answered and cached under the key, expiring now + 3600 s |
| Server.KeyPrefix | server.js:79 | for a valid store, the first `-` of the key ends the store |
| Server.SetKeepsWellFormed | server.js:108 | storing a truthy price under a key with a valid store prefix keeps the cache invariant |
| Server.RespondKeepsWellFormed | server.js:72-111 | every request keeps the invariant: cached prices are never NaN or zero, each key starts with a valid store. So no price answered is NaN or zero |
| Server.RepeatIsHit | server.js:82-84 | within the TTL, repeating a successful request after it has finished gives the same price with no scrape and no cache change |
| Server.ExpiredIsScrapedAgain | server.js:9 | after the TTL, the same request scrapes again though the old entry is still stored |
| Server.InvalidStoreAnsweredFromCache | server.js:79-100 | as written, (`asda-milk`, `x`) is answered 200 from the entry cached by (`asda`, `milk-x`) |
| Server.RespondStoreFirst | server.js:89-101 | with the store checked first, an unknown store is always 400 with the cache unchanged; other requests behave as the route does |
| Server.StoreFirstRejectsCounterexample | server.js:89-100 | with the store checked first, (`asda-milk`, `x`) after (`asda`, `milk-x`) is a 400 "Invalid store." |
| Server.PriceServer.constructor | server.js:9 | the server starts with an empty, well-formed cache |
| Server.PriceServer.GetPrice | server.js:72-111 | the reply, the new cache and the scraper run are exactly those of `Respond`, the route as written, and the cache invariant is kept |
| Server.PriceServer.GetPriceStoreFirst | server.js:89-101 | the reply, the new cache and the scraper run are exactly those of `RespondStoreFirst`, the route with the store checked before the cache, and the cache invariant is kept |
| Pounds.DecimalDenotes | public/script.js:64 | the integer part is written as a non-empty run of digits denoting it |
| Pounds.ParseFixedTwo | public/script.js:62-64 | parseFloat read to pence gives back the exact amount that toFixed(2) wrote |
| Pounds.ParseTotalOfFormat | public/script.js:62-64 | the shown total `£…` is read back as exactly the amount written |
| ShoppingList.FiltersPartition | public/script.js:159-165 | every entry is in exactly one of the unchecked and checked groups |
| ShoppingList.SortedByChecked | public/script.js:154-169 | reordering keeps exactly the same entries, as many times each, and the same length |
| ShoppingList.SortedIsOrdered | public/script.js:159-165 | after reordering, the comparator puts no pair out of order: no checked entry precedes an unchecked one |
| ShoppingList.SortedIsStable | public/script.js:159-165 | entries with equal checked state keep their relative order |
| ShoppingList.SortIsUnique | public/script.js:159-165 | any ordered sequence that keeps both groups' orders is the sorted one, which is therefore what a stable sort gives |
| ShoppingList.SortIdempotent | public/script.js:154-169 | reordering a reordered list changes nothing |
| ShoppingList.AddedLandsBeforeChecked | public/script.js:59-69 | a new item goes after the unchecked entries and before the checked ones |
| ShoppingList.SortedKeepsTotal | public/script.js:154-169 | reordering leaves the sum of the line totals unchanged |
| ShoppingList.AddKeepsConsistent | public/script.js:38-70 | an add keeps the displayed total equal to the sum of the line totals |
| ShoppingList.ToggleKeepsConsistent | public/script.js:53-57 | ticking a checkbox keeps the list ordered and the total equal to the sum of the line totals |
| ShoppingList.AppendChildStep | public/script.js:168 | appending a node not yet moved takes one copy of it out of the unmoved part and puts it last |
| ShoppingList.AppendEach | public/script.js:168 | appending each node again, in the order given, leaves the list in exactly that order |
| ShoppingList.ReorderItems | public/script.js:154-169 | reorderItems leaves the unchecked entries, then the checked ones, each group in its old order |
| ShoppingList.Notice | public/script.js:108-121 | a throw gives the fetch-error message, an OK answer without a price gives "Invalid price received from server.", a failed answer gives its error or "An error occurred." |
| ShoppingList.FilteredInputValid | public/script.js:83-86 | with a filtered quantity, the input is accepted exactly when the item is non-blank and some digit is not `0` |
| ShoppingList.ShoppingPage.Reorder | public/script.js:154-169 | the list becomes its stable partition and nothing else changes |
| ShoppingList.ShoppingPage.AddItemToList | public/script.js:38-70 | one entry longer, line total = price × quantity, reordered; total = old total (0 if unreadable) + line total; consistency kept |
| ShoppingList.ShoppingPage.Reset | public/script.js:73-77 | empty list, total `£0.00`, consistent |
| ShoppingList.ShoppingPage.SetChecked | public/script.js:53-57 | the entry takes its new checked state, the list is reordered, consistency kept |
| ShoppingList.ShoppingPage.OnQuantityInput | public/script.js:133-135 | the quantity field becomes its digits only |
| ShoppingList.ShoppingPage.ClickAddItem | public/script.js:81-94 | with a blank item or NaN/0 quantity: a notice, no request, nothing changes. Otherwise: the fields reset to "" and "1", and a request for the trimmed item goes out |
| ShoppingList.ShoppingPage.ReceiveAnswer | public/script.js:106-122 | an OK answer with a price adds the item; any other answer shows its notice and leaves list and total unchanged |

## Left out

- **I/O and foreign code.** HTTP (`axios`), HTML parsing and selector matching (`cheerio`) and `encodeURIComponent` are not modelled; they are the oracles of `Env`. Express routing, JSON framing and `app.listen` are also out.
- **`AsdaScrape.js`.** It is a one-shot puppeteer script that only launches a browser and logs; it is not part of this model.
- **`parseFloat` on the server.** It is abstract: any function from text to a JavaScript number.
- **`parseFloat` on the page.** It is read to whole pence: integer digits plus at most two decimals. Exponents, `Infinity` and a third decimal are not read. This is exact for the pence amounts the model produces.
- **Floating point.** Prices on the page are whole pence. The float products and sums of JavaScript, and the rounding of `toFixed(2)`, are not captured.
- **`toLowerCase`.** It is modelled for ASCII letters only. `trim` uses the whitespace and line-terminator set of ECMAScript.
- **Page plumbing.** Left out:
  - the DOM itself;
  - the entry's display text and its `line-through` style;
  - `localStorage` save, load and clear;
  - the Enter-key shortcut;
  - focus handling;
  - the three-second lifetime of a notification.

  The page's initial HTML is not part of this model, so `ShoppingPage.constructor` assumes an empty list showing `£0.00`, with the form at its reset values.
- **The reorder loop.** `ShoppingPage.Reorder` runs the re-append loop on a local copy (`ReorderItems`) and stores the result once. The DOM is updated node by node, but no handler runs in between.
- **Nodes as records.** A node is identified with its record, so `appendChild` moves the first equal record. Equal records are interchangeable, so the resulting list is the same.
- **The `await` on the page.** The add handler is split in two: `ClickAddItem` runs up to the request, `ReceiveAnswer` handles its outcome. Other handlers may run in between, as in the browser. The server's own `await` on the scraper is taken as instantaneous: the clock does not advance during a request.
- **Concurrency.** Each request is taken as atomic. In the server, the handler is `async` and yields at the `await` of the scraper (server.js:91, 94 and 97), so Node can interleave requests: two misses for one key can both scrape, and the later `cache.set` wins. `RepeatIsHit` speaks only of a request issued after the first one has finished.
- **Repeated query parameters.** `Respond` takes each parameter as an optional string. Express gives an array for a parameter repeated in the query, and then `item.toLowerCase()` (server.js:79) throws inside the async handler and no reply is sent; that path is not modelled.
- **NodeCache's background sweep.** With its default `checkperiod` of 600 seconds, NodeCache also deletes expired entries on a timer. The model keeps them until a lookup deletes them; what `has` and `get` return is the same either way, but the stored entries can differ (`ExpiredIsScrapedAgain` says the old entry is still stored).
- **Request format.** The page posts a JSON body, while the server reads query parameters. The round trip between the two is not modelled. `ReceiveAnswer` takes the answer as given.
- **Details kept as the code has them:**
  - the cache key joins the store and the lower-cased item with `-`;
  - the store keeps its case in the key;
  - the server does not trim the item;
  - only the first `£` and the first `,` are removed, and the price is whatever `parseFloat` makes of the remaining text.
- Server.UnknownStoreRejected: states the 400 only when the key has no live entry, because as written a live entry answers first (see Findings).
- Server.NotFoundLeavesCache: states "unchanged" up to the deletion of the key's stale entry, because the lookup with `has` performs that deletion before the scraper runs.

## Findings

| source | as written | input that shows it | evidently intended | confidence | as-written member | corrected member |
|---|---|---|---|---|---|---|
| server.js:79-100 | the cache is consulted before the store is validated, and the key `store-item` does not mark where the store ends | after (`asda`, `milk-x`) is priced, the request (`asda-milk`, `x`) has the same key `asda-milk-x` and is answered 200 with Asda's milk-x price | an unknown store is always 400 "Invalid store." | not executed | Server.InvalidStoreAnsweredFromCache | Server.RespondStoreFirst |
