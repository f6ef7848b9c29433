# Sync-Scansia, modelled in Dafny

Sync-Scansia keeps a Shopify "outlet" catalogue in line with a Google Sheet.
The sheet's header is read and canonicalised, and rows are selected by their
`online` flag. Rows are then grouped by product key or SKU. Products are
created or activated, and prices are fixed from the sheet. Around that core
sit three Shopify gateways that throttle and retry. There are also tools that:
- reset a product's variants;
- restrict a product to the online-store publications;
- reorder a collection by discount.

This project models that core and proves properties of the model.
- The three request gateways are modelled as attempt loops over a scripted
  network. `net(a)` is what the wire returns on attempt `a`. Backoff and
  waits are integers in milliseconds.
- The sheet logic is modelled as functions over sequences of rows, plus the
  methods that build them in loops. The header normalisation and
  canonicalisation, the row building, selection and keying are covered. So
  are the grouping, which uses an insertion-ordered dictionary (`Dicts`), and
  the outcome tallies.
- Price strings and request payloads are modelled as functions. Several
  builders drop JSON `null`s; they are modelled with `Json.Purge`.
- The orchestration scripts become methods over an abstract remote store.
  The store's answers are parameters. Each method returns the ordered list of
  mutations it would send and the counters it would keep.

Helper modules:
- `Wrappers`: Option and Result.
- `Strings`: ASCII `lower`/`strip`, `replace` and substring.
- `Seqs`: filter, take-while, flatten and dedup.
- `Dicts`: a Python dict as an insertion-ordered list of pairs.
- `Json`: JSON values and null purging.
- `Http`: responses, waits, backoff schedules and the attempt trace of a
  retry loop.

Every path below is relative to the repository root.

## Model

| member | source | states |
|---|---|---|
| Utils.SlugifyHandleIsSlug | src/utils.py:33-37 | every handle holds only `[a-z0-9-]`, has no '-' at either end and never two '-' in a row |
| Utils.SlugifyHandleIdempotent | src/utils.py:33-37 | slugifying a handle again changes nothing |
| Utils.SlugifyHandleKeepsSlugChars | src/utils.py:34-36 | the handle keeps exactly the lower-cased letters and digits of the input, in order |
| Utils.SubNonSlugNoDoubleDash | src/utils.py:35 | replacing each run of non-slug characters by one '-' never leaves two adjacent '-' |
| Utils.SubNonSlug | src/utils.py:35 | the substitution emits only slug characters and '-', and starts with the input's first character or '-' |
| Utils.ParsePriceOfCleaned | src/utils.py:39-48 | a non-empty price text parses to the same value as its cleaned form when that is not blank, so cleaning an already cleaned price changes nothing |
| Utils.PriceTextClean | src/utils.py:44 | the cleaned price text contains neither '€' nor ',' |
| Utils.PriceTextIdempotent | src/utils.py:44 | cleaning price text twice is the same as cleaning it once |
| Utils.PriceTextExample | src/utils.py:44 | "129,90" cleans to "129.90" |
| Utils.NormalizeColumnsAt | src/utils.py:8-31 | a column that is one of the map's display names is renamed to its key; any other column keeps its name |
| Utils.DisplayNamesDistinct | src/utils.py:8-25 | the rename map's display names are pairwise distinct, and so are its keys |
| Utils.NormalizeColumnsInjectiveOnDisplays | src/utils.py:8-31 | two different display names are never renamed to the same key |
| Utils.KeyForDisplay | src/utils.py:27-31 | the reverse lookup finds a key exactly when some map entry has that display name, and then it returns that entry's key |
| GSheets.NormalizeKey | src/gsheets.py:39-40 | a normalised key contains no '-' and no ' ' |
| GSheets.NormalizeKeyIsReplaceChain | src/gsheets.py:39-40 | the normalised key is the input stripped and lower-cased, with every '-' and then every ' ' replaced by '_' |
| GSheets.NormalizeKeyNone | src/gsheets.py:39-40 | a missing key normalises to "" |
| GSheets.NormalizeKeyIdempotent | src/gsheets.py:39-40 | normalising a normalised key changes nothing |
| GSheets.NormalKeyFixed | src/gsheets.py:39-40 | a key made only of lower-case letters and '_' is already normal |
| GSheets.ProductIdSpellings | src/gsheets.py:39-40 | "product-id", "product id" and "product_id" normalise to "product_id"; "productid" stays "productid" |
| GSheets.CanonValuesCanonical | src/gsheets.py:43-67 | every value of the canon table is one of the ten canonical field names |
| GSheets.CanonicalKeysFixed | src/gsheets.py:43-67 | each canonical field name maps to itself in the table |
| GSheets.CanonIdempotent | src/gsheets.py:43-73 | canonicalising twice is the same as once, and keys not in the table pass through unchanged |
| GSheets.CanonNeverProductid | src/gsheets.py:43-81 | no key canonicalises to "productid", so the late alias branch of `_canon_row` can never fire |
| GSheets.CanonRow | src/gsheets.py:69-82 | the loop builds the dict of canonical keys, with the last raw key that maps to a canonical key deciding its value |
| GSheets.AliasProductId | src/gsheets.py:75-80 | the late alias loop never changes the row: both aliases normalise to "product_id", which the branch has just found missing |
| GSheets.CanonRowLaterWins | src/gsheets.py:69-82 | when several raw keys canonicalise to one key, the last of them gives its value |
| GSheets.CanonRowAbsent | src/gsheets.py:69-82 | a key that no raw key canonicalises to is absent from the row |
| GSheets.LoadRows | src/gsheets.py:92-129 | an empty sheet gives no rows and an empty header index; otherwise the index is built from the header row and one row is built per body row |
| GSheets.BuildHeaderIndex | src/gsheets.py:105-109 | the loop builds the index that maps each canonical header to its 1-based column |
| GSheets.BuildRows | src/gsheets.py:112-129 | the loop builds exactly one output row per body row, in order |
| GSheets.BodyRowsAt | src/gsheets.py:112-116 | body row k gets `_row_index` k + 2, so the first body row is sheet row 2 |
| GSheets.HeaderIndexColumn | src/gsheets.py:105-109 | a canonical key maps to the 1-based column of its last occurrence in the header |
| GSheets.HeaderIndexShape | src/gsheets.py:105-109 | a key is indexed exactly when some header cell canonicalises to it, and its column lies in 1..number of headers |
| GSheets.HeaderIndexNoProductid | src/gsheets.py:105-109 | the header index never holds "productid" |
| GSheets.RowFieldFromColumn | src/gsheets.py:113-116 | the field of a uniquely named column is that column's cell, or "" when the row is short |
| GSheets.RowFieldMissing | src/gsheets.py:113-116 | a field that no header names is absent from the canonical row |
| GSheets.RawKeyIsHeader | src/gsheets.py:113 | every raw key of a row is one of the header cells |
| GSheets.RowOfStripped | src/gsheets.py:116-128 | every text field of a built row is stripped, and the row carries the index it was given |
| GSheets.FieldIsStrippedGet | src/gsheets.py:118-128 | a field is the stripped value under its key, or "" when the key is missing |
| GSheets.WriteProductId | src/gsheets.py:135-150 | the write succeeds exactly when "product_id" has a non-zero column, or, with "product_id" absent, "productid" has one; the cell written is (row, that column) and holds the gid |
| GSheets.WriteProductIdOnSheet | src/gsheets.py:135-150 | on an index built from a header, the write succeeds exactly when some header cell canonicalises to "product_id" |
| Sync.TruncToInt | src/sync.py:38 | `int()` of a float truncates toward zero |
| Sync.FloatSelected | src/sync.py:35-43 | a float flag counts as selected exactly when it lies in [1, 2) |
| Sync.SelectedIgnoresPaddingAndCase | src/sync.py:35-43 | a text flag is judged after strip and lower, so padding and case never change the verdict |
| Sync.MakeKeyEmpty | src/sync.py:45-51 | the key is "" exactly when both the product id and the sku are blank |
| Sync.MakeKeySizeSeparates | src/sync.py:45-51 | without a product id, a row with a size and a row without one never share a key, even with the same sku |
| Sync.MakeKeyProductIdWins | src/sync.py:45-51 | rows with the same non-blank product id share the key, which is that stripped id |
| Sync.GroupUpdates | src/sync.py:53-57 | the loop builds the grouping of rows by key, and its keys are the distinct row keys in first-seen order |
| Sync.GroupUpdatesKeys | src/sync.py:53-57 | a key has a group exactly when some selected row has that key |
| Sync.GroupUpdatesBucket | src/sync.py:53-57 | a row is in a key's group exactly when it is a selected row with that key |
| Sync.GroupUpdatesCount | src/sync.py:53-57 | concatenating the groups loses and adds no row: every row predicate counts the same before and after |
| Sync.PriceToStrNumForms | src/sync.py:59-77 | for any digits p and q, "€ p" and "p€" are formatted from p, and "p,q" and "p.q" from "p.q": the four forms the docstring promises |
| Sync.CleanPriceChars | src/sync.py:67-71 | the cleaned price holds only digits and '.' or ',' |
| Sync.CleanPriceOneDot | src/sync.py:67-71 | the cleaned price holds at most one '.' |
| Sync.CleanPriceDigits | src/sync.py:67-71 | cleaning keeps exactly the input's digits, in order |
| Sync.CleanPriceLoneComma | src/sync.py:68-69 | a single comma with no dot becomes the one decimal point |
| Sync.CleanDecimalComma | src/sync.py:67-71 | "p,q" with p and q all digits cleans to "p.q" |
| Sync.PriceToStrNumExamples | src/sync.py:59-77 | the docstring examples "€ 129" and "129,90" are formatted from "129" and "129.90" |
| Sync.GidToNumeric | src/sync.py:79-82 | the numeric id is missing exactly when the gid is empty |
| Sync.GidToNumericOfGid | src/sync.py:79-82 | the tail of "gid://shopify/Product/N" is N |
| Sync.LastSegment | src/sync.py:79-82 | the tail is the longest suffix without '/', and a '/' precedes it unless it is the whole string |
| Sync.ProductPrice | src/sync.py:196 | the product price is never empty |
| Sync.ProductPriceFallback | src/sync.py:196 | the price is the formatted sale price, else the formatted full price, else "0.00" |
| Sync.ProductPayload | src/sync.py:190-222 | the product payload contains no null anywhere |
| Sync.ProductPayloadExpected | src/sync.py:190-222 | the payload is the product object with the title, vendor, optional size option and one variant; each blank field is dropped |
| Sync.Shopify.Call | src/sync.py:149-171 | a GET/POST/PUT/DELETE returns a body only for a last response below 400, the parsed body or `{}`; a non-retryable 4xx on the first attempt raises at once with its status; when every allowed attempt gets 429 or 5xx it raises with the last status; no attempt at all or a transport failure raises that |
| Sync.ExhaustedRaises | src/sync.py:145-155 | a last response that is still 429 or 5xx is turned into an error |
| Sync.PickLocationFromList | src/sync.py:179-188 | the lookup fails exactly when there are no locations; when some location has the name, the last one listed with it is returned; otherwise the location returned has the name of the first one listed |
| Sync.Shopify.constructor | src/sync.py:87-108 | minimum interval 0.7 s and 5 retries unless the environment overrides them; no call yet and no location cache |
| Sync.Shopify.ThrottleMs | src/sync.py:112-116 | the sleep before a send lasts exactly until the minimum interval since the last call, and is zero once it has passed |
| Sync.Shopify.Request | src/sync.py:118-147 | at most `max_retries` attempts, each throttled first; every attempt before the last saw 429 or 5xx; each wait is Retry-After, else 1 s, for 429 or min(2^(a-1), 8) s for 5xx; other statuses return at once; exhaustion returns the last response |
| Sync.Shopify.GetLocationByName | src/sync.py:179-188 | locations are fetched only when the cache is empty, and cached even when the list is empty; the answer is the cached-list lookup |
| Sync.ApplyRow | src/sync.py:255-282 | a row acts exactly when its product id is blank or has a non-empty gid tail; a raise happens only on an acting row |
| Sync.ApplyGroup | src/sync.py:255-282 | a group succeeds exactly when no acting row raises, and then produces exactly the acting rows' actions, in order |
| Sync.ApplyGroups | src/sync.py:255-282 | the nested loops stop at the first group where an acting row raises; otherwise they produce every acting row's action in group order, count them, and record every group's key in order |
| Sync.ApplyUpdates | src/sync.py:236-284 | a dry run without `--apply` does nothing; otherwise the run succeeds exactly when no acting row raises, and then counts one per acting row and lists every group key once, in group order |
| Sync.RunSync | src/sync.py:288-309 | the summary counts the selected rows, the distinct keys and the empty keys; a completed run applies one per acting selected row |
| Http.CappedStepSchedule | src/sync.py:139 | the 5xx wait is 1, 2, 4, 8 s and then stays at 8 s; it never shrinks |
| Http.ClientBackoffStep | src/shopify_client.py:72-106 | doubling the backoff capped at 20 s gives 1, 2, 4, 8, 16 s and then 20 s |
| Http.MinIntervalWait | src/shopify_client.py:38-49 | the wait ends exactly at the minimum interval after the last call, and is zero once that has passed |
| Http.ExhaustedMeansAllRetried | src/shopify_client.py:73-119 | exhaustion that was not a raise means every allowed attempt was made and each one asked for a retry |
| Json.PurgeNullFree | src/sync.py:213-217 | purging leaves no null as a dict value or list element, at any depth |
| Json.PurgeIdempotent | src/sync.py:213-217 | purging twice is the same as purging once |
| Json.PurgeKeepsNullFree | src/sync.py:213-217 | a value without nulls is left unchanged |
| Json.PurgeFieldsKeepsEntry | src/sync.py:215 | every non-null dict entry survives, with its value purged |
| Json.PurgeFieldsOnlyEntries | src/sync.py:215 | every surviving dict entry comes from a non-null entry of the input |
| Json.PurgeItemsKeepsElement | src/sync.py:217 | every non-null list element survives, purged |
| ShopifyClient.RatePauseOfHeader | src/shopify_client.py:57-65 | for a header "used/cap", the client pauses exactly when cap > 0 and used/cap > 0.85 |
| ShopifyClient.RatePauseNeedsOneSlash | src/shopify_client.py:57-65 | a header without exactly one '/' never causes a pause |
| ShopifyClient.ParseCallLimitShow | src/shopify_client.py:60-62 | "used/cap" written in digits parses back to the pair |
| ShopifyClient.Client.constructor | src/shopify_client.py:19-36 | REST and GraphQL intervals default to 120 ms and retries to 8; no call has been made yet |
| ShopifyClient.Client.Rest | src/shopify_client.py:67-119 | waits the minimum interval once, then runs the attempt loop; the attempts are the REST trace and the result is its outcome |
| ShopifyClient.Client.RestTry | src/shopify_client.py:74-117 | one attempt classifies its event and records the call time only for a supported verb whose request was delivered |
| ShopifyClient.RestSendsAtMost | src/shopify_client.py:73 | at most `max_retries + 1` requests are sent |
| ShopifyClient.RestOkMeansOkCode | src/shopify_client.py:90-91 | success means the last response had an ok code; the result is its parsed body, or `{}` when there was no content |
| ShopifyClient.RestBackoffSchedule | src/shopify_client.py:72-107 | the i-th jittered sleep has base 2^i s, capped at 20 s |
| ShopifyClient.RestRetryAfterExact | src/shopify_client.py:92-101 | a 429/430 with Retry-After sleeps exactly that long and leaves the backoff unchanged |
| ShopifyClient.RestClientErrorRetried | src/shopify_client.py:109-117 | any other 4xx is retried with backoff and raised only on the final attempt |
| ShopifyClient.RestHttpErrorIsFinal | src/shopify_client.py:109-117 | an HTTP error escapes only after the final attempt, and only for a 4xx status |
| ShopifyClient.RestExhaustedMeans | src/shopify_client.py:119 | "REST exhausted retries" means every allowed attempt was made and each asked for a retry |
| ShopifyClient.RestNeverFailsExhausted | src/shopify_client.py:73-119 | no single attempt raises the exhaustion error itself |
| ShopifyClient.InventoryDeleteOfRest | src/shopify_client.py:391-398 | over a whole REST DELETE call, the delete fails only with a transport error, a non-JSON body, a bad Retry-After or exhausted retries; on the final try a 4xx (not 429/430) ends it quietly and a transport failure propagates |
| ShopifyClient.ThrottlePauseThreshold | src/shopify_client.py:144-152 | with restoreRate missing (so 50), GraphQL pauses exactly when fewer than 25 points remain |
| ShopifyClient.ThrottlePauseDefaults | src/shopify_client.py:144-152 | a throttle status with both fields missing pauses |
| ShopifyClient.Client.Graphql | src/shopify_client.py:130-171 | waits the minimum interval once before the loop; the attempts are the GraphQL trace and the result is its outcome |
| ShopifyClient.Client.GqlTry | src/shopify_client.py:139-167 | one attempt classifies its event and records the call time when the post was delivered |
| ShopifyClient.GqlSendsAtMost | src/shopify_client.py:135 | at most `max_retries + 1` posts are sent |
| ShopifyClient.GqlOkEnds | src/shopify_client.py:154-157 | a 200 with errors raises, and any other 200 returns `data`, or `{}` |
| ShopifyClient.GqlRetriedStatuses | src/shopify_client.py:159-169 | 429, 430 and ≥ 500 are retried; any other 4xx raises at once |
| ShopifyClient.GqlBackoffSchedule | src/shopify_client.py:159-167 | the i-th jittered GraphQL sleep has base 2^i s, capped at 20 s |
| ShopifyClient.ProductUpdateInput | src/shopify_client.py:214-221 | the loop builds the input with `id`, then one entry per optional field passed |
| ShopifyClient.ProductInputKeys | src/shopify_client.py:217-221 | the input's keys are `id` and exactly the optional fields that were passed, in order; an empty tag list is still sent |
| ShopifyClient.ProductInputGet | src/shopify_client.py:217-221 | each key holds the value passed for it |
| ShopifyClient.BulkPayload | src/shopify_client.py:266 | one entry per (id, price, compareAt) tuple, in order; a missing compare-at price is sent as null |
| ShopifyClient.MetafieldsPayload | src/shopify_client.py:354-362 | one entry per metafield, in order, each naming the owner |
| ShopifyClient.CheckMutationOfGraphql | src/shopify_client.py:208-211 | over a whole GraphQL call, a mutation succeeds or reports user errors only after a last 200 without `errors`, succeeds exactly when that data has no user errors and then returns its result; a last 200 with `errors` is reported as that error |
| ShopifyClient.CreateMediaFromUrls | src/shopify_client.py:293-330 | one media creation per (url, name), in order, with alt ""; ids are returned in that order; each media is renamed to name + "-Outlet"; the loop stops at the first failure |
| ReorderCollection.Reorder.constructor | src/reorder_collection.py:27-46 | interval 0.7 s and 5 retries unless the environment overrides them |
| ReorderCollection.Reorder.CallTry | src/reorder_collection.py:57-106 | one attempt throttles first, classifies its event, and records the call time when delivered |
| ReorderCollection.Reorder.Graphql | src/reorder_collection.py:55-109 | the attempts are the call trace, the result is its outcome, and each attempt is throttled |
| ReorderCollection.Throttles | src/reorder_collection.py:48-53 | each attempt's throttle waits until the interval since the previous delivered call has passed |
| ReorderCollection.CallSendsAtMost | src/reorder_collection.py:57 | at most `max_retries` attempts are made |
| ReorderCollection.CallStepRetries | src/reorder_collection.py:76-106 | a 5xx, a transport failure or an unparsable body waits min(2^(a-1), 8) s and retries |
| ReorderCollection.CallStepRateLimited | src/reorder_collection.py:69-73 | a 429 waits Retry-After, or 2 s when the header is absent; an unusable header raises |
| ReorderCollection.CallStepRaises | src/reorder_collection.py:83-92 | any other status ≥ 400 raises, and a body with an "errors" key raises even when the list is empty |
| ReorderCollection.CallOkMeans | src/reorder_collection.py:88-94 | success means the last response was below 400 with no errors key, and the result is its `data` |
| ReorderCollection.CallExhaustedMeans | src/reorder_collection.py:109 | exhaustion means every allowed attempt was made and each asked for a retry |
| ReorderCollection.PageItems | src/reorder_collection.py:164-181 | one item per product that has a variant, in order, priced from its first variant |
| ReorderCollection.GetCollectionProducts | src/reorder_collection.py:111-190 | the cursor loop returns the crawl of the pages from the first cursor |
| ReorderCollection.CrawlItemsFromVariants | src/reorder_collection.py:164-181 | every listed item comes from a fetched product that has a variant |
| ReorderCollection.CrawlMissingCollection | src/reorder_collection.py:157-159 | a missing collection makes the listing fail |
| ReorderCollection.CrawlEndsAtLastPage | src/reorder_collection.py:184-187 | a completed listing reached a page with `hasNextPage` false |
| ReorderCollection.DiscountCases | src/reorder_collection.py:192-207 | the discount is 0 without a positive compare-at price or when the price is not below it; otherwise it is the share saved, rounded to two places, and that share before rounding lies in (0, 100] for a non-negative price |
| ReorderCollection.SortByDiscount | src/reorder_collection.py:209-231 | the result is a permutation of the ranked input, ordered by discount descending and then by lower-case title, with ties kept in input order |
| ReorderCollection.Ranks | src/reorder_collection.py:217-218 | each record gets the discount computed from its own prices |
| ReorderCollection.SortStable | src/reorder_collection.py:221-224 | records with equal sort keys keep their input order |
| ReorderCollection.BeforeTotal | src/reorder_collection.py:221-224 | any two records are comparable under the sort key |
| ReorderCollection.BeforeTrans | src/reorder_collection.py:221-224 | the sort key's order is transitive |
| ReorderCollection.Moves | src/reorder_collection.py:243-248 | move i sends `ids[i]` to position `str(i)` |
| ReorderCollection.MovePositions | src/reorder_collection.py:243-248 | each move's position parses back to its index |
| ReorderCollection.BuildMoves | src/reorder_collection.py:243-248 | the loop builds exactly those moves |
| ReorderCollection.BatchCountRange | src/reorder_collection.py:251-254 | batch k exists exactly when 250·k < n, so there are ceil(n/250) batches |
| ReorderCollection.BatchBounds | src/reorder_collection.py:251-257 | every batch holds 1 to 250 moves, and every batch but the last holds exactly 250 |
| ReorderCollection.SendBatches | src/reorder_collection.py:251-297 | batches are consecutive slices; all sent batches before the last succeeded; success means all were sent, their concatenation is the move list and the job ids are collected; a batch with user errors stops the loop; the pause happens only between batches |
| ReorderCollection.PendingMeansRunning | src/reorder_collection.py:314-340 | a job is still pending exactly when every check so far reported it running |
| ReorderCollection.PendingNeverGrows | src/reorder_collection.py:314-340 | the pending set never grows from one round to the next |
| ReorderCollection.WaitForJobs | src/reorder_collection.py:306-346 | the loop ends with the jobs still running in every round, and stops when none remain or the time is up |
| ReorderCollection.ReorderCollection | src/reorder_collection.py:233-304 | on success every move was sent in batches; on failure the last batch sent failed; the wait runs exactly when there is at least one job id |
| FixPrices.PricePairFallback | fix_prices.py:75-87 | the sale price is the cleaned outlet price, else the cleaned high price, else "0.00"; the full price is the cleaned high price unless it is missing or "0.00", and then equals the sale price; both are non-empty |
| FixPrices.FirstRowDecides | fix_prices.py:70 | only the first row of a SKU group decides the outcome |
| FixPrices.SkipNoProductIdFirst | fix_prices.py:95-99 | a blank product id gives SKIP_NO_PRODUCT_ID, and that happens exactly when no remote read is made |
| FixPrices.FindOutletVerdicts | fix_prices.py:102-118 | a lookup stops only with ERROR or SKIP_NOT_FOUND, and an outlet found through its gid counts as ACTIVE |
| FixPrices.GidCountsAsActive | fix_prices.py:104-112 | an id with the product-gid prefix never gives SKIP_DRAFT |
| FixPrices.HandleLookupOutcomes | fix_prices.py:113-127 | for a handle, a raised lookup gives ERROR, no product gives SKIP_NOT_FOUND, and a non-ACTIVE product gives SKIP_DRAFT with no update |
| FixPrices.FinishSkuShape | fix_prices.py:124-142 | after a lookup, SKIP_DRAFT happens exactly when the outlet is not ACTIVE |
| FixPrices.FinishSkuUpdate | fix_prices.py:133-160 | a dry run never updates; an update is sent only when applying, with the outlet's id and the price pair, and the outcome is ERROR exactly when it raises |
| FixPrices.UpdateOnlyWhenApplying | fix_prices.py:53-160 | the same facts for a whole SKU, and the update carries the first row's price pair |
| FixPrices.SelectRows | fix_prices.py:207-224 | the loop keeps exactly the rows that pass the online flag and have a quantity above 0 |
| FixPrices.SelectedMembers | fix_prices.py:207-224 | a row is selected exactly when it is truthy online and its quantity is positive |
| FixPrices.GroupBySku | fix_prices.py:233-242 | the loop builds the grouping of rows by stripped SKU |
| FixPrices.GroupBySkuMembers | fix_prices.py:233-242 | a row is in a SKU's group exactly when it has that non-empty SKU; groups come in first-seen order; "" is never a group |
| FixPrices.TallyCounts | fix_prices.py:264-282 | each counter equals the number of SKUs with that outcome |
| FixPrices.TallyTotal | fix_prices.py:264-282 | the counters add up to the number of SKUs |
| FixPrices.TallyNoErrors | fix_prices.py:264-303 | the error counter is 0 exactly when no SKU ended in ERROR |
| FixPrices.ProcessSkus | fix_prices.py:255-282 | the loop gives one outcome per SKU group and the tally of those outcomes |
| FixPrices.RunMain | fix_prices.py:163-303 | dry run is on unless `--apply` is given without `--dry-run`; a sheet failure exits 1; no selected rows exits 0; a failed client exits 1; otherwise the exit code is 0 exactly when no SKU ended in error |
| VariantReset.BuildVariantInput | src/variant_reset.py:236-279 | the variant input holds no None value |
| VariantReset.BuildVariantInputShape | src/variant_reset.py:262-279 | the input is the variable fields with their None values dropped, followed by the five fixed fields |
| VariantReset.BuildVariantInputFirstThree | src/variant_reset.py:246-259 | only the first three selected options matter |
| VariantReset.BuildVariantInputOption | src/variant_reset.py:246-259 | optionK holds x exactly when the record's K-th option has the value x |
| VariantReset.BuildVariantInputInventory | src/variant_reset.py:270 | `inventory_management` is present exactly when there is an inventory item, and it is then "shopify" |
| VariantReset.BuildVariantInputOfListing | src/variant_reset.py:237-279 | a record as listed, without price or options, is recreated with price "0.00" and no option1 |
| VariantReset.ResetProductVariants | src/variant_reset.py:16-233 | a failed fetch or zero variants returns False with no mutation; one variant returns True with no mutation; otherwise the mutations are exactly the reset sequence, and the call returns True unless a mapped variant's backed-up level lacks `location_id`, when the `KeyError` of step 8 escapes |
| VariantReset.BackupInventory | src/variant_reset.py:71-89 | the loop backs up the inventory levels of every variant that has an item id |
| VariantReset.DeletePhase | src/variant_reset.py:93-107 | variants 2..N not matched by the skip filter are deleted, in order |
| VariantReset.RecreatePhase | src/variant_reset.py:115-139 | the same variants are recreated in order, and the mapping records each one whose creation returned an item id |
| VariantReset.RecreateOne | src/variant_reset.py:115-135 | one creation sends the variant's input and extends the mapping only when an item id came back |
| VariantReset.RestoreLevels | src/variant_reset.py:178-195 | the loop sets every backed-up level with a truthy location of every mapped variant, passing `available` as read with default 0, and None when it is null |
| VariantReset.CleanupLocations | src/variant_reset.py:200-230 | the loop deletes the extra levels of each mapped variant up to the first whose backup holds a level without `location_id`, and reports whether it stopped there |
| VariantReset.DefaultFilterSkips | src/variant_reset.py:14-19 | with the default filter "perso", a variant is left alone exactly when its lowercased title contains "perso" |
| VariantReset.DeletesExactlyKept | src/variant_reset.py:97-100 | a variant among 2..N is deleted exactly when its title does not match the skip filter |
| VariantReset.CreatesOnlyKept | src/variant_reset.py:120-157 | every recreated variant is an original one not matched by the skip filter, sent with its own input |
| VariantReset.ResetFirstVariant | src/variant_reset.py:142-173 | the first variant is always deleted, and recreated right after only when its title does not match the skip filter |
| VariantReset.ResetOrder | src/variant_reset.py:91-173 | all deletes of 2..N come first, then their recreates, then the delete of the first; a create is followed by a delete only for that delete of the first |
| VariantReset.ResetLayout | src/variant_reset.py:91-173 | variant deletes sit only in the first block and at the first variant's slot, and creates only after the first block |
| VariantReset.MappingMeans | src/variant_reset.py:128-169 | an old gid is mapped only to the item id its own recreation returned |
| VariantReset.RestoreMeans | src/variant_reset.py:178-195 | a level is set exactly for a backed-up level of a mapped variant that has a truthy location, with its original `available`: 0 when the key is missing, None when it is null |
| VariantReset.CleanupMeans | src/variant_reset.py:200-230 | a level is deleted exactly when a mapped, backed-up variant has it now, before its first current level without `location_id`, at a location outside its original locations |
| VariantReset.CleanedUpMeans | src/variant_reset.py:200-208 | step 8 gets through every mapped variant exactly when no backed-up level lacks `location_id`, and every variant it gets through has only keyed backed-up levels |
| VariantReset.CleanupNoVariantOps | src/variant_reset.py:200-230 | cleanup only deletes inventory levels |
| VariantReset.RestoreNoVariantOps | src/variant_reset.py:178-195 | restore only sets inventory levels |
| ChannelManager.Partition | src/channel_manager.py:44-53 | the loop splits the publication ids into kept and other, in input order |
| ChannelManager.PartitionExact | src/channel_manager.py:44-53 | every publication lands in exactly one list: kept exactly when some configured name, lower-cased, is a substring of its lower-cased name; the sizes add up |
| ChannelManager.DefaultKeepsItsNames | src/channel_manager.py:30-48 | with the default names, "Online Store", "Negozio online" and "Point of Sale" are kept |
| ChannelManager.SuccessesExtremes | src/channel_manager.py:60-68 | the count of successes is at most the number of attempts, and equals it when every unpublish succeeds |
| ChannelManager.UnpublishAll | src/channel_manager.py:60-68 | one unpublish is attempted per other publication, in order, and the count is the number that succeeded |
| ChannelManager.RestrictToOnlineStoreOnly | src/channel_manager.py:13-76 | the result is True exactly when the fetch worked and some publication is kept; otherwise nothing is attempted; when True every other publication is attempted once |

## Left out

- HTTP transport is not modelled: sessions, URLs, headers, GraphQL query text, gspread authentication and `update_cell`. Each gateway is fed a scripted `net: nat -> Event` of responses, timeouts and connection errors, and a sheet write is returned as the cell it would write.
- Wall-clock time is not modelled; clock readings are parameters.
- Sleeps are not performed. The throttle waits, the retry sleeps of the three clients and the 2 s job-poll sleep are returned as their lengths in milliseconds. Three other pauses are not returned as lengths. The `_jitter(0.4)` and `_jitter(0.3)` rate pauses (src/shopify_client.py:63, 152) are only the flag `Http.Attempt.pause`. The 1 s pause between reorder batches (src/reorder_collection.py:297) is only a batch index in `pausedAfter`. The `delay` pauses of src/variant_reset.py are left out.
- The random jitter of `_jitter` (src/shopify_client.py:15-16) is recorded as the base of the jittered sleep, because it is randomness over floats.
- Floating point is not computed, with one exception. `float()`, `"%.2f"`, `round(x, 2)`, `int(float(...))` and the float that `parse_price` returns are all function parameters. The string-cleaning stages before them are modelled faithfully, except that only ASCII digits count as digits (see Sync.CleanPriceDigits below). The exception is ReorderCollection.RawDiscount, which computes `(compare_at - price) / compare_at * 100` in exact real arithmetic instead of floats; only its rounding is a parameter.
- Strings: `lower()` and `strip()` are ASCII-only. Python folds all of Unicode and strips all Unicode whitespace.
- Sync.CleanPriceDigits: only the ASCII digits '0'..'9' are kept (Sync.IsPriceChar). The regular expression `\d` of src/sync.py:67 also keeps every other Unicode decimal digit, such as Arabic-Indic digits; there is no Unicode character database here.
- Strings: substring tests are on code points, with no normalisation.
- Missing helpers are function parameters with no assumed behaviour. The code imports or calls them, but nothing in the repository defines them.
  - fix_prices.py:37-43 imports `gs_read_rows`, `_clean_price` and `_truthy_si` from src/sync.py, which defines none of them, so the script stops with `ImportError` as written.
  - src/variant_reset.py:11 imports `gid_to_id` from src/utils.py, which does not define it, so the module fails to import as written.
  - `variant_create`, `variant_delete` and `inventory_levels_get` (src/variant_reset.py), and `get_publications` and `unpublish_from_publication` (src/channel_manager.py), are not methods of `ShopifyClient` (src/shopify_client.py). `find_product_by_handle` and `variants_bulk_update_prices` (fix_prices.py) are not methods of the `Shopify` class of src/sync.py. As written, these calls raise `AttributeError`.
  - As written, `restrict_to_online_store_only` therefore always returns False: the `AttributeError` from `shop.get_publications()` at src/channel_manager.py:37 is caught at line 74.
  - The model supplies each missing helper as an answer parameter, so it describes the scripts as they would run once the helpers exist.
- VariantReset.ResetProductVariants: the `gid_to_id` parameter (`gidToId`) is assumed not to raise. In the source, a raise at src/variant_reset.py:81 would escape the function, because that line is outside any `try`.
- main.py is not part of this model; it only dispatches on the command line and the environment.
- src/config.py is not part of this model; it loads environment variables into dataclasses.
- src/exceptions.py is not part of this model; it only declares exception classes, which are error datatypes here.
- pandas is not modelled. `pd.isna` becomes the `Missing` case of a price cell, and only the column-name mapping of `normalize_columns` is kept.
- Logging is not modelled, including the discount histogram of src/reorder_collection.py:382-390.
- `main` of src/reorder_collection.py (348-400) is not modelled; it is command-line and environment handling.
- Of src/shopify_client.py, the model covers `_rest`, `graphql`, `_handle_rate_headers`, the user-error check of `product_duplicate` (ShopifyClient.CheckMutation), and the payloads of `product_update`, `product_variants_bulk_update`, `set_product_metafields` and `product_create_media_from_urls`. It also covers `inventory_delete`. The other methods are single calls with no logic of their own, and they are not modelled. These are the title searches, `get_product_variants`, `get_product_media`, `get_product_metafields`, `get_locations`, `inventory_levels_for_item`, `inventory_connect`, `inventory_set`, and the product, image and collect REST helpers.
- ReorderCollection.GetCollectionProducts: the cursor loop is bounded by a page budget (`maxPages`). Running out of it is an error the source cannot reach, because its loop has no bound.
- ReorderCollection.WaitForJobs: the time the checks of a round take (the clock beyond the 2 s sleeps) is a parameter, `extraMs`.
- ShopifyClient.CheckMutationOfGraphql: how a wrapper reads `userErrors` and its result out of `data` is the parameter `answer`. A `data` without those keys would raise `KeyError` or `TypeError`, and that is not modelled.
- Sync.Shopify.Call: the high-level operations built on the four wrappers (`ensure_active`, `create_product_with_one_variant`, the inventory calls) are reduced to whether a row raises (Sync.ApplyUpdates).
- Sync.Shopify.Request: a `Retry-After` that `float()` parses to a negative number, "nan" or "inf" (src/sync.py:129) makes `time.sleep` raise at line 134. The model's header is a non-negative whole number of milliseconds, or no number, so these raises are not modelled.
- Sync.ApplyUpdates: whether a row raises is a predicate parameter, so what `create_product_with_one_variant` and the inventory calls do remotely is not modelled.
- FixPrices.RunMain: an exception escaping `fix_prices_for_sku` would be counted as an error (fix_prices.py:280-282). Here every remote failure is already an outcome of the classifier.
- FixPrices.FixPricesForSku expects a non-empty group, which `main` always passes.
- VariantReset.ResetProductVariants: failed remote calls are not modelled. The source logs and skips a failed delete (src/variant_reset.py:106, 151), a failed level set (:194) and a failed level delete (:225). In the model each mutation is only listed, and a creation is the only answer read. A missing `location_id` is modelled. In a backed-up level it raises a `KeyError` out of the function, because line 208 is outside any `try`. In a current level it raises at line 216, is caught at line 229, and ends that variant's remaining deletes.
- VariantReset.ResetProductVariants: the `delay=0.6` default (src/variant_reset.py:18) is not modelled. Neither are the pauses of that length after each mutation (lines 105, 137, 150, 171, 193, 223). The filter is a parameter of every operation. Its default, `skip_filter="perso"` (line 17), is the constant VariantReset.DefaultSkipFilter.
- VariantReset.ResetProductVariants: an `inventoryItem` present but without an `id` is treated like a missing one. A null `inventoryItem` is not modelled. The listing query (src/shopify_client.py:246) always selects an `inventoryItem` object. A null one would make `.get("id")` raise `AttributeError` at src/variant_reset.py:80, outside any `try`.
- The variant listing of `get_product_variants` (src/shopify_client.py:237-253) returns only id, sku, title and inventory item. Variants are therefore recreated with price "0.00" and no options; VariantReset.BuildVariantInputOfListing states this.
- GSheets.WriteProductId follows the code. When "product_id" is missing or 0, the code falls back to other spellings, so the write does not always raise. But every fallback spelling normalises to "product_id" or "productid", and "productid" never occurs in an index built from a header.
- The `Reorder`, `Client` and `Shopify` constructors leave out their token checks and session setup.
- ShopifyClient.ThrottlePause: a missing `currentlyAvailable` or `restoreRate` takes its default of 0 or 50, as in the source. A null one is not modelled. `None < max(...)` or `None // 2` raises `TypeError` at src/shopify_client.py:151, outside any `try`, and the model gives it the default instead.
- ChannelManager.RestrictToOnlineStoreOnly: a publication whose `name` is null is not modelled. `None.lower()` raises at src/channel_manager.py:48; the exception is caught at line 74, and the result is False.
- A `Retry-After` that `float()` parses to a negative number, "nan" or "inf" is not modelled for `_rest` and `graphql` (src/shopify_client.py:95, 162) or for the reorder `_graphql` (src/reorder_collection.py:70). `time.sleep` raises on it (lines 100, 166 and 72). The header type Http.RetryAfter has no case for such a value.
