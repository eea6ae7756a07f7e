# Hardware inventory: a Dafny model of the asset store, the inventory manager and the dashboard

The application keeps a list of hardware assets (laptops, servers, network gear and so on),
newest first. Each asset has an id, name, category, vendor, purchase date, warranty period in
years, warranty expiry date, serial number, cost and status. This project models the logic
behind the three core screens:

- **The store** (`App` module, `App.tsx`). A class `Inventory` holds the list as a `seq<Item>`.
  `HandleAddItem` puts a new asset in front. `HandleDeleteItem` removes every asset with a
  given id and keeps the others in order. The five seed assets are modelled as literal
  records.
- **The inventory manager** (`InventoryManager` module, `components/InventoryManager.tsx`).
  - `CalculateExpiry` derives the expiry date: parse the ISO purchase date, move it on by the
    warranty years with `setFullYear`, and write it back as `YYYY-MM-DD`.
  - The form is the `Draft` record. `ApplyInput` models one change event.
  - `CreateItem` is the record `handleSubmit` builds: the guard on name, vendor and date, and
    the defaults. Warranty becomes 1 year when missing or 0, serial becomes "N/A", cost 0.
  - The class `Manager` holds the form and the search term. Its `HandleSubmit` adds the
    record to an `App.Inventory` and resets the form.
  - `Search` is the case-insensitive search filter. `IsExpired` is the expired flag of a
    table row.
- **The dashboard** (`Dashboard` module, `components/Dashboard.tsx`).
  - The counters: total assets, total value, expired warranties and active assets.
  - The chart data: a count per category and per status, in first-seen order.
- **Supporting modules.** `Types` holds the records and enums of `types.ts`. `Seqs` holds
  the generic list filter, subsequences and first-seen deduplication. `IsoDate` holds the
  part of JavaScript's `Date` the code relies on, in UTC. `Results` holds `Option` and
  `Result`. `Examples` checks the seed data and worked scenarios against the model.

29 February plus a number of years that lands in a common year is not clamped to
28 February. `setFullYear` rolls it over to 1 March, and the model does the same
(`IsoDate.SetFullYear`, `InventoryManager.LeapDayExpiry`). One consequence is that expiry
is not additive across a leap day (`InventoryManager.ExpiryNotAdditive`).

The current time, `new Date()` in the source, is a parameter `now: Instant`: a UTC date and
the milliseconds since its midnight. The fresh id from `crypto.randomUUID()` is a parameter
`id` of `HandleSubmit`, with a precondition that it is not yet in use.

## Model

| member | source | states |
|---|---|---|
| App.Inventory.constructor | App.tsx:12-73 | the store starts out holding the given list |
| App.Inventory.HandleAddItem | App.tsx:75-77 | the new list is the item followed by the old list; ids stay unique when the new id is fresh |
| App.Inventory.HandleDeleteItem | App.tsx:79-81 | the new list is the old one without the assets carrying the id; the id is gone afterwards; unique ids stay unique |
| App.WithoutId | App.tsx:80 | no longer than the list, and no asset left carries the id (the full meaning is stated by `App.DeleteSpec`) |
| App.DeleteSpec | App.tsx:79-81 | deletion keeps every copy of each asset with another id and none with the id, as a subsequence of the old list |
| App.DeleteAbsent | App.tsx:79-81 | deleting an id that is not in use leaves the list unchanged |
| App.DeleteIdempotent | App.tsx:79-81 | deleting the same id twice equals deleting it once |
| App.AddThenDelete | App.tsx:75-81 | adding an asset with a fresh id and then deleting that id restores the list exactly |
| App.AddKeepsIdsUnique | App.tsx:75-77 | after prepending, ids are unique if and only if they were unique before and the new id was not in use |
| App.DeleteKeepsIdsUnique | App.tsx:79-81 | deletion preserves unique ids |
| App.DeleteRemovesOne | App.tsx:79-81 | with unique ids, deleting an id in use shortens the list by exactly one |
| App.Seed | App.tsx:12-73 | the five seed records, in the order of the source |
| App.SeedIds | App.tsx:12-73 | the seed ids are exactly "1" to "5", pairwise distinct |
| Seqs.Filter | components/InventoryManager.tsx:63-67 | the result is no longer than the input, holds only elements satisfying the predicate, and holds every input element that satisfies it |
| Seqs.FilterCounts | components/InventoryManager.tsx:63-67 | the filter keeps every copy of an element that satisfies the predicate and no copy of one that does not |
| Seqs.FilterIsSubsequence | App.tsx:80 | a filtered list keeps the original order (it is a subsequence) |
| Seqs.FilterIdempotent | components/InventoryManager.tsx:63-67 | filtering twice with the same predicate equals filtering once |
| Seqs.FilterKeepsAll | App.tsx:80 | when every element satisfies the predicate, filtering returns the list unchanged |
| Seqs.FilterStronger | components/Dashboard.tsx:15 | filtering with a stronger predicate yields a subsequence of filtering with a weaker one, and no more elements |
| Seqs.FirstSeen | components/Dashboard.tsx:19-24 | the keys in order of first occurrence: each key once, every key of the input present, nothing else |
| Seqs.FirstSeenHas | components/Dashboard.tsx:19-24 | a key is in the first-seen list if and only if it occurs in the input |
| Seqs.FirstSeenOrder | components/Dashboard.tsx:19-24 | a key earlier in the first-seen list first occurs earlier in the input |
| IsoDate.SetFullYear | components/InventoryManager.tsx:33 | the result is a valid date in the requested year; the day of the month is kept when it exists in that year, and otherwise the days past the month's end carry into the next month (29 February becomes 1 March) |
| IsoDate.Format | components/InventoryManager.tsx:34 | the output is ten characters with dashes at positions 4 and 7 |
| IsoDate.Parse | components/InventoryManager.tsx:32 | an accepted string is in `YYYY-MM-DD` form and denotes a valid date with a four-digit year |
| IsoDate.ParseFormat | components/InventoryManager.tsx:32-34 | parsing a formatted date gives the date back |
| IsoDate.FormatParse | components/InventoryManager.tsx:32-34 | formatting a parsed date gives the original string back |
| InventoryManager.CalculateExpiry | components/InventoryManager.tsx:30-35 | an empty date gives ""; an unreadable date is an error; otherwise the result exists exactly when the expiry year has four digits, and reads back as `setFullYear` of the purchase date |
| InventoryManager.ExpiryAdvancesYear | components/InventoryManager.tsx:30-35 | the expiry is in the purchase year plus the period, with the same month and day, except that 29 February into a common year becomes 1 March |
| InventoryManager.ExpiryOfZeroYears | components/InventoryManager.tsx:30-35 | a period of zero years gives back the purchase date string itself |
| InventoryManager.ExpiryAfterPurchase | components/InventoryManager.tsx:30-35 | a positive period expires strictly after the purchase date |
| InventoryManager.ExpiryOfFormatted | components/InventoryManager.tsx:30-35 | on a formatted date, the expiry is the formatted `setFullYear` date |
| InventoryManager.LeapDayExpiry | components/InventoryManager.tsx:30-35 | "2024-02-29" plus one year is "2025-03-01" |
| InventoryManager.ExpiryNotAdditive | components/InventoryManager.tsx:30-35 | from 29 February, a years through a common year and then b more differs from a + b years at once |
| InventoryManager.ExpiryConsistentByDates | components/InventoryManager.tsx:43-52 | a record's stored expiry agrees with `calculateExpiry` if and only if it reads back as `setFullYear` of its purchase date |
| InventoryManager.CreateItem | components/InventoryManager.tsx:37-56 | the error is "missing field" exactly when name, vendor or date is empty; a record is built exactly when the form is complete and the expiry can be computed; the record carries the fresh id, a consistent expiry, a non-zero period and a non-empty serial |
| InventoryManager.ApplyInput | components/InventoryManager.tsx:22-28 | the changed field takes the new value, number fields after `parseFloat` |
| InventoryManager.CreatedItemDefaults | components/InventoryManager.tsx:41-55 | the record copies name, vendor, date, category and status; it copies an entered non-zero period, a filled-in serial and a non-zero cost; otherwise warranty 1, serial "N/A" and cost 0 |
| InventoryManager.DefaultFormWarranty | components/InventoryManager.tsx:16-20 | a form left at its defaults, with name, vendor and date filled, yields a 3-year warranty expiring on `setFullYear` of the purchase date three years on, serial "N/A" and cost 0 |
| InventoryManager.Manager.constructor | components/InventoryManager.tsx:13-20 | the form starts as category Laptop, status Active, warranty 3, and the search term starts empty |
| InventoryManager.Manager.HandleInputChange | components/InventoryManager.tsx:22-28 | the changed field takes the new value, and the rest of the form and the search term stay as they were |
| InventoryManager.Manager.SetSearchTerm | components/InventoryManager.tsx:81 | the search term takes the new value and the form is unchanged |
| InventoryManager.Manager.HandleSubmit | components/InventoryManager.tsx:37-61 | the outcome is `CreateItem` of the form. On success the record is prepended to the inventory and the form is reset; otherwise nothing changes. Unique ids stay unique |
| InventoryManager.Manager.FilteredInventory | components/InventoryManager.tsx:63-67 | the rows shown all match the search term, and every copy of each matching asset is shown, none of the others |
| InventoryManager.LowerChar | components/InventoryManager.tsx:64-66 | an upper-case ASCII letter becomes lower-case; the result is never upper-case |
| InventoryManager.ToLower | components/InventoryManager.tsx:64-66 | lowercasing keeps the length of the string |
| InventoryManager.Includes | components/InventoryManager.tsx:64-66 | `includes`: the term occurs at some position |
| InventoryManager.Matches | components/InventoryManager.tsx:63-67 | the search predicate on name, vendor and serial number |
| InventoryManager.Search | components/InventoryManager.tsx:63-67 | no more rows than assets, each matching the term (the full meaning is stated by `InventoryManager.SearchSpec`) |
| InventoryManager.SearchSpec | components/InventoryManager.tsx:63-67 | the search keeps every copy of each matching asset and none of the others, in their original order |
| InventoryManager.SearchEmptyTerm | components/InventoryManager.tsx:63-67 | an empty search term shows every asset |
| InventoryManager.SearchIdempotent | components/InventoryManager.tsx:63-67 | searching the result again with the same term changes nothing |
| InventoryManager.IncludesPrefix | components/InventoryManager.tsx:64-66 | a string that contains `t + more` contains `t` |
| InventoryManager.ToLowerAppend | components/InventoryManager.tsx:64-66 | lowercasing distributes over concatenation |
| InventoryManager.SearchNarrows | components/InventoryManager.tsx:63-67 | extending the search term gives a subsequence of the previous result, never more rows |
| InventoryManager.IsExpired | components/InventoryManager.tsx:111 | the expiry date at 00:00 UTC lies before `now`; an unreadable date is never expired |
| InventoryManager.ExpiredByCalendar | components/InventoryManager.tsx:111 | an asset is flagged if and only if its expiry day is over, or it is today and midnight has passed |
| InventoryManager.ExpiredStaysExpired | components/InventoryManager.tsx:111 | once flagged, an asset stays flagged at every later time |
| Dashboard.TotalAssets | components/Dashboard.tsx:12 | the number of assets |
| Dashboard.TotalValue | components/Dashboard.tsx:13 | the sum of the costs, folded from the left |
| Dashboard.TotalValueConcat | components/Dashboard.tsx:13 | the total value of two lists one after the other is the sum of their totals |
| Dashboard.TotalValueAfterAdd | components/Dashboard.tsx:13 | adding an asset raises the total value by exactly its cost |
| Dashboard.TotalValueNonNegative | components/Dashboard.tsx:13 | with no negative costs the total value is not negative |
| Dashboard.ExpiredWarrantyCount | components/Dashboard.tsx:15 | the expired count never exceeds the number of assets |
| Dashboard.ExpiredCountGrows | components/Dashboard.tsx:15 | the expired count does not decrease as time passes |
| Dashboard.ActiveCount | components/Dashboard.tsx:16 | the active count never exceeds the number of assets |
| Dashboard.Bump | components/Dashboard.tsx:21 | one counting step on a record whose keys keep their insertion order adds at most one entry |
| Dashboard.Tally | components/Dashboard.tsx:19-24 | the counting fold has no more entries than keys |
| Dashboard.CategoryData | components/Dashboard.tsx:19-24 | no more categories than assets (the full meaning is stated by `Dashboard.CategoryDataSpec`) |
| Dashboard.StatusData | components/Dashboard.tsx:26-31 | no more statuses than assets (the full meaning is stated by `Dashboard.StatusDataSpec`) |
| Dashboard.BumpSpec | components/Dashboard.tsx:21 | one counting step increments an existing key where it stands, or appends a new key with count 1, and changes no other entry |
| Dashboard.BumpSum | components/Dashboard.tsx:21 | one counting step adds exactly one to the total of the counts |
| Dashboard.BumpCounted | components/Dashboard.tsx:20-23 | one counting step keeps every count equal to the number of occurrences of its key |
| Dashboard.TallyNames | components/Dashboard.tsx:19-24 | the keys of the counts are the distinct keys in first-seen order |
| Dashboard.TallyValues | components/Dashboard.tsx:19-24 | each count is the number of occurrences of its key |
| Dashboard.TallySum | components/Dashboard.tsx:19-24 | the counts add up to the number of keys |
| Dashboard.CategoryDataSpec | components/Dashboard.tsx:19-24 | each category present appears once, in first-seen order, with a count equal to its number of assets and at least 1; the counts add up to the total assets |
| Dashboard.StatusDataSpec | components/Dashboard.tsx:26-31 | the same for statuses |
| Dashboard.ActiveCountMatchesStatuses | components/Dashboard.tsx:16 | the active count equals the number of Active entries among the statuses, which is the Active slice of the status chart |
| Dashboard.EmptyDashboard | components/Dashboard.tsx:12-31 | an empty inventory shows zero on every counter and no chart data |
| Examples.SeedExpiriesConsistent | App.tsx:12-73 | every seed record's expiry is what `calculateExpiry` derives from its purchase date and period |
| Examples.DellXpsConsistent | App.tsx:13-24 | the first seed record's expiry is consistent |
| Examples.MerakiApConsistent | App.tsx:25-36 | the second seed record's expiry is consistent |
| Examples.MacBookProConsistent | App.tsx:37-48 | the third seed record's expiry is consistent |
| Examples.ProLiantConsistent | App.tsx:49-60 | the fourth seed record's expiry is consistent |
| Examples.SamsungMonitorConsistent | App.tsx:61-72 | the fifth seed record's expiry is consistent |
| Examples.AddScenario | components/InventoryManager.tsx:37-61 | a form for a purchase on 2023-01-15 with 3 years gives expiry "2026-01-15" |
| Examples.DashboardScenario | components/Dashboard.tsx:15-16 | for two assets at the start of 2024, one warranty has expired and one asset is active |
| Examples.SeedTotals | components/Dashboard.tsx:12-16 | the seed inventory shows 5 assets, a total value of 9998 and 4 active assets |
| Examples.SeedCategoryData | components/Dashboard.tsx:19-24 | the seed category chart is Laptop 2, Networking 1, Server 1, Peripheral 1 |
| Examples.SeedStatusData | components/Dashboard.tsx:26-31 | the seed status chart is Active 4, In Repair 1 |

## Left out

- `services/geminiService.ts` and `components/AIAssistant.tsx` are not part of this model. They call an external language model over the network.
- The rendering (JSX, icons, charts, colours) is left out. So is the `isModalOpen` flag, which only opens and closes the form dialog.
- The `View` and `ChatMessage` types of `types.ts` belong to the navigation and the assistant, which are not modelled.
- Costs and warranty periods are integers. `parseFloat` results with a fraction and floating-point sums are not modelled. A number field that `parseFloat` turns into NaN is modelled as a missing value (`None`).
- Dashboard.TotalValue: an asset whose stored cost is NaN (the `|| 0` case) cannot occur, because costs are integers.
- Dates are read only in the `YYYY-MM-DD` form that the date input yields, in UTC. Other strings that `new Date` accepts, and local-timezone effects, are not modelled.
- IsoDate.Parse: a day past the end of its month (such as 2023-02-30) counts as an unreadable date. JavaScript engines differ on such strings.
- InventoryManager.CalculateExpiry: when the expiry year falls outside 0..9999, the result is an error. JavaScript would write an extended six-digit year.
- A purchase date that is not empty but cannot be read makes the source throw from `toISOString`. The model returns an error instead, and `HandleSubmit` then changes nothing.
- InventoryManager.LowerChar: lowercasing covers ASCII letters only. Unicode case mapping is not modelled.
- Chart entries are named by the enum values themselves rather than by their display strings ("In Repair" and so on).
- `crypto.randomUUID()` is a parameter `id` with a precondition that it is fresh. Randomness is not modelled.
