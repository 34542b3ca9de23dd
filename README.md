# Logixy CRM in Dafny

Logixy CRM is a small React front end for a freight-forwarding business. It has a
client register, a quotation register with a rate search, a dashboard and a
header navigation. Under the markup sits a thin layer of logic. This project
models that layer and proves what it promises:

- the record edits the client and quotation cards make;
- the derived quotation total;
- the select boxes that show `''` as a placeholder item;
- the saving and opening of records on the two list pages;
- the month filter and the list of months it offers;
- the holding-ordered client table and the holding count;
- the rate recommendation;
- the dashboard's counts, charts and top-five lists;
- the active-link test of the navigation.

One Dafny module per source file or shared concern:

- `types.dfy` (module `Types`): the records and enumerations of `data/types.ts`
- `sequences.dfy` (module `Sequences`): the array built-ins the pages use (`filter`, `map`, `findIndex` + indexed write, `new Set`, stable `sort`, `slice`, `reverse`, `reduce` sums)
- `collation.dfy` (module `Collation`): the string order used by the sorts
- `codes.dfy` (module `Codes`): record codes `prefix + String(n).padStart(6, '0')`
- `selects.dfy` (module `Selects`): the `value={field || placeholder}` / `v === placeholder ? '' : v` select mapping
- `client_card.dfy` (module `ClientCard`): `components/ClientCard.tsx`
- `quotation_card.dfy` (module `QuotationCard`): `components/QuotationCard.tsx`
- `rate_search.dfy` (module `RateSearch`): `recommendedPrice` of `pages/QuotationsPage.tsx`
- `quotations_page.dfy` (module `Quotations`): the rest of `pages/QuotationsPage.tsx`
- `clients_page.dfy` (module `Clients`): `pages/ClientsPage.tsx`
- `dashboard.dfy` (module `Dashboard`): `pages/DashboardPage.tsx`
- `layout.dfy` (module `Layout`): `components/Layout.tsx`

The cards only compute a new record from the old one, so they are functions on
values. The two list pages keep state that their handlers update, so each page
is a class. Its fields are the page's `useState` variables, and each handler is
a method whose `ensures` gives the whole new state. Saving copies the list into
an array, writes the matching index and reads the array back, as the page does.
The dashboard's counters are filled in place by a loop (`Dashboard.Tally`),
which is proved equal to a counter function (`Dashboard.Histogram`). The lemmas
about the counters are stated on that function.

JavaScript semantics the model keeps:

- **Sorting.** `Array.prototype.sort` is stable. `Sequences.SortBy` is a stable
  insertion sort with a "may precede" relation. That relation holds when the
  comparator returns a value ≤ 0.
- **Counters.** A JavaScript object whose keys are not array indices lists its
  entries in insertion order. So a counter is a sequence of (key, count) pairs
  in order of first appearance. Ties among the top routes are therefore broken
  as the page breaks them.
- **Sets.** `new Set(xs)` keeps first appearances in order (`Sequences.Distinct`, with the order stated by `Sequences.DistinctInOrder`).
- **Rounding.** `Math.round(x)` is `floor(x + 0.5)`.
- **Slices.** `slice(-5)` is the last five elements, or all of them when there
  are fewer. `substring(0, 7)` of a shorter string is the whole string.
- **Collation.** `localeCompare` and the default string `sort()` are both
  modelled by lexicographic order on character codes (`Collation.Less`). The
  sorting proofs only use the fact that it is a total order.

The quotation field `type` is named `containerType` in `Types.Quotation`, because
`type` is a Dafny keyword.

The holding order keys an empty holding as "zzz". `Clients.EmptyHoldingsPlacement`
proves that clients without a holding come after every holding that sorts before
"zzz". They come before every holding that sorts after it, such as a lower-case
or Cyrillic name beginning with "zzz" or a later letter. The model keeps that
behaviour as written.

## Model

| member | source | states |
|---|---|---|
| `Sequences.Upsert` | logixy-crm/src/pages/ClientsPage.tsx:189-196 | with no record of the same id the record is appended; otherwise exactly the first record with that id is replaced and the rest of the list, its length included, is unchanged |
| `Sequences.UpsertKeepsIdsUnique` | logixy-crm/src/pages/ClientsPage.tsx:188-196 | saving into a list with unique ids keeps the ids unique, and the saved record is the only one with its id |
| `Sequences.UpsertIdempotent` | logixy-crm/src/pages/QuotationsPage.tsx:161-169 | saving the same record twice gives the same list as saving it once |
| `Sequences.IndexOfId` | logixy-crm/src/pages/QuotationsPage.tsx:162 | `findIndex` by id: -1 exactly when no record has the id, otherwise the first index that has it |
| `Sequences.Filter` | logixy-crm/src/pages/QuotationsPage.tsx:38 | `filter` keeps exactly the elements that pass, taken from the input, never more of them |
| `Sequences.FilterAppend` | logixy-crm/src/pages/QuotationsPage.tsx:38 | filtering distributes over concatenation, so the order of the kept elements is the input order |
| `Sequences.FilterDisjointBound` | logixy-crm/src/pages/DashboardPage.tsx:22-23 | two filters with disjoint predicates keep together no more elements than the input has |
| `Sequences.FilterCount` | logixy-crm/src/components/ClientCard.tsx:107 | a filter keeps every copy of a passing value and no copy of a rejected one |
| `Sequences.Distinct` | logixy-crm/src/pages/QuotationsPage.tsx:43-44 | `new Set`: every input value appears, nothing else does, and nothing appears twice |
| `Sequences.DistinctInOrder` | logixy-crm/src/pages/QuotationsPage.tsx:43-44 | the distinct values are listed in the order of their first appearance in the input |
| `Sequences.DistinctCard` | logixy-crm/src/pages/ClientsPage.tsx:34 | the size of the set is the number of distinct values of the input |
| `Sequences.SortBy` | logixy-crm/src/pages/ClientsPage.tsx:29 | the sorted copy is a permutation of the input |
| `Sequences.SortBySorted` | logixy-crm/src/pages/ClientsPage.tsx:29 | for a total, transitive comparator the copy is sorted |
| `Sequences.TakeSorted` | logixy-crm/src/pages/DashboardPage.tsx:29-31 | sort-then-slice: the kept part is sorted, kept and dropped parts together are the input, and every kept element may precede every dropped one |
| `Sequences.Take` | logixy-crm/src/pages/DashboardPage.tsx:31 | `slice(0, k)` is the prefix of length min(k, n) |
| `Sequences.Reverse` | logixy-crm/src/pages/QuotationsPage.tsx:44 | `reverse` puts element i at position n-1-i |
| `Collation.AtMostTotalPreorder` | logixy-crm/src/pages/ClientsPage.tsx:29 | the string comparison is total and transitive, as `sort` needs |
| `Collation.LessTransitive` | logixy-crm/src/pages/QuotationsPage.tsx:44 | the strict string order is transitive |
| `Collation.LessTotal` | logixy-crm/src/pages/QuotationsPage.tsx:44 | of two different strings one sorts before the other |
| `Codes.Decimal` | logixy-crm/src/pages/ClientsPage.tsx:162 | `String(n)` is a non-empty string of digits without a leading zero |
| `Codes.DecimalRoundTrip` | logixy-crm/src/pages/ClientsPage.tsx:162 | reading the decimal digits back gives the number |
| `Codes.PadStart` | logixy-crm/src/pages/QuotationsPage.tsx:139 | `padStart(width, fill)` ends with the string, is at least `width` long and is filled in front with `fill` |
| `Codes.RecordCodeRoundTrip` | logixy-crm/src/pages/QuotationsPage.tsx:139 | a record code starts with its prefix and the digits after it read back as the number it was made from |
| `Codes.RecordCodeLength` | logixy-crm/src/pages/ClientsPage.tsx:162 | below a million a code is its prefix plus exactly six characters |
| `Codes.RecordCodeInjective` | logixy-crm/src/pages/QuotationsPage.tsx:139 | different numbers give different codes |
| `Selects.Shown` | logixy-crm/src/components/QuotationCard.tsx:351 | the select shows the placeholder exactly for an empty (or placeholder-valued) field, and the stored text otherwise |
| `Selects.Stored` | logixy-crm/src/components/QuotationCard.tsx:352 | choosing the placeholder stores `''`; any other choice is stored verbatim |
| `Selects.StoredAfterShown` | logixy-crm/src/components/QuotationCard.tsx:351-352 | choosing the shown item stores the field back unchanged, except a field whose text is the placeholder itself |
| `Selects.ShownAfterStored` | logixy-crm/src/components/ClientCard.tsx:298-299 | after choosing an item the select shows that item |
| `ClientCard.FieldChange` | logixy-crm/src/components/ClientCard.tsx:68-70 | a field change sets exactly the named field and leaves every other field unchanged |
| `ClientCard.FieldsDetermineClient` | logixy-crm/src/components/ClientCard.tsx:68-70 | the field keys cover the whole record: clients equal on every key are equal |
| `ClientCard.FieldChangeLaws` | logixy-crm/src/components/ClientCard.tsx:68-70 | writing a field's own value is a no-op, and the later of two writes to one field wins |
| `ClientCard.Without` | logixy-crm/src/components/ClientCard.tsx:75 | `filter(d => d !== x)` removes every occurrence of x and keeps all other entries |
| `ClientCard.Toggle` | logixy-crm/src/components/ClientCard.tsx:72-77 | a toggle flips the value's membership and keeps every other entry |
| `ClientCard.ToggleKeepsOrder` | logixy-crm/src/components/ClientCard.tsx:73-76 | the other entries keep their relative order |
| `ClientCard.ToggleTwiceAbsent` | logixy-crm/src/components/ClientCard.tsx:73-76 | an absent value is appended at the end, and toggling it again restores the list exactly |
| `ClientCard.ToggleTwicePresent` | logixy-crm/src/components/ClientCard.tsx:73-76 | toggling a present value twice leaves one copy of it, at the end |
| `ClientCard.DirectionToggle` | logixy-crm/src/components/ClientCard.tsx:72-78 | the directions become the toggled list and nothing else changes |
| `ClientCard.ServiceToggle` | logixy-crm/src/components/ClientCard.tsx:80-86 | the services become the toggled list and nothing else changes |
| `ClientCard.SetContactField` | logixy-crm/src/components/ClientCard.tsx:101 | a contact field change sets that field only |
| `ClientCard.AddContact` | logixy-crm/src/components/ClientCard.tsx:88-97 | one more contact; the existing ones are unchanged and in order; the new last one has the fresh id and empty name, position, phone and email; nothing else changes |
| `ClientCard.ContactChange` | logixy-crm/src/components/ClientCard.tsx:99-104 | same number of contacts; only contacts with the id change, and only in the named field; nothing else changes |
| `ClientCard.RemoveContact` | logixy-crm/src/components/ClientCard.tsx:106-108 | the contacts become the filter that drops the id: no contact with the id remains, every other contact is kept; nothing else changes |
| `ClientCard.RemoveContactCounts` | logixy-crm/src/components/ClientCard.tsx:106-108 | every copy of a contact with another id is kept and no copy of one with this id |
| `ClientCard.RemoveContactKeepsOrder` | logixy-crm/src/components/ClientCard.tsx:106-108 | the kept contacts stay in their order: removing from two joined parts removes from each and joins the results |
| `ClientCard.RemoveAbsentContact` | logixy-crm/src/components/ClientCard.tsx:106-108 | removing an id no contact has leaves the client unchanged |
| `ClientCard.HoldingShown` | logixy-crm/src/components/ClientCard.tsx:298 | the holding select shows 'No Holding' exactly for an empty (or 'No Holding') holding and the holding otherwise |
| `ClientCard.ChooseHolding` | logixy-crm/src/components/ClientCard.tsx:298-299 | choosing 'No Holding' stores `''`, any other item is stored verbatim, and nothing else changes |
| `ClientCard.ChooseShownHolding` | logixy-crm/src/components/ClientCard.tsx:298-299 | choosing the item shown leaves the client unchanged exactly when its holding is not literally 'No Holding' |
| `QuotationCard.FieldChange` | logixy-crm/src/components/QuotationCard.tsx:88-90 | a field change sets exactly the named field and leaves every other field unchanged |
| `QuotationCard.FieldsDetermineQuotation` | logixy-crm/src/components/QuotationCard.tsx:88-90 | the field keys cover the whole record: quotations equal on every key are equal |
| `QuotationCard.CalculatedTotal` | logixy-crm/src/components/QuotationCard.tsx:60-68 | the calculated total is the sum of the six charges |
| `QuotationCard.TotalFollowsCharges` | logixy-crm/src/components/QuotationCard.tsx:60-90 | editing a charge moves the total by exactly the change in that charge; editing any other field leaves it |
| `QuotationCard.SyncTotal` | logixy-crm/src/components/QuotationCard.tsx:78-82 | after the effect the stored total equals the calculated one, and no other field changed |
| `QuotationCard.SyncTotalIdempotent` | logixy-crm/src/components/QuotationCard.tsx:78-82 | running the effect a second time changes nothing |
| `QuotationCard.SaveQuotation` | logixy-crm/src/components/QuotationCard.tsx:84-86 | the saved quotation carries the calculated total, whatever was stored, and no other field changes |
| `QuotationCard.SaveAgreesWithSync` | logixy-crm/src/components/QuotationCard.tsx:78-86 | saving gives the same quotation as letting the effect run |
| `QuotationCard.ClientChange` | logixy-crm/src/components/QuotationCard.tsx:97-103 | a known client id sets the client id and that client's name; an unknown id leaves the quotation unchanged; other fields never change |
| `QuotationCard.ChooseClient` | logixy-crm/src/components/QuotationCard.tsx:427-428 | choosing 'none' in the client select leaves the quotation unchanged |
| `QuotationCard.ClientShown` | logixy-crm/src/components/QuotationCard.tsx:427 | the client select shows 'none' without a client and the client id otherwise |
| `QuotationCard.ChooseShownClient` | logixy-crm/src/components/QuotationCard.tsx:427-428 | choosing the item the client select shows keeps the quotation, both with no client (it shows 'none') and with a client taken from the table |
| `QuotationCard.ChooseProvider` | logixy-crm/src/components/QuotationCard.tsx:351-403 | the shipping line, agent and sales selects store `''` for 'none' and any other item verbatim, changing nothing else |
| `QuotationCard.ProviderShown` | logixy-crm/src/components/QuotationCard.tsx:351-402 | a provider select shows 'none' exactly for an empty (or 'none') field and the field's text otherwise |
| `QuotationCard.ChooseShownProvider` | logixy-crm/src/components/QuotationCard.tsx:351-403 | an empty provider field shows 'none', and choosing the shown item keeps the field unless it is literally "none" |
| `RateSearch.Prices` | logixy-crm/src/pages/QuotationsPage.tsx:185 | the prices are the results' prices, one per result, in order |
| `RateSearch.Window` | logixy-crm/src/pages/QuotationsPage.tsx:187 | the window is the last min(5, n) prices |
| `RateSearch.Mean` | logixy-crm/src/pages/QuotationsPage.tsx:186-188 | the mean times the number of prices is their sum |
| `RateSearch.TrendOf` | logixy-crm/src/pages/QuotationsPage.tsx:189 | up exactly when the recent mean is above the overall one, down exactly when below, stable exactly when equal |
| `RateSearch.Round` | logixy-crm/src/pages/QuotationsPage.tsx:191-192 | `Math.round` gives the integer within half of the value, halves rounded up |
| `RateSearch.MinOf` | logixy-crm/src/pages/QuotationsPage.tsx:194 | the minimum is one of the prices and no price is smaller |
| `RateSearch.MaxOf` | logixy-crm/src/pages/QuotationsPage.tsx:195 | the maximum is one of the prices and no price is larger |
| `RateSearch.MeanBounds` | logixy-crm/src/pages/QuotationsPage.tsx:186-188 | a mean lies between any lower and upper bound of the prices |
| `RateSearch.RoundBounds` | logixy-crm/src/pages/QuotationsPage.tsx:191-192 | rounding keeps a value within integer bounds |
| `RateSearch.Summarize` | logixy-crm/src/pages/QuotationsPage.tsx:183-197 | no recommendation exactly for no prices; otherwise the average and recent values are the means of all prices and of the last five, rounded to within a half; the trend is up or down exactly as the recent mean is above or below the overall one; min and max are prices that bound every price |
| `RateSearch.Recommend` | logixy-crm/src/pages/QuotationsPage.tsx:183-197 | the recommendation for the results is the one for their prices; none exactly when there are no results; min and max are prices of some results and bound every result's price |
| `RateSearch.CompareMeans` | logixy-crm/src/pages/QuotationsPage.tsx:186-189 | one mean exceeds another exactly when the cross products of sums and counts do |
| `RateSearch.CrossCompare` | logixy-crm/src/pages/QuotationsPage.tsx:186-189 | the same comparison of two quotients on plain numbers |
| `RateSearch.TrendByCrossMultiplication` | logixy-crm/src/pages/QuotationsPage.tsx:189 | the trend is up iff sum(window)·n > sum(all)·k, down iff it is smaller, stable iff equal |
| `RateSearch.ShortHistoryIsStable` | logixy-crm/src/pages/QuotationsPage.tsx:187-189 | with five prices or fewer the trend is stable and recent equals average |
| `RateSearch.SinglePrice` | logixy-crm/src/pages/QuotationsPage.tsx:183-197 | a single price is its own average, recent, min and max, with a stable trend |
| `RateSearch.RisingExample` | logixy-crm/src/pages/QuotationsPage.tsx:183-197 | five prices of 100 and one of 200 give average 117, recent 120, trend up, min 100, max 200 |
| `Quotations.FilterByMonth` | logixy-crm/src/pages/QuotationsPage.tsx:36-39 | 'all' shows every quotation; any other filter shows exactly the quotations whose date starts with it |
| `Quotations.FilterByMonthAppend` | logixy-crm/src/pages/QuotationsPage.tsx:36-39 | the filter keeps the list order |
| `Quotations.MonthOf` | logixy-crm/src/pages/QuotationsPage.tsx:43 | the month is a prefix of the date of length min(7, length) |
| `Quotations.FilterIsMonth` | logixy-crm/src/pages/QuotationsPage.tsx:38-43 | for a seven-character filter, a date starts with it exactly when its month is the filter |
| `Quotations.AvailableMonths` | logixy-crm/src/pages/QuotationsPage.tsx:42-45 | the offered months are strictly descending, have no duplicates, include every quotation's month and nothing else |
| `Quotations.SortedStrictly` | logixy-crm/src/pages/QuotationsPage.tsx:44 | sorting distinct months gives a strictly ascending list |
| `Quotations.ReverseDescending` | logixy-crm/src/pages/QuotationsPage.tsx:44 | reversing a strictly ascending list gives a strictly descending one |
| `Quotations.SameMembers` | logixy-crm/src/pages/QuotationsPage.tsx:44 | sorting and reversing keep exactly the same members |
| `Quotations.MonthsOfQuotations` | logixy-crm/src/pages/QuotationsPage.tsx:43 | the distinct months are exactly the quotations' months |
| `Quotations.OfferedMonthShowsSomething` | logixy-crm/src/pages/QuotationsPage.tsx:36-45 | choosing any offered month shows at least one quotation |
| `Quotations.NewQuotation` | logixy-crm/src/pages/QuotationsPage.tsx:136-155 | a new quotation has code "QT" + count+1, today's date, a 40' container, zero charges, total and transit, empty texts and no client |
| `Quotations.NewQuotationInStep` | logixy-crm/src/pages/QuotationsPage.tsx:136-155 | a new quotation's total already agrees with its charges |
| `Quotations.NewQuotationCode` | logixy-crm/src/pages/QuotationsPage.tsx:139 | its code is "QT" and six digits reading back as the count plus one |
| `Quotations.QuotationsPage.Shown` | logixy-crm/src/pages/QuotationsPage.tsx:36-39 | the table never shows more quotations than there are |
| `Quotations.QuotationsPage.ShowsRecommendation` | logixy-crm/src/pages/QuotationsPage.tsx:264 | the recommendation card shows exactly when results are shown and there are some |
| `Quotations.QuotationsPage.constructor` | logixy-crm/src/pages/QuotationsPage.tsx:22-33 | the initial page: the given quotations, nothing selected, card closed, filter 'all', empty search for 40', no results |
| `Quotations.QuotationsPage.RowClick` | logixy-crm/src/pages/QuotationsPage.tsx:130-134 | a row click selects the quotation and opens the card in view mode; every other field is unchanged |
| `Quotations.QuotationsPage.CreateQuotation` | logixy-crm/src/pages/QuotationsPage.tsx:136-159 | creating opens a new quotation for the current count in edit mode; every other field, the list included, is unchanged |
| `Quotations.QuotationsPage.SaveQuotation` | logixy-crm/src/pages/QuotationsPage.tsx:161-172 | saving upserts by id, keeps ids unique, closes the card and clears the selection; every other field is unchanged |
| `Quotations.QuotationsPage.CloseCard` | logixy-crm/src/pages/QuotationsPage.tsx:346-349 | closing the card clears the selection; every other field is unchanged |
| `Quotations.QuotationsPage.ToggleEdit` | logixy-crm/src/pages/QuotationsPage.tsx:351 | the edit toggle negates the mode; every other field is unchanged |
| `Quotations.QuotationsPage.SetMonthFilter` | logixy-crm/src/pages/QuotationsPage.tsx:320 | the month select sets the filter, and the table shows that month's quotations; every other field is unchanged |
| `Quotations.QuotationsPage.SetSearch` | logixy-crm/src/pages/QuotationsPage.tsx:229-244 | the search inputs set origin, destination and container type; every other field, the results included, is unchanged |
| `Quotations.QuotationsPage.RunRateSearch` | logixy-crm/src/pages/QuotationsPage.tsx:174-180 | a search runs only when origin and destination are both filled in; otherwise results and their visibility are unchanged; the recommendation shows exactly for shown non-empty results; every other field is unchanged |
| `Clients.ByHoldingTotalPreorder` | logixy-crm/src/pages/ClientsPage.tsx:29 | the holding comparator is total and transitive |
| `Clients.HoldingKey` | logixy-crm/src/pages/ClientsPage.tsx:29 | the sort key is the holding, or "zzz" for an empty holding, and never empty |
| `Clients.TableData` | logixy-crm/src/pages/ClientsPage.tsx:28-30 | the table is a permutation of the clients, sorted by holding with an empty holding keyed as "zzz" |
| `Clients.EmptyHoldingsPlacement` | logixy-crm/src/pages/ClientsPage.tsx:29 | clients without a holding come after every holding that sorts before "zzz" and before every holding that sorts after it |
| `Clients.HoldingsCount` | logixy-crm/src/pages/ClientsPage.tsx:33-35 | the count is the number of distinct non-empty holdings and never exceeds the number of clients |
| `Clients.HoldingNames` | logixy-crm/src/pages/ClientsPage.tsx:34 | the holding names are exactly the non-empty holdings of the clients |
| `Clients.NewClient` | logixy-crm/src/pages/ClientsPage.tsx:159-182 | a new client has code "SM" + count+1, status New, city Kyiv, type Trader, no directions, services or contacts, today as last contact, and every other text field empty |
| `Clients.NewClientCode` | logixy-crm/src/pages/ClientsPage.tsx:162 | its code is "SM" and six digits reading back as the count plus one |
| `Clients.ClientsPage.constructor` | logixy-crm/src/pages/ClientsPage.tsx:22-25 | the initial page: the given clients, nothing selected, card closed, view mode |
| `Clients.ClientsPage.RowClick` | logixy-crm/src/pages/ClientsPage.tsx:153-157 | a row click selects the client and opens the card in view mode |
| `Clients.ClientsPage.AddClient` | logixy-crm/src/pages/ClientsPage.tsx:159-186 | adding opens a new client for the current count in edit mode, without changing the list |
| `Clients.ClientsPage.SaveClient` | logixy-crm/src/pages/ClientsPage.tsx:188-199 | saving upserts by id, keeps ids unique, closes the card and clears the selection |
| `Clients.ClientsPage.CloseCard` | logixy-crm/src/pages/ClientsPage.tsx:228-231 | closing the card clears the selection and changes nothing else |
| `Clients.ClientsPage.ToggleEdit` | logixy-crm/src/pages/ClientsPage.tsx:233 | the edit toggle negates the mode and touches nothing else |
| `Dashboard.IndexOfKey` | logixy-crm/src/pages/DashboardPage.tsx:35 | `acc[key]` finds the first entry with the key, or reports there is none |
| `Dashboard.Bump` | logixy-crm/src/pages/DashboardPage.tsx:35 | a counted key's entry goes up by one in place; a new key is appended with count 1 |
| `Dashboard.Histogram` | logixy-crm/src/pages/DashboardPage.tsx:34-37 | the counter has no more entries than keys counted, and each entry is a counted key with a positive count |
| `Dashboard.Tally` | logixy-crm/src/pages/DashboardPage.tsx:34-37 | the in-place loop builds exactly the counter of its keys |
| `Dashboard.BumpCountOf` | logixy-crm/src/pages/DashboardPage.tsx:35 | one update raises the count of its key by one and no other |
| `Dashboard.BumpKeys` | logixy-crm/src/pages/DashboardPage.tsx:35 | one update appends the key when it is new and keeps the key order otherwise |
| `Dashboard.BumpTotal` | logixy-crm/src/pages/DashboardPage.tsx:35 | one update raises the sum of the counts by one |
| `Dashboard.HistogramCountOf` | logixy-crm/src/pages/DashboardPage.tsx:34-37 | each key's count is the number of times it occurs, 0 for a key never seen |
| `Dashboard.HistogramKeys` | logixy-crm/src/pages/DashboardPage.tsx:40-46 | a counter lists each key once, in order of first appearance |
| `Dashboard.HistogramTotal` | logixy-crm/src/pages/DashboardPage.tsx:34-44 | the counts add up to the number of records counted |
| `Dashboard.StatusCounts` | logixy-crm/src/pages/DashboardPage.tsx:34-37 | the status counts add up to the number of clients and list each status once, in order of first appearance |
| `Dashboard.RouteCounts` | logixy-crm/src/pages/DashboardPage.tsx:40-44 | the route counts add up to the number of quotations and list each route key once, in order of first appearance |
| `Dashboard.RouteKey` | logixy-crm/src/pages/DashboardPage.tsx:41 | a route key is the origin, " → ", then the destination |
| `Dashboard.RouteKeyInjective` | logixy-crm/src/pages/DashboardPage.tsx:41 | when no origin contains the arrow, equal keys mean the same origin and destination |
| `Dashboard.FirstArrow` | logixy-crm/src/pages/DashboardPage.tsx:41 | the first arrow of such a key stands right after the origin |
| `Dashboard.RouteKeyCollision` | logixy-crm/src/pages/DashboardPage.tsx:41 | an origin containing the arrow can make two different pairs share a key |
| `Dashboard.LaterOrSameTotalPreorder` | logixy-crm/src/pages/DashboardPage.tsx:30 | the newest-first comparator is total and transitive |
| `Dashboard.RecentQuotations` | logixy-crm/src/pages/DashboardPage.tsx:29-31 | min(5, n) quotations taken from the list |
| `Dashboard.RecentQuotationsAreNewest` | logixy-crm/src/pages/DashboardPage.tsx:29-31 | min(5, n) quotations from the list, newest first, and none left out is newer than one shown |
| `Dashboard.TopRoutes` | logixy-crm/src/pages/DashboardPage.tsx:46-48 | min(5, routes) entries taken from the route counts |
| `Dashboard.TopRoutesAreBusiest` | logixy-crm/src/pages/DashboardPage.tsx:46-48 | min(5, routes) counted routes with non-increasing counts, and no route left out has a larger count than one shown |
| `Dashboard.RevenueAppend` | logixy-crm/src/pages/DashboardPage.tsx:24 | revenue adds up over concatenated lists |
| `Dashboard.RevenueOneMore` | logixy-crm/src/pages/DashboardPage.tsx:24 | one more quotation adds exactly its total |
| `Dashboard.Revenue` | logixy-crm/src/pages/DashboardPage.tsx:24 | no quotations give zero revenue, and totals none of which is negative give a revenue that is not negative |
| `Dashboard.DashboardStats` | logixy-crm/src/pages/DashboardPage.tsx:21-62 | active + potential ≤ clients, holdings ≤ clients, revenue is the sum of totals, at most five recent quotations and five top routes |
| `Dashboard.ComputeStats` | logixy-crm/src/pages/DashboardPage.tsx:21-62 | the computation with in-place counters gives exactly those statistics |
| `Dashboard.CountByStatus` | logixy-crm/src/pages/DashboardPage.tsx:22 | the number of clients with a status is that status's count among all statuses |
| `Dashboard.CountByEitherStatus` | logixy-crm/src/pages/DashboardPage.tsx:23 | the number of clients with either of two statuses is the sum of their counts |
| `Dashboard.StatsAgreeWithChart` | logixy-crm/src/pages/DashboardPage.tsx:22-37 | the active and potential counts equal the status chart's bars, the bars add up to the client count, and each status appears once, in order of first appearance |
| `Dashboard.RouteCountsAreCounts` | logixy-crm/src/pages/DashboardPage.tsx:40-44 | each route's count is the number of quotations with that key, and the counts add up to the quotation count |
| `Layout.IsActive` | logixy-crm/src/components/Layout.tsx:31-32 | the root link is active only on "/", any other link on every path that starts with it, itself included; an active link is never longer than the path |
| `Layout.PrefixExamples` | logixy-crm/src/components/Layout.tsx:32 | "/clients/42" and "/clientsX" both activate "/clients"; "/" activates only the root link |
| `Layout.AtMostOneActive` | logixy-crm/src/components/Layout.tsx:5-32 | with the fixed navigation table at most one link is active for any path |

## Left out

- Rendering. JSX, dialogs, tabs, badges, icons and CSS classes are left out. So are the column definitions: the status colours and the first-three-services badge of the clients table.
- Library code. The `DataTable` component and `@tanstack/react-table` column sorting and name search are not part of this model.
- Routing. The `App.tsx` routes carry no logic.
- Mock data. The initial tables are constructor parameters. The quotation card looks clients up in a fixed table; here it takes a `directory` parameter. `generateRateSearchResults` is random; its results are the `generated` parameter of `RunRateSearch`.
- Random ids and today's date. `Math.random().toString(36)` and `new Date().toISOString().split('T')[0]` are the `freshId` and `today` parameters.
- `parseFloat(value) || 0` in the number inputs is left out. Charges, totals, transit times and prices are integers. Fractional amounts, NaN and JavaScript's double rounding are not modelled.
- `QuotationCard.CalculatedTotal`: the sum is exact integer addition, not double addition.
- `avgQuotation` is left out; it divides by the quotation count and is NaN for none. So are the histogram bar heights with their `|| 10` fallback, `toLocaleString` and locale date formatting.
- Locale collation. `localeCompare` is modelled by character-code order, so locale-specific orderings are not captured. The default `sort()` compares UTF-16 code units; the model compares Unicode scalar values, and the two orders agree outside surrogate pairs.
- React scheduling. Each handler is one atomic state change. Batching and the memo/effect timing are not modelled. The cards' effects that reset the edited copy when the record prop changes are not modelled either.
- `Sequences.SortBy`: the sort is stable by construction, but stability is not stated as a lemma.
- `Quotations.FilterByMonth`: the order of the shown quotations is stated through `FilterByMonthAppend`, not as an explicit subsequence relation.
- `Dashboard.RouteCountsAreCounts`: a route's count is per key string. It is per (origin, destination) pair only when no origin contains the arrow (`RouteKeyInjective`).
