# Trading journal store — a Dafny model

This project models the client-side store of a personal trading journal, and
the two pages that read it. The store holds two collections:

- **daily markups**: a map from a calendar-day key (`YYYY-MM-DD`) to the
  sequence of markup records filed under that day;
- **trades**: one sequence of trade records.

It offers six transitions from an old snapshot to a new one:
`addDailyMarkup`, `updateDailyMarkup`, `removeDailyMarkup`, `addTrade`,
`updateTrade` and `removeTrade`. A record is a plain JavaScript object. Here
it is a `map<string, Value>`, and the shallow merge `{ ...old, ...patch }` is
the map union `old + patch`, where the patch's fields win.

The read side is also modelled:

- The dashboard's **day view** lists the bucket stored under the selected
  day, with each markup's `date` set to that day. It also lists the trades
  whose date falls on that day.
- Its dialogs build the **edit payloads** they send to the store, and it
  **dispatches deletes** to the markup or trade store call.
- The trades page shows a **stable newest-first sort** of a copy of the
  trades, and has its own delete handler.

Modules, one per source concern:

- `Values` (values.dfy): JavaScript values, records, property reads,
  shallow merge, truthiness.
- `Lists` (lists.dfy): `Array.prototype.filter`, and the subsequence relation
  that states "order-preserving".
- `DayKeys` (day_keys.dfy): the day key
  `new Date(d).toISOString().split('T')[0]`.
- `JournalStore` (journal_store.dfy): the state and the six transitions.
- `StoreProperties` (store_properties.dfy): round trips, idempotence, missing
  ids and days, and id collisions.
- `Dashboard` and `DashboardProperties` (dashboard.dfy,
  dashboard_properties.dfy): the day view, edit drafts and delete dispatch.
- `TradesPage` (trades_page.dfy): the newest-first sort and delete.

The clock is read inside the source's operations (`Date.now()` for ids and
`new Date().toISOString()` for timestamps). Here those readings are the
parameters `nowMs` and `nowIso`. Ids are not claimed to be unique. The lemma
`StoreProperties.SameMillisecondTradesCollide` shows two trades added in the
same millisecond sharing an id, and one delete removing both.

Markup transitions return `Option<State>`. `None` stands for the case where
computing the day key throws a `RangeError`: `toISOString` throws on an
invalid date, and the store then keeps its state. A malformed date therefore
does not produce an "Invalid Date" bucket; the code throws instead.

The trades page sorts a copy, so the store's own sequence is never reordered.
In this model that holds by construction: `SortNewestFirst` is a pure function
of a sequence value, and no snapshot can be changed in place.

## Model

| member | source | states |
|---|---|---|
| Values.Merge | src/store/journalStore.js:33-36 | the shallow merge `{ ...old, ...patch }`: the result has the fields of both, each field of the patch wins, and every other field keeps its old value |
| Values.MergeIdempotent | src/store/journalStore.js:49-53 | merging the same patch twice gives the same record as merging it once |
| Values.OrEmpty | src/pages/Dashboard.jsx:34-35 | the fallback to `''`: a truthy value is kept, and a falsy one is replaced with the empty string |
| Lists.Filter | src/store/journalStore.js:61 | `filter` keeps exactly the elements that pass the test, and nothing else |
| Lists.FilterIsSubsequence | src/store/journalStore.js:81 | what `filter` returns is a subsequence of its input, so relative order is kept |
| Lists.FilterMultiplicity | src/store/journalStore.js:81 | every passing element is kept as often as it occurs, and every occurrence of a failing one is dropped |
| Lists.FilterAppend | src/pages/Dashboard.jsx:240-241 | filtering a concatenation is concatenating the filtered parts |
| Lists.FilterKeepsAll | src/store/journalStore.js:61 | a filter that rejects nothing returns its input unchanged |
| Lists.FilterIdempotent | src/store/journalStore.js:81 | filtering twice with the same test equals filtering once |
| DayKeys.UtcDayKey | src/store/journalStore.js:11 | the key exists exactly for a real-calendar `YYYY-MM-DD` string or a `toISOString` timestamp; it is always a well-formed day key and a prefix of the input |
| DayKeys.DayKeyIsFixedPoint | src/pages/DailyMarkup.jsx:62-64 | the form's `yyyy-MM-dd` day, passed to the store, is its own bucket key |
| DayKeys.TimestampKeyIsDatePart | src/store/journalStore.js:17 | a store-written timestamp is keyed by its first ten characters |
| DayKeys.UtcDayKeyIdempotent | src/store/journalStore.js:30 | normalising a key a second time changes nothing |
| DayKeys.LeapDayIsDayKey | src/store/journalStore.js:11 | 2024-02-29 is a valid day key (leap-year rule) |
| DayKeys.NonDaysHaveNoKey | src/store/journalStore.js:11 | 2023-02-29 and 2024-02-30 are not calendar days, so the modelled strict parser rejects them and gives no key |
| JournalStore.Initial | src/store/journalStore.js:7-8 | the initial state has no day buckets and no trades |
| JournalStore.MergeById | src/store/journalStore.js:33-37 | the map keeps length and order; a record whose `id` equals the target becomes `old + patch`, and every other record is unchanged |
| JournalStore.RemoveById | src/store/journalStore.js:61 | the result holds exactly the records whose `id` differs from the target, in their original relative order |
| JournalStore.StoreAssigned | src/store/journalStore.js:14-18 | a new record (markup or trade, lines 73-77 for trades; built via `NewMarkup` / `NewTrade`) keeps every caller field, including a markup's redundant `date`; its `id` and its stamp field (`timestamp` for markups, `date` for trades) are the store's values, overriding the caller's |
| JournalStore.AddDailyMarkup | src/store/journalStore.js:9-27 | there is a result exactly when the day key exists; the day's bucket grows by one record at the end, with earlier entries untouched and the bucket created if absent; other days and the trades are unchanged |
| JournalStore.UpdateDailyMarkup | src/store/journalStore.js:28-46 | there is a result exactly when the day key exists; the day's bucket becomes the merge-by-id of the old bucket (empty if absent); other days and the trades are unchanged |
| JournalStore.RemoveDailyMarkup | src/store/journalStore.js:56-70 | there is a result exactly when the day key exists; the day's bucket becomes the remove-by-id of the old bucket (empty if absent); other days and the trades are unchanged |
| JournalStore.AddTrade | src/store/journalStore.js:71-78 | one trade is appended at the end and the earlier trades and all markups are unchanged |
| JournalStore.UpdateTrade | src/store/journalStore.js:47-55 | the sequence keeps its length and order; only trades whose `id` equals the target change, each to `old + patch`; markups are unchanged |
| JournalStore.RemoveTrade | src/store/journalStore.js:79-82 | exactly the trades with a different `id` remain, in their original order; markups are unchanged |
| StoreProperties.RemoveByIdMultiplicity | src/store/journalStore.js:61 | remove-by-id drops every record with the id, duplicates included, and keeps every other record as often as it occurred |
| StoreProperties.MergeByIdKeepsUnpatchedFields | src/store/journalStore.js:33-36 | a merge by id leaves every field the patch does not name unchanged, in every record |
| StoreProperties.MergeByIdMissing | src/store/journalStore.js:49-53 | if no record has the id, the update map returns its input |
| StoreProperties.RemoveByIdMissing | src/store/journalStore.js:81 | if no record has the id, the filter returns its input |
| StoreProperties.MergeByIdIdempotent | src/store/journalStore.js:33-37 | applying the same patch by id twice equals applying it once |
| StoreProperties.RemoveByIdIdempotent | src/store/journalStore.js:61 | removing by id twice equals removing once |
| StoreProperties.MergeByIdAppend | src/store/journalStore.js:49-53 | merge-by-id over a sequence with one more record equals merging the prefix, then the last record |
| StoreProperties.RemoveByIdAppend | src/store/journalStore.js:81 | remove-by-id over a sequence with one more record equals removing from the prefix, then the last record |
| StoreProperties.RemoveAppendedById | src/store/journalStore.js:61 | removing, by a fresh id, the one record appended with that id gives back the original sequence |
| StoreProperties.UpdateTradeMissingIsNoOp | src/store/journalStore.js:47-55 | updating an id that no trade carries leaves the state unchanged |
| StoreProperties.RemoveTradeMissingIsNoOp | src/store/journalStore.js:79-82 | removing an id that no trade carries leaves the state unchanged |
| StoreProperties.UpdateTradeIdempotent | src/store/journalStore.js:47-55 | saving the same trade patch twice equals saving it once |
| StoreProperties.RemoveTradeIdempotent | src/store/journalStore.js:79-82 | deleting the same trade id twice equals deleting it once |
| StoreProperties.TradeLifecycleRoundTrip | src/store/journalStore.js:47-82 | adding a trade, patching it (leaving its id alone), then removing it by its store-given id restores the state, provided no earlier trade got the same clock reading |
| StoreProperties.SameMillisecondTradesCollide | src/store/journalStore.js:75 | two trades added in the same millisecond share an id, and removing that id removes both |
| StoreProperties.MissingDayGetsEmptyBucket | src/store/journalStore.js:28-70 | update or remove on a day with no bucket stores an empty sequence under that day, so it is not a no-op |
| StoreProperties.MarkupAddRemoveRoundTrip | src/store/journalStore.js:9-70 | adding a markup and then removing it by its store-given id restores the day's bucket (present, maybe empty) when no markup of that day had the id |
| StoreProperties.UpdateDailyMarkupIdempotent | src/store/journalStore.js:28-46 | saving the same markup patch twice equals saving it once |
| StoreProperties.RemoveDailyMarkupIdempotent | src/store/journalStore.js:56-70 | deleting the same markup id twice equals deleting it once |
| Dashboard.Stamp | src/pages/Dashboard.jsx:235-238 | a listed markup has the stored record's fields, except that `date` is set to the selected day |
| Dashboard.StampAll | src/pages/Dashboard.jsx:235-238 | the listed markups match the bucket in count and order, and each one is the stored record stamped with the day |
| Dashboard.DayView | src/pages/Dashboard.jsx:233-238 | the day view lists exactly the bucket stored under the day, stamped and in order, or nothing if the day has no bucket |
| Dashboard.DayTrades | src/pages/Dashboard.jsx:240-241 | if no trade date fails to format, the day's trades are exactly the trades whose date formats to the day, as an order-preserving sublist (copies counted by `DashboardProperties.DayTradesMultiplicity`); otherwise the filter throws |
| Dashboard.MarkupDraft | src/pages/Dashboard.jsx:33-46 | the markup edit payload has only `pair` and `notes`: each is the typed text, or, if nothing was typed, the record's value with a falsy value replaced by `''` |
| Dashboard.TradeDraft | src/pages/Dashboard.jsx:149-156 | the trade edit payload is a full copy of the trade, with `pair` replaced if the user typed one |
| Dashboard.HandleDelete | src/pages/Dashboard.jsx:243-253 | nothing changes unless confirmed; kind `'markup'` removes the markup by day and id; any other kind removes the trade by id |
| DashboardProperties.StampKeepsId | src/pages/Dashboard.jsx:235-238 | stamping a markup with the day does not change which id it carries |
| DashboardProperties.DayViewAfterAdd | src/pages/Dashboard.jsx:233-238 | after a markup is added for a day, that day's view is the old view plus the new markup, stamped; every other day's view is unchanged |
| DashboardProperties.FormMarkupListedAsStored | src/pages/DailyMarkup.jsx:64-69 | a markup whose payload carries its own day as `date` is listed exactly as stored |
| DashboardProperties.DayTradesMultiplicity | src/pages/Dashboard.jsx:240-241 | when the filter does not throw, a trade whose date formats to the day is listed as many times as the store holds it, and any other trade not at all |
| DashboardProperties.DayTradesAfterAddTrade | src/pages/Dashboard.jsx:240-241 | after a trade is added, it is listed last among the day's trades exactly when its date formats to that day; otherwise the list is unchanged |
| DashboardProperties.MarkupEditKeepsIdentity | src/pages/Dashboard.jsx:50-51 | saving an edit from the day view keeps the bucket's length, and every field of every record other than `pair` and `notes`, including `files`, `id` and `timestamp`; the edited markup takes the draft's pair and notes |
| DashboardProperties.TradeEditKeepsId | src/pages/Dashboard.jsx:160-161 | saving a trade edit keeps the id of every trade it hits, and the trade the dialog showed becomes exactly the draft |
| DashboardProperties.DeleteListedMarkup | src/pages/Dashboard.jsx:243-247 | confirming the delete of a listed markup leaves no markup with its id in the day's view and keeps every other listed markup |
| TradesPage.Insert | src/pages/Trades.jsx:50 | inserting into a newest-first sequence keeps it newest first and adds exactly the one trade |
| TradesPage.SortNewestFirst | src/pages/Trades.jsx:50 | the sorted trades are a permutation of the trades, with dates non-increasing along the sequence |
| TradesPage.SortKeepsLength | src/pages/Trades.jsx:50 | sorting keeps the number of trades |
| TradesPage.InsertIsStable | src/pages/Trades.jsx:50 | insertion puts the trade first among the trades with its time and leaves the order within every time otherwise unchanged |
| TradesPage.SortIsStable | src/pages/Trades.jsx:50 | for every time, the trades with that time keep their original relative order after the sort |
| TradesPage.HandleDelete | src/pages/Trades.jsx:52-56 | a confirmed delete is the store's `removeTrade(id)`, leaving exactly the trades with a different id in their original order; an unconfirmed one changes nothing |

## Left out

- Persistence: the zustand `persist` middleware, the `trading-journal-storage`
  slot, schema version 3 and rehydration (src/store/journalStore.js:84-87)
  are foreign library code and are not modelled. File handles do not survive
  serialisation anyway.
- DayKeys.NonDaysHaveNoKey: states what the modelled strict parser does. Some engines, V8 among them, roll `2024-02-30` over to `2024-03-01` instead of throwing; that behaviour is not modelled.
- Clocks: `Date.now()` and `new Date().toISOString()` are the parameters
  `nowMs` and `nowIso`. The model does not relate the two readings.
- DayKeys.UtcDayKey: only two input shapes are modelled, a real-calendar
  `YYYY-MM-DD` string and a `YYYY-MM-DDTHH:mm:ss.sssZ` timestamp with a
  four-digit year. Every other string counts as a date the parser rejects.
  The JavaScript parser accepts more formats, some of them in local time. It
  also rolls over day strings such as `2024-02-30` in some engines. The
  application only ever passes day keys.
- Dashboard.DayTrades: the local-time date-fns `format` of a trade's date is
  the parameter `localDay`. The selected day is taken as the string
  `format(selectedDate, 'yyyy-MM-dd')`. Time zones are not modelled.
- TradesPage.SortNewestFirst: `new Date(t.date)` is the parameter `timeOf`,
  with an integer value for every trade. For an invalid date the comparator
  returns `NaN`, and the resulting order depends on the engine; that case is
  not modelled.
- Id comparison `===` is equality of modelled values. This matches
  JavaScript for numbers and strings, which are what ids are. Reference
  identity of objects and arrays is not modelled.
- Numbers are integers. Floating point, including `NaN`, is not modelled.
- Dashboard.HandleDelete: the `date` argument is a string. The trade dialog
  passes `null` there, which is ignored for non-markup kinds.
  `window.confirm` is the boolean `confirmed`.
- `handleEditMarkup` and `handleEditTrade` (src/pages/Dashboard.jsx:255-261)
  pass their arguments straight to `updateDailyMarkup` and `updateTrade`.
  The lemmas apply those store functions directly.
- Rendering, routing, snackbars, dialog open/close state and the media
  preview (`URL.createObjectURL`, src/pages/Dashboard.jsx:56-88) are
  presentation and are not modelled.
- src/components/FileUpload.jsx, src/pages/TradeEntry.jsx and
  src/pages/DailyMarkup.jsx are form wrappers and are not modelled. Their
  "pair is required" checks are left to the caller; the store never checks
  them. The one fact taken from DailyMarkup.jsx is that it passes a day key,
  with the same day inside the payload.
- The trading-options enumeration is not modelled: the store never checks
  values against it.
- Unique ids: the store does not promise them, so no lemma claims them.
