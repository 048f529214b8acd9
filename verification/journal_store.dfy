/**
 * The client-side journal store: daily markups filed under calendar-day keys
 * and one sequence of trades. Each operation maps the current snapshot to the
 * next one. The clock readings the source takes inside an operation
 * (`Date.now()` for ids, `new Date().toISOString()` for timestamps) are
 * parameters here.
 */
module JournalStore {
  import opened Values
  import opened DayKeys
  import Lists

  datatype State = State(dailyMarkups: map<string, seq<Record>>, trades: seq<Record>)

  /** The markups filed under `day`: `state.dailyMarkups[day] || []`. */
  function Bucket(s: State, day: string): seq<Record>
  {
    if day in s.dailyMarkups then s.dailyMarkups[day] else []
  }

  /** `record.id === id`. */
  predicate HasId(r: Record, id: Value)
  {
    Get(r, "id") == id
  }

  /** The state before anything has been recorded. */
  function Initial(): (s: State)
    ensures forall day :: Bucket(s, day) == [] && day !in s.dailyMarkups
    ensures |s.trades| == 0
  {
    State(map[], [])
  }

  // ---------------------------------------------------------------------------
  // Record-level helpers shared by markups and trades

  /** `records.map(r => r.id === id ? { ...r, ...patch } : r)`. */
  function MergeById(records: seq<Record>, id: Value, patch: Record): (r: seq<Record>)
    ensures |r| == |records|
    ensures forall i :: 0 <= i < |r| && HasId(records[i], id) ==> r[i] == Merge(records[i], patch)
    ensures forall i :: 0 <= i < |r| && !HasId(records[i], id) ==> r[i] == records[i]
  {
    if records == [] then []
    else
      var head := if HasId(records[0], id) then Merge(records[0], patch) else records[0];
      [head] + MergeById(records[1..], id, patch)
  }

  /** `records.filter(r => r.id !== id)`. */
  function RemoveById(records: seq<Record>, id: Value): (r: seq<Record>)
    ensures forall x :: x in r <==> x in records && !HasId(x, id)
    ensures Lists.IsSubsequence(r, records)
  {
    Lists.FilterIsSubsequence(records, x => !HasId(x, id));
    Lists.Filter(records, x => !HasId(x, id))
  }

  // ---------------------------------------------------------------------------
  // Daily markups

  /** `{ ...payload, id: Date.now(), [stampField]: new Date().toISOString() }`:
      the caller's fields, with the id and the creation stamp the store
      assigns. Markups are stamped in `timestamp`, trades in `date`. */
  function StoreAssigned(payload: Record, nowMs: int, stampField: string, nowIso: string): (r: Record)
    requires stampField != "id"
    ensures r.Keys == payload.Keys + {"id", stampField}
    ensures HasId(r, Num(nowMs)) && Get(r, stampField) == Str(nowIso)
    ensures forall f :: f in payload && f != "id" && f != stampField ==> r[f] == payload[f]
  {
    Merge(payload, map["id" := Num(nowMs), stampField := Str(nowIso)])
  }

  /** The markup `addDailyMarkup` files. */
  function NewMarkup(markup: Record, nowMs: int, nowIso: string): Record
  {
    StoreAssigned(markup, nowMs, "timestamp", nowIso)
  }

  /** `addDailyMarkup(date, markup)`; `None` when the day key cannot be
      computed (the update throws and the store keeps its state). */
  function AddDailyMarkup(s: State, date: string, markup: Record, nowMs: int, nowIso: string): (r: Option<State>)
    ensures r.Some? <==> UtcDayKey(date).Some?
    ensures r.Some? ==>
      var day := UtcDayKey(date).value;
      && r.value.trades == s.trades
      && day in r.value.dailyMarkups
      && |r.value.dailyMarkups[day]| == |Bucket(s, day)| + 1
      && r.value.dailyMarkups[day][..|Bucket(s, day)|] == Bucket(s, day)
      && r.value.dailyMarkups[day][|Bucket(s, day)|] == NewMarkup(markup, nowMs, nowIso)
      && r.value.dailyMarkups - {day} == s.dailyMarkups - {day}
  {
    match UtcDayKey(date)
    case None => None
    case Some(day) =>
      Some(s.(dailyMarkups := s.dailyMarkups[day := Bucket(s, day) + [NewMarkup(markup, nowMs, nowIso)]]))
  }

  /** `updateDailyMarkup(date, markupId, updatedData)`. */
  function UpdateDailyMarkup(s: State, date: string, id: Value, patch: Record): (r: Option<State>)
    ensures r.Some? <==> UtcDayKey(date).Some?
    ensures r.Some? ==>
      var day := UtcDayKey(date).value;
      && r.value.trades == s.trades
      && day in r.value.dailyMarkups
      && r.value.dailyMarkups[day] == MergeById(Bucket(s, day), id, patch)
      && r.value.dailyMarkups - {day} == s.dailyMarkups - {day}
  {
    match UtcDayKey(date)
    case None => None
    case Some(day) =>
      Some(s.(dailyMarkups := s.dailyMarkups[day := MergeById(Bucket(s, day), id, patch)]))
  }

  /** `removeDailyMarkup(date, markupId)`. */
  function RemoveDailyMarkup(s: State, date: string, id: Value): (r: Option<State>)
    ensures r.Some? <==> UtcDayKey(date).Some?
    ensures r.Some? ==>
      var day := UtcDayKey(date).value;
      && r.value.trades == s.trades
      && day in r.value.dailyMarkups
      && r.value.dailyMarkups[day] == RemoveById(Bucket(s, day), id)
      && r.value.dailyMarkups - {day} == s.dailyMarkups - {day}
  {
    match UtcDayKey(date)
    case None => None
    case Some(day) =>
      Some(s.(dailyMarkups := s.dailyMarkups[day := RemoveById(Bucket(s, day), id)]))
  }

  // ---------------------------------------------------------------------------
  // Trades

  /** The trade `addTrade` appends. */
  function NewTrade(trade: Record, nowMs: int, nowIso: string): Record
  {
    StoreAssigned(trade, nowMs, "date", nowIso)
  }

  /** `addTrade(trade)`. */
  function AddTrade(s: State, trade: Record, nowMs: int, nowIso: string): (r: State)
    ensures r.dailyMarkups == s.dailyMarkups
    ensures |r.trades| == |s.trades| + 1
    ensures r.trades[..|s.trades|] == s.trades
    ensures r.trades[|s.trades|] == NewTrade(trade, nowMs, nowIso)
  {
    s.(trades := s.trades + [NewTrade(trade, nowMs, nowIso)])
  }

  /** `updateTrade(tradeId, updatedData)`. */
  function UpdateTrade(s: State, id: Value, patch: Record): (r: State)
    ensures r.dailyMarkups == s.dailyMarkups
    ensures |r.trades| == |s.trades|
    ensures forall i :: 0 <= i < |r.trades| && HasId(s.trades[i], id) ==> r.trades[i] == Merge(s.trades[i], patch)
    ensures forall i :: 0 <= i < |r.trades| && !HasId(s.trades[i], id) ==> r.trades[i] == s.trades[i]
  {
    s.(trades := MergeById(s.trades, id, patch))
  }

  /** `removeTrade(tradeId)`. */
  function RemoveTrade(s: State, id: Value): (r: State)
    ensures r.dailyMarkups == s.dailyMarkups
    ensures forall t :: t in r.trades <==> t in s.trades && !HasId(t, id)
    ensures Lists.IsSubsequence(r.trades, s.trades)
  {
    s.(trades := RemoveById(s.trades, id))
  }
}
