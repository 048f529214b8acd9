/**
 * Properties relating several store operations: round trips, idempotence,
 * behaviour on missing ids and days, and what clock-derived ids do not
 * guarantee.
 */
module StoreProperties {
  import opened Values
  import opened DayKeys
  import Lists
  import opened JournalStore

  // ---------------------------------------------------------------------------
  // Record-level facts

  /** Removing by id drops every occurrence of a matching record, duplicates
      included, and keeps every other record as often as it occurred. */
  lemma RemoveByIdMultiplicity(records: seq<Record>, id: Value, x: Record)
    ensures multiset(RemoveById(records, id))[x] == if HasId(x, id) then 0 else multiset(records)[x]
  {
    Lists.FilterMultiplicity(records, y => !HasId(y, id), x);
  }

  /** A merge by id leaves every field the patch does not name as it was. */
  lemma MergeByIdKeepsUnpatchedFields(records: seq<Record>, id: Value, patch: Record)
    ensures forall j, f :: 0 <= j < |records| && f !in patch ==>
              Get(MergeById(records, id, patch)[j], f) == Get(records[j], f)
  {
  }

  /** With no record carrying `id`, the merge-by-id map returns its input. */
  lemma MergeByIdMissing(records: seq<Record>, id: Value, patch: Record)
    requires forall i :: 0 <= i < |records| ==> !HasId(records[i], id)
    ensures MergeById(records, id, patch) == records
  {
  }

  /** With no record carrying `id`, the filter returns its input. */
  lemma RemoveByIdMissing(records: seq<Record>, id: Value)
    requires forall i :: 0 <= i < |records| ==> !HasId(records[i], id)
    ensures RemoveById(records, id) == records
  {
    Lists.FilterKeepsAll(records, y => !HasId(y, id));
  }

  /** Applying the same patch by id twice is applying it once: a record that
      matched keeps the patched fields, and a record that did not match cannot
      start matching. */
  lemma {:induction false} MergeByIdIdempotent(records: seq<Record>, id: Value, patch: Record)
    ensures MergeById(MergeById(records, id, patch), id, patch) == MergeById(records, id, patch)
  {
    if records != [] {
      MergeByIdIdempotent(records[1..], id, patch);
      var once := MergeById(records, id, patch);
      assert once[1..] == MergeById(records[1..], id, patch);
      MergeIdempotent(records[0], patch);
    }
  }

  /** Removing by id twice is removing once. */
  lemma RemoveByIdIdempotent(records: seq<Record>, id: Value)
    ensures RemoveById(RemoveById(records, id), id) == RemoveById(records, id)
  {
    Lists.FilterIdempotent(records, y => !HasId(y, id));
  }

  /** Merging by id over a sequence with one more record at the end. */
  lemma MergeByIdAppend(records: seq<Record>, last: Record, id: Value, patch: Record)
    ensures MergeById(records + [last], id, patch)
         == MergeById(records, id, patch) + [if HasId(last, id) then Merge(last, patch) else last]
  {
  }

  /** Removing by id over a sequence with one more record at the end. */
  lemma RemoveByIdAppend(records: seq<Record>, last: Record, id: Value)
    ensures RemoveById(records + [last], id)
         == RemoveById(records, id) + (if HasId(last, id) then [] else [last])
  {
    Lists.FilterAppend(records, [last], y => !HasId(y, id));
  }

  /** Removing by id the one record appended with a fresh id gives back the
      sequence it was appended to. */
  lemma RemoveAppendedById(records: seq<Record>, last: Record, id: Value)
    requires forall i :: 0 <= i < |records| ==> !HasId(records[i], id)
    requires HasId(last, id)
    ensures RemoveById(records + [last], id) == records
  {
    RemoveByIdAppend(records, last, id);
    RemoveByIdMissing(records, id);
  }

  // ---------------------------------------------------------------------------
  // Trades

  /** Updating a trade id no trade carries changes nothing. */
  lemma UpdateTradeMissingIsNoOp(s: State, id: Value, patch: Record)
    requires forall i :: 0 <= i < |s.trades| ==> !HasId(s.trades[i], id)
    ensures UpdateTrade(s, id, patch) == s
  {
  }

  /** Removing a trade id no trade carries changes nothing. */
  lemma RemoveTradeMissingIsNoOp(s: State, id: Value)
    requires forall i :: 0 <= i < |s.trades| ==> !HasId(s.trades[i], id)
    ensures RemoveTrade(s, id) == s
  {
    RemoveByIdMissing(s.trades, id);
  }

  /** Saving the same trade edit twice has the effect of saving it once. */
  lemma UpdateTradeIdempotent(s: State, id: Value, patch: Record)
    ensures UpdateTrade(UpdateTrade(s, id, patch), id, patch) == UpdateTrade(s, id, patch)
  {
    MergeByIdIdempotent(s.trades, id, patch);
  }

  /** Deleting the same trade twice has the effect of deleting it once. */
  lemma RemoveTradeIdempotent(s: State, id: Value)
    ensures RemoveTrade(RemoveTrade(s, id), id) == RemoveTrade(s, id)
  {
    RemoveByIdIdempotent(s.trades, id);
  }

  /** Add a trade, edit it with a patch that leaves its id alone, delete it by
      the id the store gave it: the store is back where it started, provided no
      earlier trade happened to get the same clock reading as its id. */
  lemma TradeLifecycleRoundTrip(s: State, trade: Record, nowMs: int, nowIso: string, patch: Record)
    requires forall i :: 0 <= i < |s.trades| ==> !HasId(s.trades[i], Num(nowMs))
    requires Get(patch, "id") == Num(nowMs) || "id" !in patch
    ensures RemoveTrade(UpdateTrade(AddTrade(s, trade, nowMs, nowIso), Num(nowMs), patch), Num(nowMs)) == s
  {
    var added := NewTrade(trade, nowMs, nowIso);
    assert AddTrade(s, trade, nowMs, nowIso).trades == s.trades + [added];
    MergeByIdAppend(s.trades, added, Num(nowMs), patch);
    MergeByIdMissing(s.trades, Num(nowMs), patch);
    var edited := Merge(added, patch);
    assert HasId(edited, Num(nowMs));
    RemoveByIdAppend(s.trades, edited, Num(nowMs));
    RemoveByIdMissing(s.trades, Num(nowMs));
  }

  /** Ids come from the clock and are not unique: two trades added within the
      same millisecond share an id, and deleting one deletes both. */
  lemma SameMillisecondTradesCollide(s: State, a: Record, b: Record, nowMs: int, isoA: string, isoB: string)
    ensures var r := AddTrade(AddTrade(s, a, nowMs, isoA), b, nowMs, isoB);
      && HasId(r.trades[|s.trades|], Num(nowMs))
      && HasId(r.trades[|s.trades| + 1], Num(nowMs))
      && RemoveTrade(r, Num(nowMs)) == RemoveTrade(s, Num(nowMs))
  {
    var ta := NewTrade(a, nowMs, isoA);
    var tb := NewTrade(b, nowMs, isoB);
    assert (s.trades + [ta]) + [tb] == s.trades + [ta] + [tb];
    RemoveByIdAppend(s.trades, ta, Num(nowMs));
    RemoveByIdAppend(s.trades + [ta], tb, Num(nowMs));
  }

  // ---------------------------------------------------------------------------
  // Daily markups

  /** Updating or removing on a day that has no bucket is not a pure no-op: it
      leaves an empty sequence stored under that day. */
  lemma MissingDayGetsEmptyBucket(s: State, date: string, id: Value, patch: Record)
    requires UtcDayKey(date).Some? && UtcDayKey(date).value !in s.dailyMarkups
    ensures var day := UtcDayKey(date).value;
      && UpdateDailyMarkup(s, date, id, patch) == Some(s.(dailyMarkups := s.dailyMarkups[day := []]))
      && RemoveDailyMarkup(s, date, id) == Some(s.(dailyMarkups := s.dailyMarkups[day := []]))
      && UpdateDailyMarkup(s, date, id, patch) != Some(s)
  {
  }

  /** Adding a markup and then deleting it by the id the store gave it restores
      every bucket, provided no markup of that day already had that id; the
      day's key stays present, with an empty bucket if it was new. */
  lemma MarkupAddRemoveRoundTrip(s: State, date: string, markup: Record, nowMs: int, nowIso: string)
    requires UtcDayKey(date).Some?
    requires var b := Bucket(s, UtcDayKey(date).value);
      forall i :: 0 <= i < |b| ==> !HasId(b[i], Num(nowMs))
    ensures var day := UtcDayKey(date).value;
      && AddDailyMarkup(s, date, markup, nowMs, nowIso).Some?
      && RemoveDailyMarkup(AddDailyMarkup(s, date, markup, nowMs, nowIso).value, date, Num(nowMs))
         == Some(s.(dailyMarkups := s.dailyMarkups[day := Bucket(s, day)]))
  {
    var day := UtcDayKey(date).value;
    var added := NewMarkup(markup, nowMs, nowIso);
    var s1 := AddDailyMarkup(s, date, markup, nowMs, nowIso).value;
    assert s1 == s.(dailyMarkups := s.dailyMarkups[day := Bucket(s, day) + [added]]);
    assert Bucket(s1, day) == Bucket(s, day) + [added];
    RemoveAppendedById(Bucket(s, day), added, Num(nowMs));
    assert RemoveById(Bucket(s1, day), Num(nowMs)) == Bucket(s, day);
    var s2 := RemoveDailyMarkup(s1, date, Num(nowMs)).value;
    assert s2 == s1.(dailyMarkups := s1.dailyMarkups[day := Bucket(s, day)]);
    assert s1.dailyMarkups[day := Bucket(s, day)] == s.dailyMarkups[day := Bucket(s, day)];
  }

  /** Saving the same markup edit twice has the effect of saving it once. */
  lemma UpdateDailyMarkupIdempotent(s: State, date: string, id: Value, patch: Record)
    requires UtcDayKey(date).Some?
    ensures UpdateDailyMarkup(UpdateDailyMarkup(s, date, id, patch).value, date, id, patch)
         == UpdateDailyMarkup(s, date, id, patch)
  {
    var day := UtcDayKey(date).value;
    var once := MergeById(Bucket(s, day), id, patch);
    var s1 := UpdateDailyMarkup(s, date, id, patch).value;
    assert s1 == s.(dailyMarkups := s.dailyMarkups[day := once]);
    assert Bucket(s1, day) == once;
    MergeByIdIdempotent(Bucket(s, day), id, patch);
    assert s1.dailyMarkups[day := once] == s1.dailyMarkups;
  }

  /** Deleting the same markup twice has the effect of deleting it once. */
  lemma RemoveDailyMarkupIdempotent(s: State, date: string, id: Value)
    requires UtcDayKey(date).Some?
    ensures RemoveDailyMarkup(RemoveDailyMarkup(s, date, id).value, date, id)
         == RemoveDailyMarkup(s, date, id)
  {
    var day := UtcDayKey(date).value;
    var once := RemoveById(Bucket(s, day), id);
    var s1 := RemoveDailyMarkup(s, date, id).value;
    assert s1 == s.(dailyMarkups := s.dailyMarkups[day := once]);
    assert Bucket(s1, day) == once;
    RemoveByIdIdempotent(Bucket(s, day), id);
    assert s1.dailyMarkups[day := once] == s1.dailyMarkups;
  }
}
