/**
 * How the dashboard's day view and its dialogs interact with the store.
 */
module DashboardProperties {
  import opened Values
  import opened DayKeys
  import Lists
  import opened JournalStore
  import opened Dashboard

  /** Stamping a markup with its day does not touch its id. */
  lemma StampKeepsId(markup: Record, day: string, id: Value)
    ensures HasId(Stamp(markup, day), id) <==> HasId(markup, id)
  {
  }

  /** A markup added for a well-formed day shows up last in that day's view,
      stamped with the day, and no other day's view changes. */
  lemma DayViewAfterAdd(s: State, day: string, markup: Record, nowMs: int, nowIso: string)
    requires IsDayKey(day)
    ensures AddDailyMarkup(s, day, markup, nowMs, nowIso).Some?
    ensures var r := AddDailyMarkup(s, day, markup, nowMs, nowIso).value;
      && DayView(r, day) == DayView(s, day) + [Stamp(NewMarkup(markup, nowMs, nowIso), day)]
      && forall other :: other != day ==> DayView(r, other) == DayView(s, other)
  {
  }

  /** The markup form puts the day it files under into the payload as well;
      stamping such a markup with that day gives back the stored record. */
  lemma FormMarkupListedAsStored(markup: Record, day: string, nowMs: int, nowIso: string)
    requires Get(markup, "date") == Str(day)
    ensures Stamp(NewMarkup(markup, nowMs, nowIso), day) == NewMarkup(markup, nowMs, nowIso)
  {
  }

  /** A trade added at an instant whose local day is `day` is listed last
      among that day's trades; trades on other days are listed as before. */
  lemma DayTradesAfterAddTrade(s: State, trade: Record, nowMs: int, nowIso: string,
                               day: string, localDay: Value -> Option<string>)
    requires DayTrades(s.trades, day, localDay).Some?
    requires localDay(Str(nowIso)).Some?
    ensures var r := AddTrade(s, trade, nowMs, nowIso);
      && DayTrades(r.trades, day, localDay).Some?
      && DayTrades(r.trades, day, localDay).value
         == DayTrades(s.trades, day, localDay).value
            + (if localDay(Str(nowIso)) == Some(day) then [NewTrade(trade, nowMs, nowIso)] else [])
  {
    var added := NewTrade(trade, nowMs, nowIso);
    var r := AddTrade(s, trade, nowMs, nowIso);
    assert r.trades == s.trades + [added];
    assert Get(added, "date") == Str(nowIso);
    assert forall i :: 0 <= i < |r.trades| ==> localDay(Get(r.trades[i], "date")).Some? by {
      forall i | 0 <= i < |r.trades|
        ensures localDay(Get(r.trades[i], "date")).Some?
      {
        if i < |s.trades| {
          assert r.trades[i] == s.trades[i];
        }
      }
    }
    Lists.FilterAppend(s.trades, [added], t => localDay(Get(t, "date")) == Some(day));
  }

  /** The day's trades keep every copy of a trade on that day: a trade listed
      twice in the store (two adds in the same millisecond, say) is listed
      twice, and a trade on another day not at all. */
  lemma DayTradesMultiplicity(trades: seq<Record>, day: string, localDay: Value -> Option<string>, x: Record)
    requires DayTrades(trades, day, localDay).Some?
    ensures multiset(DayTrades(trades, day, localDay).value)[x]
            == if localDay(Get(x, "date")) == Some(day) then multiset(trades)[x] else 0
  {
    Lists.FilterMultiplicity(trades, t => localDay(Get(t, "date")) == Some(day), x);
  }

  /** Saving a markup edit from the day view sends only `pair` and `notes`:
      the edited markup and every other one in the bucket keep their files,
      id, timestamp and every other field; the bucket keeps its length; the
      edited markup takes the draft's pair and notes. */
  lemma MarkupEditKeepsIdentity(s: State, day: string, i: int, typedPair: Option<string>, typedNotes: Option<string>)
    requires IsDayKey(day)
    requires 0 <= i < |DayView(s, day)|
    ensures var view := DayView(s, day)[i];
      var draft := MarkupDraft(view, typedPair, typedNotes);
      var r := UpdateDailyMarkup(s, day, Get(view, "id"), draft);
      && Get(view, "date") == Str(day)
      && r.Some?
      && r.value.trades == s.trades
      && |Bucket(r.value, day)| == |Bucket(s, day)|
      && (forall j, f :: 0 <= j < |Bucket(s, day)| && f != "pair" && f != "notes"
            ==> Get(Bucket(r.value, day)[j], f) == Get(Bucket(s, day)[j], f))
      && Get(Bucket(r.value, day)[i], "pair") == draft["pair"]
      && Get(Bucket(r.value, day)[i], "notes") == draft["notes"]
  {
  }

  /** Saving a trade edit sends a full copy of the trade, so every trade the
      edit hits keeps its id, and the stored trade the dialog showed becomes
      exactly the draft. */
  lemma TradeEditKeepsId(s: State, trade: Record, typedPair: Option<string>)
    ensures var draft := TradeDraft(trade, typedPair);
      var id := Get(trade, "id");
      var r := UpdateTrade(s, id, draft);
      && |r.trades| == |s.trades|
      && (forall i :: 0 <= i < |s.trades| && HasId(s.trades[i], id) ==> HasId(r.trades[i], id))
      && (forall i :: 0 <= i < |s.trades| && s.trades[i] == trade ==> r.trades[i] == draft)
  {
  }

  /** Confirming the deletion of a markup listed for `day` removes every
      markup with its id from that day's view and keeps every other one. */
  lemma DeleteListedMarkup(s: State, day: string, i: int)
    requires IsDayKey(day)
    requires 0 <= i < |DayView(s, day)|
    ensures var view := DayView(s, day)[i];
      var id := Get(view, "id");
      var r := HandleDelete(s, "markup", day, id, true);
      && r.Some?
      && r.value.trades == s.trades
      && (forall m :: m in DayView(r.value, day) ==> !HasId(m, id))
      && (forall m :: m in DayView(s, day) && !HasId(m, id) ==> m in DayView(r.value, day))
      && view !in DayView(r.value, day)
  {
    DayKeyIsFixedPoint(day);
    var view := DayView(s, day)[i];
    var id := Get(view, "id");
    var r := HandleDelete(s, "markup", day, id, true).value;
    var b := Bucket(s, day);
    assert Bucket(r, day) == RemoveById(b, id);
    forall m | m in DayView(r, day)
      ensures !HasId(m, id)
    {
      var k :| 0 <= k < |DayView(r, day)| && DayView(r, day)[k] == m;
      StampKeepsId(Bucket(r, day)[k], day, id);
      assert Bucket(r, day)[k] in Bucket(r, day);
    }
    forall m | m in DayView(s, day) && !HasId(m, id)
      ensures m in DayView(r, day)
    {
      var k :| 0 <= k < |b| && DayView(s, day)[k] == m;
      StampKeepsId(b[k], day, id);
      assert b[k] in Bucket(r, day);
      var k' :| 0 <= k' < |Bucket(r, day)| && Bucket(r, day)[k'] == b[k];
      assert DayView(r, day)[k'] == m;
    }
  }
}
