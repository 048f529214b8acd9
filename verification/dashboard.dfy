/**
 * The dashboard's day view and the store calls its dialogs make. The view for
 * a selected day lists the markups filed under that day, each stamped with the
 * day, and the trades whose date falls on that day in local time.
 */
module Dashboard {
  import opened Values
  import Lists
  import opened JournalStore

  /** `{ ...markup, date: day }`. */
  function Stamp(markup: Record, day: string): (r: Record)
    ensures r.Keys == markup.Keys + {"date"}
    ensures Get(r, "date") == Str(day)
    ensures forall f :: f in markup && f != "date" ==> r[f] == markup[f]
  {
    markup["date" := Str(day)]
  }

  /** `markups.map(m => ({ ...m, date: day }))`. */
  function StampAll(markups: seq<Record>, day: string): (r: seq<Record>)
    ensures |r| == |markups|
    ensures forall i :: 0 <= i < |r| ==> r[i] == Stamp(markups[i], day)
  {
    if markups == [] then [] else [Stamp(markups[0], day)] + StampAll(markups[1..], day)
  }

  /** The markups listed for the selected day: the bucket stored under
      `day`, in stored order, each with its `date` set to `day`. */
  function DayView(s: State, day: string): (r: seq<Record>)
    ensures day !in s.dailyMarkups ==> r == []
    ensures |r| == |Bucket(s, day)|
    ensures forall i :: 0 <= i < |r| ==> r[i] == Stamp(Bucket(s, day)[i], day)
  {
    StampAll(Bucket(s, day), day)
  }

  /** `trades.filter(t => format(new Date(t.date), 'yyyy-MM-dd') === day)`.
      `localDay` is the local-time formatting of a trade's date; `None` where
      formatting throws on an invalid date, which makes the whole filter throw. */
  function DayTrades(trades: seq<Record>, day: string, localDay: Value -> Option<string>): (r: Option<seq<Record>>)
    ensures r.Some? <==> forall i :: 0 <= i < |trades| ==> localDay(Get(trades[i], "date")).Some?
    ensures r.Some? ==> forall t :: t in r.value <==> t in trades && localDay(Get(t, "date")) == Some(day)
    ensures r.Some? ==> Lists.IsSubsequence(r.value, trades)
  {
    if forall i :: 0 <= i < |trades| ==> localDay(Get(trades[i], "date")).Some? then
      Lists.FilterIsSubsequence(trades, t => localDay(Get(t, "date")) == Some(day));
      Some(Lists.Filter(trades, t => localDay(Get(t, "date")) == Some(day)))
    else
      None
  }

  /** `MarkupDialog`'s edit draft: `{ pair: markup.pair || '', notes: markup.notes || '' }`,
      with each field replaced by what the user typed, if anything. */
  function MarkupDraft(markup: Record, typedPair: Option<string>, typedNotes: Option<string>): (d: Record)
    ensures d.Keys == {"pair", "notes"}
    ensures d["pair"] == if typedPair.Some? then Str(typedPair.value) else OrEmpty(Get(markup, "pair"))
    ensures d["notes"] == if typedNotes.Some? then Str(typedNotes.value) else OrEmpty(Get(markup, "notes"))
  {
    var pair := match typedPair case Some(p) => Str(p) case None => OrEmpty(Get(markup, "pair"));
    var notes := match typedNotes case Some(n) => Str(n) case None => OrEmpty(Get(markup, "notes"));
    map["pair" := pair, "notes" := notes]
  }

  /** `TradeDialog`'s edit draft: a copy of the trade, with `pair` replaced by
      what the user typed, if anything. */
  function TradeDraft(trade: Record, typedPair: Option<string>): (d: Record)
    ensures d.Keys == trade.Keys + (if typedPair.Some? then {"pair"} else {})
    ensures forall f :: f in trade && f != "pair" ==> d[f] == trade[f]
    ensures typedPair.Some? ==> d["pair"] == Str(typedPair.value)
  {
    match typedPair
    case Some(p) => trade["pair" := Str(p)]
    case None => trade
  }

  /** `handleDelete(type, date, identifier)` after the confirmation prompt
      was answered with `confirmed`. */
  function HandleDelete(s: State, kind: string, date: string, id: Value, confirmed: bool): (r: Option<State>)
    ensures !confirmed ==> r == Some(s)
    ensures confirmed && kind == "markup" ==> r == RemoveDailyMarkup(s, date, id)
    ensures confirmed && kind != "markup" ==> r == Some(RemoveTrade(s, id))
  {
    if !confirmed then Some(s)
    else if kind == "markup" then RemoveDailyMarkup(s, date, id)
    else Some(RemoveTrade(s, id))
  }
}
