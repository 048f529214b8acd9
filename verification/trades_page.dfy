/**
 * The trades page: every trade, newest first, and deletion after a prompt.
 * `[...trades].sort((a, b) => new Date(b.date) - new Date(a.date))` sorts a
 * copy, and `Array.prototype.sort` is stable. `timeOf` gives the millisecond
 * value of `new Date(trade.date)`.
 */
module TradesPage {
  import opened Values
  import Lists
  import opened JournalStore

  /** Times do not increase along the sequence. */
  predicate NewestFirst(trades: seq<Record>, timeOf: Record -> int)
  {
    forall i, j :: 0 <= i < j < |trades| ==> timeOf(trades[i]) >= timeOf(trades[j])
  }

  /** The trades whose time is exactly `time`, in sequence order. */
  function AtTime(trades: seq<Record>, timeOf: Record -> int, time: int): seq<Record>
  {
    Lists.Filter(trades, t => timeOf(t) == time)
  }

  /** Putting a trade no older than any of a newest-first sequence in front
      of it keeps the sequence newest first. */
  lemma PrependNewest(trade: Record, sorted: seq<Record>, timeOf: Record -> int)
    requires NewestFirst(sorted, timeOf)
    requires forall k :: 0 <= k < |sorted| ==> timeOf(sorted[k]) <= timeOf(trade)
    ensures NewestFirst([trade] + sorted, timeOf)
  {
  }

  /** Every element of a newest-first sequence, and anything older than its
      first element, is no newer than that first element. */
  lemma BoundedByFirst(sorted: seq<Record>, trade: Record, rest: seq<Record>, timeOf: Record -> int)
    requires NewestFirst(sorted, timeOf) && sorted != []
    requires timeOf(trade) < timeOf(sorted[0])
    requires multiset(rest) == multiset(sorted[1..]) + multiset{trade}
    ensures forall k :: 0 <= k < |rest| ==> timeOf(rest[k]) <= timeOf(sorted[0])
  {
    forall k | 0 <= k < |rest|
      ensures timeOf(rest[k]) <= timeOf(sorted[0])
    {
      assert rest[k] in multiset(rest);
      if rest[k] != trade {
        assert rest[k] in multiset(sorted[1..]);
        var m :| 0 <= m < |sorted[1..]| && sorted[1..][m] == rest[k];
        assert sorted[m + 1] == rest[k];
      }
    }
  }

  /** Places `trade` before the first trade of `sorted` that is not newer than
      it, so it goes ahead of the trades with its own time. */
  function Insert(trade: Record, sorted: seq<Record>, timeOf: Record -> int): (r: seq<Record>)
    requires NewestFirst(sorted, timeOf)
    ensures NewestFirst(r, timeOf)
    ensures multiset(r) == multiset(sorted) + multiset{trade}
  {
    if sorted == [] || timeOf(sorted[0]) <= timeOf(trade) then
      assert forall k :: 0 <= k < |sorted| ==> timeOf(sorted[k]) <= timeOf(trade) by {
        if sorted != [] {
          assert forall k :: 0 <= k < |sorted| ==> timeOf(sorted[k]) <= timeOf(sorted[0]);
        }
      }
      PrependNewest(trade, sorted, timeOf);
      [trade] + sorted
    else
      var rest := Insert(trade, sorted[1..], timeOf);
      assert sorted == [sorted[0]] + sorted[1..];
      BoundedByFirst(sorted, trade, rest, timeOf);
      PrependNewest(sorted[0], rest, timeOf);
      [sorted[0]] + rest
  }

  /** The stable newest-first order of `trades`. */
  function SortNewestFirst(trades: seq<Record>, timeOf: Record -> int): (r: seq<Record>)
    ensures NewestFirst(r, timeOf)
    ensures multiset(r) == multiset(trades)
  {
    if trades == [] then []
    else
      assert trades == [trades[0]] + trades[1..];
      Insert(trades[0], SortNewestFirst(trades[1..], timeOf), timeOf)
  }

  /** Sorting keeps the number of trades. */
  lemma SortKeepsLength(trades: seq<Record>, timeOf: Record -> int)
    ensures |SortNewestFirst(trades, timeOf)| == |trades|
  {
    assert |multiset(SortNewestFirst(trades, timeOf))| == |multiset(trades)|;
  }

  /** The trades of one time in a concatenation. */
  lemma AtTimeAppend(xs: seq<Record>, ys: seq<Record>, timeOf: Record -> int, time: int)
    ensures AtTime(xs + ys, timeOf, time) == AtTime(xs, timeOf, time) + AtTime(ys, timeOf, time)
  {
    Lists.FilterAppend(xs, ys, t => timeOf(t) == time);
  }

  /** The trades of one time in a one-element sequence. */
  lemma AtTimeSingleton(x: Record, timeOf: Record -> int, time: int)
    ensures AtTime([x], timeOf, time) == if timeOf(x) == time then [x] else []
  {
    AtTimeAppend([x], [], timeOf, time);
    assert [x] + [] == [x];
    assert AtTime([], timeOf, time) == [];
  }

  /** One step of insertion: a trade newer than the inserted one stays in
      front of it, and it cannot share the inserted trade's time. */
  lemma InsertStepIsStable(trade: Record, first: Record, tail: seq<Record>, rest: seq<Record>,
                           timeOf: Record -> int, time: int)
    requires timeOf(trade) < timeOf(first)
    requires AtTime(rest, timeOf, time)
          == (if timeOf(trade) == time then [trade] else []) + AtTime(tail, timeOf, time)
    ensures AtTime([first] + rest, timeOf, time)
         == (if timeOf(trade) == time then [trade] else []) + AtTime([first] + tail, timeOf, time)
  {
  }

  /** Inserting a trade adds it at the front of the trades with its time and
      leaves the trades of every other time in their order. */
  lemma {:induction false} InsertIsStable(trade: Record, sorted: seq<Record>, timeOf: Record -> int, time: int)
    requires NewestFirst(sorted, timeOf)
    ensures AtTime(Insert(trade, sorted, timeOf), timeOf, time)
         == (if timeOf(trade) == time then [trade] else []) + AtTime(sorted, timeOf, time)
  {
    if sorted == [] || timeOf(sorted[0]) <= timeOf(trade) {
      assert Insert(trade, sorted, timeOf) == [trade] + sorted;
      AtTimeSingleton(trade, timeOf, time);
      AtTimeAppend([trade], sorted, timeOf, time);
    } else {
      var tail := sorted[1..];
      InsertIsStable(trade, tail, timeOf, time);
      assert Insert(trade, sorted, timeOf) == [sorted[0]] + Insert(trade, tail, timeOf);
      assert sorted == [sorted[0]] + tail;
      InsertStepIsStable(trade, sorted[0], tail, Insert(trade, tail, timeOf), timeOf, time);
    }
  }

  /** Stability: for every time, the trades with that time appear in the
      sorted sequence in the same order as in the store. */
  lemma {:induction false} SortIsStable(trades: seq<Record>, timeOf: Record -> int, time: int)
    ensures AtTime(SortNewestFirst(trades, timeOf), timeOf, time) == AtTime(trades, timeOf, time)
  {
    if trades != [] {
      SortIsStable(trades[1..], timeOf, time);
      InsertIsStable(trades[0], SortNewestFirst(trades[1..], timeOf), timeOf, time);
      AtTimeSingleton(trades[0], timeOf, time);
      AtTimeAppend([trades[0]], trades[1..], timeOf, time);
      assert trades == [trades[0]] + trades[1..];
    }
  }

  /** The page's `handleDelete(tradeId)` after the confirmation prompt was
      answered with `confirmed`. */
  function HandleDelete(s: State, id: Value, confirmed: bool): (r: State)
    ensures r.dailyMarkups == s.dailyMarkups
    ensures confirmed ==> r == RemoveTrade(s, id)
    ensures confirmed ==> forall t :: t in r.trades <==> t in s.trades && !HasId(t, id)
    ensures !confirmed ==> r == s
  {
    if confirmed then RemoveTrade(s, id) else s
  }
}
