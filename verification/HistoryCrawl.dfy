/** Crawling one coin's price history: rewind, fetch window by window, save one row per day. */
module HistoryCrawl {
  import opened LogWindows
  import opened PriceTable
  import opened Wrappers

  const HUNDRED_DAYS: int := 100 * SECONDS_IN_DAY

  // ---------------------------------------------------------------------------------------
  // Saving
  // ---------------------------------------------------------------------------------------

  predicate SameKey(a: PriceRow, b: PriceRow) {
    a.asset == b.asset && a.currency == b.currency && a.timestamp == b.timestamp
  }

  /** (asset, currency, timestamp) is the table's key; an insert that meets a stored key or
      repeats one of its own fails as a whole. */
  predicate Collides(rows: seq<PriceRow>, more: seq<PriceRow>) {
    || (exists i, j :: 0 <= i < |rows| && 0 <= j < |more| && SameKey(rows[i], more[j]))
    || (exists i, j :: 0 <= i < j < |more| && SameKey(more[i], more[j]))
  }

  /** The failure is swallowed. */
  function Saved(rows: seq<PriceRow>, more: seq<PriceRow>): seq<PriceRow> {
    if Collides(rows, more) then rows else rows + more
  }

  /** No two rows share asset, currency and timestamp. */
  ghost predicate UniqueKeys(rows: seq<PriceRow>) {
    forall i, j :: 0 <= i < j < |rows| ==>
        rows[i].asset != rows[j].asset || rows[i].currency != rows[j].currency || rows[i].timestamp != rows[j].timestamp
  }

  /** The insert happens, as a whole, exactly when the keys stay unique. */
  lemma SavedKeepsKeysUnique(rows: seq<PriceRow>, more: seq<PriceRow>)
    requires UniqueKeys(rows)
    ensures UniqueKeys(Saved(rows, more))
    ensures Saved(rows, more) == if UniqueKeys(rows + more) then rows + more else rows
  {
    var all := rows + more;
    if Collides(rows, more) {
      if i, j :| 0 <= i < |rows| && 0 <= j < |more| && SameKey(rows[i], more[j]) {
        assert all[i] == rows[i] && all[|rows| + j] == more[j];
      }
      if i, j :| 0 <= i < j < |more| && SameKey(more[i], more[j]) {
        assert all[|rows| + i] == more[i] && all[|rows| + j] == more[j];
      }
    } else {
      forall i, j | 0 <= i < j < |all|
        ensures !SameKey(all[i], all[j])
      {
        assert i < |rows| ==> all[i] == rows[i];
        assert j >= |rows| ==> all[j] == more[j - |rows|];
        assert i >= |rows| ==> all[i] == more[i - |rows|];
      }
    }
  }

  // ---------------------------------------------------------------------------------------
  // Windows
  // ---------------------------------------------------------------------------------------

  function NextFrom(from: int, until: int): int {
    if until - from > HUNDRED_DAYS then from + HUNDRED_DAYS else until
  }

  /** The windows of the loop, which always takes a first one. */
  function HistoryWindows(from: int, until: int): seq<Window>
    decreases until - from
  {
    [Window(from, NextFrom(from, until))] + if NextFrom(from, until) < until
      then HistoryWindows(NextFrom(from, until), until) else []
  }

  /** Each window starts where the one before ends, from `from` to `until`; all are a hundred
      days long, but the last may be shorter. */
  lemma {:induction false} HistoryWindowsChain(from: int, until: int, i: nat)
    requires from < until && i < |HistoryWindows(from, until)|
    ensures HistoryWindows(from, until)[0].first == from
    ensures HistoryWindows(from, until)[|HistoryWindows(from, until)| - 1].last == until
    ensures 0 < HistoryWindows(from, until)[i].last - HistoryWindows(from, until)[i].first <= 8640000
    ensures i < |HistoryWindows(from, until)| - 1 ==>
              HistoryWindows(from, until)[i].last - HistoryWindows(from, until)[i].first == 8640000
    ensures i > 0 ==> HistoryWindows(from, until)[i].first == HistoryWindows(from, until)[i - 1].last
    decreases until - from
  {
    var next := NextFrom(from, until);
    if next < until {
      var rest := HistoryWindows(next, until);
      assert HistoryWindows(from, until) == [Window(from, next)] + rest;
      HistoryWindowsChain(next, until, if i > 0 then i - 1 else 0);
    }
  }

  /** Every moment of the period is in some window. */
  lemma {:induction false} HistoryWindowsCover(from: int, until: int, t: int) returns (i: nat)
    requires from <= t <= until
    ensures i < |HistoryWindows(from, until)|
            && HistoryWindows(from, until)[i].first <= t <= HistoryWindows(from, until)[i].last
    decreases until - from
  {
    var next := NextFrom(from, until);
    if t <= next {
      i := 0;
    } else {
      assert from < next < until;
      var j := HistoryWindowsCover(next, until, t);
      assert HistoryWindows(from, until) == [Window(from, next)] + HistoryWindows(next, until);
      i := j + 1;
    }
  }

  /** The `n`-th request of a crawl, for the prices of a window. */
  datatype Request = Request(n: nat, window: Window)

  /** What the crawl gathers over its windows when `answer` says what each request returns.
      Each window is asked for twice, and the second answer is kept twice. */
  function FetchedOver(windows: seq<Window>, answer: Request -> seq<Quote>, n: nat): seq<Quote>
    decreases |windows|
  {
    if windows == [] then []
    else
      var earlier, later := answer(Request(n, windows[0])), answer(Request(n + 1, windows[0]));
      earlier + later + later + FetchedOver(windows[1..], answer, n + 2)
  }

  /** Asking once. */
  function FetchedOnce(windows: seq<Window>, answer: Request -> seq<Quote>): seq<Quote> {
    if windows == [] then [] else answer(Request(0, windows[0])) + FetchedOnce(windows[1..], answer)
  }

  ghost predicate Repeatable(answer: Request -> seq<Quote>) {
    forall n: nat, w :: answer(Request(n, w)) == answer(Request(0, w))
  }

  /** Three copies of the quotes of one window settle the same days as one copy. */
  lemma ThreeCopiesAreOne(coin: Coin, currency: int, first: Option<int>, x: seq<Quote>, rest: seq<Quote>,
                          rows: seq<PriceRow>)
    ensures DailyRows(coin, currency, first, x + x + x + rest, rows)
            == DailyRows(coin, currency, first, rest, DailyRows(coin, currency, first, x, rows))
  {
    var once := DailyRows(coin, currency, first, x, rows);
    DailyRowsSplit(coin, currency, first, x + x + x, rest, rows);
    DailyRowsSplit(coin, currency, first, x + x, x, rows);
    RepeatsAddNothing(coin, currency, first, x, rows);
    DailyRowsSplit(coin, currency, first, x, x, rows);
  }

  /** Fetching every window three times over saves the rows of fetching it once. */
  lemma {:induction false} TripleFetchIsSingle(coin: Coin, currency: int, first: Option<int>, windows: seq<Window>,
                                               answer: Request -> seq<Quote>, n: nat, rows: seq<PriceRow>)
    requires Repeatable(answer)
    ensures DailyRows(coin, currency, first, FetchedOver(windows, answer, n), rows)
            == DailyRows(coin, currency, first, FetchedOnce(windows, answer), rows)
    decreases |windows|
  {
    hide DailyRows;
    if windows != [] {
      var w := windows[0];
      var x := answer(Request(0, w));
      assert answer(Request(n, w)) == x && answer(Request(n + 1, w)) == x;
      ThreeCopiesAreOne(coin, currency, first, x, FetchedOver(windows[1..], answer, n + 2), rows);
      DailyRowsSplit(coin, currency, first, x, FetchedOnce(windows[1..], answer), rows);
      TripleFetchIsSingle(coin, currency, first, windows[1..], answer, n + 2,
                          DailyRows(coin, currency, first, x, rows));
    }
  }

  lemma FetchStep(from: int, until: int, answer: Request -> seq<Quote>, n: nat)
    ensures var w := Window(from, NextFrom(from, until));
            var rest := if w.last < until then HistoryWindows(w.last, until) else [];
            FetchedOver(HistoryWindows(from, until), answer, n) ==
            answer(Request(n, w)) + answer(Request(n + 1, w)) + answer(Request(n + 1, w)) +
              FetchedOver(rest, answer, n + 2)
  {
    var w := Window(from, NextFrom(from, until));
    var rest := if w.last < until then HistoryWindows(w.last, until) else [];
    assert HistoryWindows(from, until) == [w] + rest;
    assert HistoryWindows(from, until)[1..] == rest;
  }

  lemma AppendRest(all: seq<Quote>, earlier: seq<Quote>, later: seq<Quote>, rest: seq<Quote>)
    ensures all + (earlier + later + later + rest) == (all + earlier + later + later) + rest
  {
  }

  method FetchHistory(from: int, until: int, answer: Request -> seq<Quote>) returns (allPrices: seq<Quote>)
    ensures allPrices == FetchedOver(HistoryWindows(from, until), answer, 0)
  {
    allPrices := [];
    var chunkFrom := from;
    var n: nat := 0;
    var more := true;
    ghost var left := HistoryWindows(from, until);
    while more
      invariant left == if more then HistoryWindows(chunkFrom, until) else []
      invariant allPrices + FetchedOver(left, answer, n) == FetchedOver(HistoryWindows(from, until), answer, 0)
      decreases more, until - chunkFrom
    {
      var w := Window(chunkFrom, NextFrom(chunkFrom, until));
      var earlier := answer(Request(n, w));
      var later := answer(Request(n + 1, w));
      FetchStep(chunkFrom, until, answer, n);
      left := if w.last < until then HistoryWindows(w.last, until) else [];
      hide FetchedOver, HistoryWindows;
      AppendRest(allPrices, earlier, later, FetchedOver(left, answer, n + 2));
      allPrices := allPrices + earlier + later + later;
      chunkFrom := w.last;
      n := n + 2;
      more := chunkFrom < until;
    }
    assert FetchedOver([], answer, n) == [];
  }

  // ---------------------------------------------------------------------------------------
  // The store
  // ---------------------------------------------------------------------------------------

  class PriceStore {
    var rows: seq<PriceRow>
    var histories: map<int, int>
    var notNew: set<int>

    method GetRequiredHistoryStartDate(coin: Coin, last: int) returns (start: Option<int>)
      modifies this`rows
      ensures !coin.hasAddress ==> start.None? && rows == old(rows)
      ensures coin.hasAddress ==>
                start == Some(StartOf(old(rows), coin, last).start) && rows == StartOf(old(rows), coin, last).rows
      ensures forall row: PriceRow :: row.asset != coin.id ==> multiset(rows)[row] == multiset(old(rows))[row]
    {
      if !coin.hasAddress {
        return None;
      }
      forall row: PriceRow | row.asset != coin.id
        ensures multiset(StartOf(rows, coin, last).rows)[row] == multiset(rows)[row]
      {
        OnlyThePeriodIsCleared(rows, coin, last, row);
      }
      if !HasHistory(coin) {
        rows := Without(rows, coin.id, TOKEN_START, last);
        return Some(TOKEN_START);
      }
      var tmp := last;
      var more := true;
      while more
        invariant more ==> Rewind(rows, coin.id, tmp) == Rewind(old(rows), coin.id, last)
        invariant !more ==> Rewound(rows, tmp) == Rewind(old(rows), coin.id, last)
        decreases |rows|, more
      {
        var count := |Day(rows, coin.id, tmp)|;
        DeletedAndKept(rows, coin.id, tmp - SECONDS_IN_DAY, tmp);
        if count != 1 {
          if count > 1 {
            rows := Without(rows, coin.id, tmp - SECONDS_IN_DAY, tmp);
          }
          tmp := tmp - SECONDS_IN_DAY;
        }
        more := count > 1;
      }
      start := Some(if coin.lastHistory.value > tmp then tmp else coin.lastHistory.value);
    }

    method SaveTokenPrices(coin: Coin, more: seq<PriceRow>)
      modifies this`rows, this`notNew
      ensures rows == Saved(old(rows), more)
      ensures notNew == if more == [] then old(notNew) else old(notNew) + {coin.id}
    {
      if more != [] {
        if !Collides(rows, more) {
          rows := rows + more;
        }
        notNew := notNew + {coin.id};
      } else {
        assert rows + more == rows;
      }
    }

    method UpdateAssetHistoryTimestamp(asset: int, timestamp: int)
      modifies this`histories
      ensures histories == old(histories)[asset := timestamp]
    {
      histories := histories[asset := timestamp];
    }

    /** The history timestamp moves first, and whatever becomes of the rows. */
    method CrawlCoinHistory(coin: Coin, quotes: seq<Quote>, currency: int, first: Option<int>, last: Option<int>)
      requires coin.hasAddress
      modifies this
      ensures rows == Saved(old(rows), DailyRows(coin, currency, first, quotes, []))
      ensures histories == if last.Some? && last.value != 0 then old(histories)[coin.id := last.value]
              else old(histories)
    {
      var tokenPrices: seq<PriceRow> := [];
      for k := 0 to |quotes|
        invariant DailyRows(coin, currency, first, quotes[k..], tokenPrices)
                  == DailyRows(coin, currency, first, quotes, [])
        invariant rows == old(rows) && histories == old(histories)
      {
        assert quotes[k..][1..] == quotes[k + 1..];
        var day := DayOf(quotes[k]);
        if !HasDay(tokenPrices, day) && first != Some(day) {
          tokenPrices := tokenPrices + [PriceRow(coin.id, currency, day, quotes[k].price)];
        }
      }
      if last.Some? && last.value != 0 {
        UpdateAssetHistoryTimestamp(coin.id, last.value);
      }
      if quotes != [] {
        SaveTokenPrices(coin, tokenPrices);
      } else {
        assert rows + [] == rows;
      }
    }

    /** The whole crawl of one coin up to `until`; a coin without an address is left alone. */
    method CrawlCoin(coin: Coin, until: int, currency: int, answer: Request -> seq<Quote>)
      modifies this
      ensures !coin.hasAddress ==> unchanged(this)
      ensures coin.hasAddress ==>
                var r := StartOf(old(rows), coin, until);
                && histories
                  == (if r.start == until || until != 0 then old(histories)[coin.id := until] else old(histories))
                && rows == if r.start == until then r.rows
                           else Saved(r.rows,
                                      DailyRows(coin, currency, Some(r.start),
                                                FetchedOver(HistoryWindows(r.start, until), answer, 0), []))
    {
      var start := GetRequiredHistoryStartDate(coin, until);
      if start.None? {
        return;
      }
      if start.value == until {
        UpdateAssetHistoryTimestamp(coin.id, until);
        return;
      }
      var allPrices := FetchHistory(start.value, until, answer);
      CrawlCoinHistory(coin, allPrices, currency, start, Some(until));
    }
  }

  // ---------------------------------------------------------------------------------------
  // When the crawled rows are really saved
  // ---------------------------------------------------------------------------------------

  /** The coin already has a row on a quoted day other than the first. */
  ghost predicate DayTaken(rows: seq<PriceRow>, coin: Coin, currency: int, first: Option<int>, quotes: seq<Quote>) {
    exists i :: 0 <= i < |rows| && Takes(rows[i], coin, currency, first, quotes)
  }

  predicate Takes(row: PriceRow, coin: Coin, currency: int, first: Option<int>, quotes: seq<Quote>) {
    row.asset == coin.id && row.currency == currency && first != Some(row.timestamp)
      && FirstOfDay(quotes, row.timestamp).Some?
  }

  ghost predicate AllOf(coin: Coin, currency: int, rows: seq<PriceRow>) {
    forall i :: 0 <= i < |rows| ==> rows[i].asset == coin.id && rows[i].currency == currency
  }

  lemma {:induction false} RowsBelongToCoin(coin: Coin, currency: int, first: Option<int>, quotes: seq<Quote>,
                                            rows: seq<PriceRow>)
    requires AllOf(coin, currency, rows)
    ensures AllOf(coin, currency, DailyRows(coin, currency, first, quotes, rows))
    decreases |quotes|
  {
    hide DayOf, HasDay;
    if quotes != [] {
      var more := AddQuote(coin, currency, first, rows, quotes[0]);
      assert AllOf(coin, currency, more);
      hide AddQuote, AllOf;
      RowsBelongToCoin(coin, currency, first, quotes[1..], more);
    }
  }

  lemma RowTakesIff(row: PriceRow, coin: Coin, currency: int, first: Option<int>, quotes: seq<Quote>)
    ensures Takes(row, coin, currency, first, quotes) <==>
            row.asset == coin.id && row.currency == currency
              && HasDay(DailyRows(coin, currency, first, quotes, []), row.timestamp)
  {
    hide DayOf, HasDay, DailyRows, FirstOfDay;
    var more := DailyRows(coin, currency, first, quotes, []);
    DailyRowsMean(coin, currency, first, quotes, [], row.timestamp);
    RowOfDayMeans(more, row.timestamp);
  }

  /** The crawl saves its rows exactly when no stored row of the coin lies on a quoted day
      other than the first; otherwise it saves none of them, although the history timestamp
      has moved on. */
  lemma HistoryIsSavedIff(rows: seq<PriceRow>, coin: Coin, currency: int, first: Option<int>, quotes: seq<Quote>)
    ensures var more := DailyRows(coin, currency, first, quotes, []);
            && (Collides(rows, more) <==> DayTaken(rows, coin, currency, first, quotes))
            && Saved(rows, more) == if DayTaken(rows, coin, currency, first, quotes) then rows else rows + more
  {
    hide DailyRows, Takes;
    var more := DailyRows(coin, currency, first, quotes, []);
    DailyRowsAreDistinct(coin, currency, first, quotes, []);
    RowsBelongToCoin(coin, currency, first, quotes, []);
    if i :| 0 <= i < |rows| && Takes(rows[i], coin, currency, first, quotes) {
      RowTakesIff(rows[i], coin, currency, first, quotes);
      var j :| 0 <= j < |more| && more[j].timestamp == rows[i].timestamp;
      assert SameKey(rows[i], more[j]);
    }
    if i, j :| 0 <= i < |rows| && 0 <= j < |more| && SameKey(rows[i], more[j]) {
      assert HasDay(more, rows[i].timestamp);
      RowTakesIff(rows[i], coin, currency, first, quotes);
    }
  }

  /** The rewind leaves no row between where it stops and `last`. */
  lemma RewindMakesRoom(rows: seq<PriceRow>, asset: int, last: int)
    ensures var r := Rewind(rows, asset, last); r.start <= last && Within(r.rows, asset, r.start, last) == []
  {
    var k := RewindDays(rows, asset, last);
    var r := Rewind(rows, asset, last);
    var cleared := DaysBack(last, k);
    ClearedDayIsEmpty(rows, asset, cleared, last, cleared, last);
    DayCount(rows, asset, cleared);
    if StoredOn(rows, asset, cleared) == 0 {
      OtherDaysStay(rows, asset, cleared, last, cleared - SECONDS_IN_DAY, cleared);
      EmptySidesJoin(r.rows, asset, r.start, cleared, last);
    }
  }

  lemma {:induction false} EmptySidesJoin(rows: seq<PriceRow>, asset: int, from: int, middle: int, until: int)
    requires Within(rows, asset, from, middle) == [] && Within(rows, asset, middle, until) == []
    ensures Within(rows, asset, from, until) == []
  {
    if rows != [] {
      EmptySidesJoin(rows[1..], asset, from, middle, until);
    }
  }

  lemma {:induction false} EmptyMeansNone(rows: seq<PriceRow>, asset: int, from: int, until: int, i: nat)
    requires Within(rows, asset, from, until) == [] && i < |rows|
    ensures !InPeriod(rows[i], asset, from, until)
  {
    if i > 0 {
      EmptyMeansNone(rows[1..], asset, from, until, i - 1);
    }
  }

  /** The crawl starts where the rewind stopped: the history timestamp is not older. */
  predicate StartsAtRewind(rows: seq<PriceRow>, coin: Coin, last: int) {
    !HasHistory(coin) || coin.lastHistory.value >= Rewind(rows, coin.id, last).start
  }

  /** Then a crawl whose quotes stay within the period saves all its rows. */
  lemma FreshCrawlIsSaved(rows: seq<PriceRow>, coin: Coin, last: int, currency: int, quotes: seq<Quote>)
    requires StartsAtRewind(rows, coin, last)
    requires forall day :: FirstOfDay(quotes, day).Some? ==> StartOf(rows, coin, last).start <= day < last
    ensures var r := StartOf(rows, coin, last);
            Saved(r.rows, DailyRows(coin, currency, Some(r.start), quotes, []))
            == r.rows + DailyRows(coin, currency, Some(r.start), quotes, [])
  {
    var r := StartOf(rows, coin, last);
    if !HasHistory(coin) {
      ClearedDayIsEmpty(rows, coin.id, TOKEN_START, last, TOKEN_START, last);
    } else {
      RewindMakesRoom(rows, coin.id, last);
    }
    HistoryIsSavedIff(r.rows, coin, currency, Some(r.start), quotes);
    hide StartOf, DailyRows;
    if i :| 0 <= i < |r.rows| && Takes(r.rows[i], coin, currency, Some(r.start), quotes) {
      EmptyMeansNone(r.rows, coin.id, r.start, last, i);
    }
  }
}
