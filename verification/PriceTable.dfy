/** The stored prices, the destructive rewind that picks where a history crawl starts, and
    the day-by-day rows it saves. */
module PriceTable {
  import opened Wrappers

  const SECONDS_IN_DAY: int := 86400
  /** Midnight of 1 January 2013. */
  const TOKEN_START: int := 1356998400

  datatype PriceRow = PriceRow(asset: int, currency: int, timestamp: int, value: real)

  datatype Coin = Coin(id: int, hasAddress: bool, lastHistory: Option<int>)

  predicate InPeriod(row: PriceRow, asset: int, from: int, to: int) {
    row.asset == asset && from <= row.timestamp < to
  }

  /** SELECT of an asset's rows with from <= timestamp < to. */
  function Within(rows: seq<PriceRow>, asset: int, from: int, to: int): seq<PriceRow> {
    if rows == [] then []
    else if InPeriod(rows[0], asset, from, to) then [rows[0]] + Within(rows[1..], asset, from, to)
    else Within(rows[1..], asset, from, to)
  }

  /** DELETE of the same rows. */
  function Without(rows: seq<PriceRow>, asset: int, from: int, to: int): seq<PriceRow> {
    if rows == [] then []
    else if InPeriod(rows[0], asset, from, to) then Without(rows[1..], asset, from, to)
    else [rows[0]] + Without(rows[1..], asset, from, to)
  }

  /** The rows of the day that ends at `end`. */
  function Day(rows: seq<PriceRow>, asset: int, end: int): seq<PriceRow> {
    Within(rows, asset, end - SECONDS_IN_DAY, end)
  }

  /** How many rows of the asset the table holds with from <= timestamp < to. */
  function StoredBetween(rows: seq<PriceRow>, asset: int, from: int, to: int): nat {
    if rows == [] then 0
    else
      (if rows[0].asset == asset && from <= rows[0].timestamp && rows[0].timestamp < to then 1 else 0)
      + StoredBetween(rows[1..], asset, from, to)
  }

  /** How many on the day that ends at `end`. */
  function StoredOn(rows: seq<PriceRow>, asset: int, end: int): nat {
    StoredBetween(rows, asset, end - 86400, end)
  }

  lemma {:induction false} WithinCounts(rows: seq<PriceRow>, asset: int, from: int, to: int)
    ensures |Within(rows, asset, from, to)| == StoredBetween(rows, asset, from, to)
  {
    if rows != [] {
      WithinCounts(rows[1..], asset, from, to);
    }
  }

  lemma DayCounts(rows: seq<PriceRow>, asset: int)
    ensures forall end :: |Day(rows, asset, end)| == StoredOn(rows, asset, end)
  {
    forall end
      ensures |Day(rows, asset, end)| == StoredOn(rows, asset, end)
    {
      DayCount(rows, asset, end);
    }
  }

  lemma DayCount(rows: seq<PriceRow>, asset: int, end: int)
    ensures |Day(rows, asset, end)| == StoredOn(rows, asset, end)
  {
    WithinCounts(rows, asset, end - SECONDS_IN_DAY, end);
  }

  /** A deletion takes every copy of the asset's rows of the period, and no other. */
  lemma {:induction false} WithoutCounts(rows: seq<PriceRow>, asset: int, from: int, to: int, row: PriceRow)
    ensures multiset(Without(rows, asset, from, to))[row] ==
            if row.asset == asset && from <= row.timestamp && row.timestamp < to then 0 else multiset(rows)[row]
  {
    if rows != [] {
      WithoutCounts(rows[1..], asset, from, to, row);
      assert rows == [rows[0]] + rows[1..];
    }
  }

  lemma {:induction false} DeletedAndKept(rows: seq<PriceRow>, asset: int, from: int, to: int)
    ensures |Within(rows, asset, from, to)| + |Without(rows, asset, from, to)| == |rows|
  {
    if rows != [] {
      DeletedAndKept(rows[1..], asset, from, to);
    }
  }

  lemma {:induction false} WithoutHas(rows: seq<PriceRow>, asset: int, from: int, to: int, row: PriceRow)
    ensures row in Without(rows, asset, from, to) <==> row in rows && !InPeriod(row, asset, from, to)
  {
    if rows != [] {
      WithoutHas(rows[1..], asset, from, to, row);
      assert rows == [rows[0]] + rows[1..];
    }
  }

  /** Deleting the periods on both sides of `middle` deletes the whole period. */
  lemma {:induction false} WithoutJoins(rows: seq<PriceRow>, asset: int, from: int, middle: int, to: int)
    requires from <= middle <= to
    ensures Without(Without(rows, asset, middle, to), asset, from, middle) == Without(rows, asset, from, to)
  {
    if rows != [] {
      WithoutJoins(rows[1..], asset, from, middle, to);
      var rest := Without(rows[1..], asset, middle, to);
      if !InPeriod(rows[0], asset, middle, to) {
        assert ([rows[0]] + rest)[1..] == rest;
      }
    }
  }

  /** Deleting a period leaves the other days as they are. */
  lemma {:induction false} OtherDaysStay(rows: seq<PriceRow>, asset: int, from: int, to: int, first: int, last: int)
    requires last <= from || to <= first
    ensures Within(Without(rows, asset, from, to), asset, first, last) == Within(rows, asset, first, last)
  {
    if rows != [] {
      OtherDaysStay(rows[1..], asset, from, to, first, last);
      var rest := Without(rows[1..], asset, from, to);
      if !InPeriod(rows[0], asset, from, to) {
        assert ([rows[0]] + rest)[1..] == rest;
      }
    }
  }

  lemma {:induction false} ClearedDayIsEmpty(rows: seq<PriceRow>, asset: int, from: int, to: int, first: int, last: int)
    requires from <= first && last <= to
    ensures Within(Without(rows, asset, from, to), asset, first, last) == []
  {
    if rows != [] {
      ClearedDayIsEmpty(rows[1..], asset, from, to, first, last);
      var rest := Without(rows[1..], asset, from, to);
      if !InPeriod(rows[0], asset, from, to) {
        assert ([rows[0]] + rest)[1..] == rest;
      }
    }
  }

  // ---------------------------------------------------------------------------------------
  // The rewind
  // ---------------------------------------------------------------------------------------

  datatype Rewound = Rewound(rows: seq<PriceRow>, start: int)

  /** The loop: a day with several rows is cleared and the day before it looked at. */
  function Rewind(rows: seq<PriceRow>, asset: int, end: int): Rewound
    decreases |rows|
  {
    var count := |Day(rows, asset, end)|;
    DeletedAndKept(rows, asset, end - SECONDS_IN_DAY, end);
    if count > 1 then Rewind(Without(rows, asset, end - SECONDS_IN_DAY, end), asset, end - SECONDS_IN_DAY)
    else if count == 1 then Rewound(rows, end)
    else Rewound(rows, end - SECONDS_IN_DAY)
  }

  /** `k` days back from `last`. */
  function DaysBack(last: int, k: nat): int {
    last - k * SECONDS_IN_DAY
  }

  /** `k` is the number of consecutive days, counted back from `last`, with several rows. */
  ghost predicate CrowdedDays(rows: seq<PriceRow>, asset: int, last: int, k: nat) {
    && (forall j: nat :: j < k ==> StoredOn(rows, asset, DaysBack(last, j)) > 1)
    && StoredOn(rows, asset, DaysBack(last, k)) <= 1
  }

  /** The loop clears exactly the unbroken run of crowded days before `last`, and stops at the
      end of the first day with one row or at the start of the first day with none. Each
      cleared day had at least two rows, so the run is finite. */
  lemma {:induction false} RewindClearsCrowdedDays(rows: seq<PriceRow>, asset: int, last: int) returns (k: nat)
    ensures CrowdedDays(rows, asset, last, k)
    ensures var r := Rewind(rows, asset, last);
            && r.rows == Without(rows, asset, DaysBack(last, k), last)
            && r.start == DaysBack(last, k) - (if StoredOn(rows, asset, DaysBack(last, k)) == 0 then 86400 else 0)
            && |r.rows| + 2 * k <= |rows|
    ensures forall row :: multiset(Rewind(rows, asset, last).rows)[row] ==
              if row.asset == asset && DaysBack(last, k) <= row.timestamp && row.timestamp < last then 0
              else multiset(rows)[row]
  {
    k := RewindDays(rows, asset, last);
    forall row
      ensures multiset(Rewind(rows, asset, last).rows)[row] ==
              if row.asset == asset && DaysBack(last, k) <= row.timestamp && row.timestamp < last then 0
              else multiset(rows)[row]
    {
      WithoutCounts(rows, asset, DaysBack(last, k), last, row);
    }
  }

  lemma {:induction false} RewindDays(rows: seq<PriceRow>, asset: int, last: int) returns (k: nat)
    ensures CrowdedDays(rows, asset, last, k)
    ensures var r := Rewind(rows, asset, last);
            && r.rows == Without(rows, asset, DaysBack(last, k), last)
            && r.start == DaysBack(last, k) - (if StoredOn(rows, asset, DaysBack(last, k)) == 0 then SECONDS_IN_DAY
                                               else 0)
            && |r.rows| + 2 * k <= |rows|
    decreases |rows|
  {
    DayCounts(rows, asset);
    var end := last - SECONDS_IN_DAY;
    if |Day(rows, asset, last)| > 1 {
      var rest := Without(rows, asset, end, last);
      DeletedAndKept(rows, asset, end, last);
      var j := RewindDays(rest, asset, end);
      DayCounts(rest, asset);
      k := j + 1;
      WithoutJoins(rows, asset, DaysBack(end, j), end, last);
      forall i: nat | 1 <= i <= k
        ensures Day(rows, asset, DaysBack(last, i)) == Day(rest, asset, DaysBack(end, i - 1))
      {
        OtherDaysStay(rows, asset, end, last, DaysBack(last, i) - SECONDS_IN_DAY, DaysBack(last, i));
      }
      CrowdedStep(rows, rest, asset, last, k);
    } else {
      k := 0;
      WithoutNothing(rows, asset, last);
    }
  }

  lemma CrowdedStep(rows: seq<PriceRow>, rest: seq<PriceRow>, asset: int, last: int, k: nat)
    requires k > 0 && |Day(rows, asset, last)| > 1
    requires CrowdedDays(rest, asset, last - SECONDS_IN_DAY, k - 1)
    requires forall i: nat :: 1 <= i <= k ==>
               Day(rows, asset, DaysBack(last, i)) == Day(rest, asset, DaysBack(last - SECONDS_IN_DAY, i - 1))
    ensures CrowdedDays(rows, asset, last, k)
  {
    DayCounts(rows, asset);
    DayCounts(rest, asset);
    hide Day, StoredOn;
    assert DaysBack(last, 0) == last;
    forall j: nat | j < k
      ensures StoredOn(rows, asset, DaysBack(last, j)) > 1
    {
      if j > 0 {
        assert Day(rows, asset, DaysBack(last, j)) == Day(rest, asset, DaysBack(last - SECONDS_IN_DAY, j - 1));
      }
    }
  }

  lemma {:induction false} WithoutNothing(rows: seq<PriceRow>, asset: int, at: int)
    ensures Without(rows, asset, at, at) == rows
  {
    if rows != [] {
      WithoutNothing(rows[1..], asset, at);
    }
  }

  /** Where a crawl up to `last` starts, and the rows it leaves. */
  function StartOf(rows: seq<PriceRow>, coin: Coin, last: int): Rewound {
    if !HasHistory(coin) then
      Rewound(Without(rows, coin.id, TOKEN_START, last), TOKEN_START)
    else
      var r := Rewind(rows, coin.id, last);
      r.(start := if coin.lastHistory.value > r.start then r.start else coin.lastHistory.value)
  }

  predicate HasHistory(coin: Coin) {
    coin.lastHistory.Some? && coin.lastHistory.value != 0
  }

  /** Every copy of another coin's row stays, and of the coin's own rows every copy stays that
      does not lie between the returned start and `last`; nothing is added. Without a history,
      all of the coin's rows since 2013 go. */
  lemma OnlyThePeriodIsCleared(rows: seq<PriceRow>, coin: Coin, last: int, row: PriceRow)
    ensures var r := StartOf(rows, coin, last);
            var before, after := multiset(rows)[row], multiset(r.rows)[row];
            && (row.asset != coin.id || row.timestamp < r.start || row.timestamp >= last ==> after == before)
            && (after == before || after == 0)
            && (coin.lastHistory !in {None, Some(0)} || row.asset != coin.id || after == 0
                || row.timestamp < 1356998400 || row.timestamp >= last)
  {
    if HasHistory(coin) {
      var k := RewindClearsCrowdedDays(rows, coin.id, last);
    } else {
      WithoutCounts(rows, coin.id, TOKEN_START, last, row);
    }
  }

  /** The coin's own rows. */
  function OwnRows(rows: seq<PriceRow>, asset: int): seq<PriceRow> {
    if rows == [] then []
    else (if rows[0].asset == asset then [rows[0]] else []) + OwnRows(rows[1..], asset)
  }

  lemma {:induction false} PeriodOfOwnRows(rows: seq<PriceRow>, asset: int, from: int, to: int)
    ensures Within(OwnRows(rows, asset), asset, from, to) == Within(rows, asset, from, to)
    ensures Without(OwnRows(rows, asset), asset, from, to) == OwnRows(Without(rows, asset, from, to), asset)
  {
    if rows != [] {
      PeriodOfOwnRows(rows[1..], asset, from, to);
      var own, kept := OwnRows(rows[1..], asset), Without(rows[1..], asset, from, to);
      if rows[0].asset == asset {
        assert ([rows[0]] + own)[1..] == own;
      }
      if !InPeriod(rows[0], asset, from, to) {
        assert ([rows[0]] + kept)[1..] == kept;
      }
      assert [] + own == own;
    }
  }

  lemma {:induction false} RewindOfOwnRows(rows: seq<PriceRow>, asset: int, end: int)
    ensures Rewind(OwnRows(rows, asset), asset, end).start == Rewind(rows, asset, end).start
    ensures Rewind(OwnRows(rows, asset), asset, end).rows == OwnRows(Rewind(rows, asset, end).rows, asset)
    decreases |rows|
  {
    PeriodOfOwnRows(rows, asset, end - SECONDS_IN_DAY, end);
    if |Day(rows, asset, end)| > 1 {
      DeletedAndKept(rows, asset, end - SECONDS_IN_DAY, end);
      RewindOfOwnRows(Without(rows, asset, end - SECONDS_IN_DAY, end), asset, end - SECONDS_IN_DAY);
    }
  }

  /** Where a crawl starts and what it leaves of the coin's rows do not depend on the rows of
      other coins. */
  lemma OtherCoinsDoNotMatter(x: seq<PriceRow>, y: seq<PriceRow>, coin: Coin, last: int)
    requires OwnRows(x, coin.id) == OwnRows(y, coin.id)
    ensures StartOf(x, coin, last).start == StartOf(y, coin, last).start
    ensures OwnRows(StartOf(x, coin, last).rows, coin.id) == OwnRows(StartOf(y, coin, last).rows, coin.id)
  {
    RewindOfOwnRows(x, coin.id, last);
    RewindOfOwnRows(y, coin.id, last);
    PeriodOfOwnRows(x, coin.id, TOKEN_START, last);
    PeriodOfOwnRows(y, coin.id, TOKEN_START, last);
  }

  /** With a history, the start is at or before both its timestamp and `last`; every day of the
      cleared run ends up empty, and the first day before it keeps its one row or none. Without
      one the start is the beginning of 2013. */
  lemma StartIsSafe(rows: seq<PriceRow>, coin: Coin, last: int)
    ensures var r := StartOf(rows, coin, last);
            if coin.lastHistory in {None, Some(0)} then r.start == 1356998400
            else
              && r.start <= last && r.start <= coin.lastHistory.value
              && exists k: nat :: CrowdedDays(rows, coin.id, last, k) && DaysCleared(r.rows, coin.id, last, k)
  {
    if HasHistory(coin) {
      var k := RewindDays(rows, coin.id, last);
      DaysAreCleared(rows, coin.id, last, k);
    }
  }

  lemma DaysAreCleared(rows: seq<PriceRow>, asset: int, last: int, k: nat)
    requires CrowdedDays(rows, asset, last, k)
    ensures DaysCleared(Without(rows, asset, DaysBack(last, k), last), asset, last, k)
  {
    var rest := Without(rows, asset, DaysBack(last, k), last);
    forall j: nat | j < k
      ensures StoredOn(rest, asset, DaysBack(last, j)) == 0
    {
      ClearedDayIsEmpty(rows, asset, DaysBack(last, k), last, DaysBack(last, j) - SECONDS_IN_DAY, DaysBack(last, j));
      DayCount(rest, asset, DaysBack(last, j));
    }
    OtherDaysStay(rows, asset, DaysBack(last, k), last, DaysBack(last, k) - SECONDS_IN_DAY, DaysBack(last, k));
    DayCount(rows, asset, DaysBack(last, k));
    DayCount(rest, asset, DaysBack(last, k));
    hide Day, StoredOn;
  }

  ghost predicate DaysCleared(rows: seq<PriceRow>, asset: int, last: int, k: nat) {
    && (forall j: nat :: j < k ==> StoredOn(rows, asset, DaysBack(last, j)) == 0)
    && StoredOn(rows, asset, DaysBack(last, k)) <= 1
  }

  // ---------------------------------------------------------------------------------------
  // One row per day
  // ---------------------------------------------------------------------------------------

  /** A quoted price, at a time in milliseconds. */
  datatype Quote = Quote(time: int, price: real)

  /** Rounding to the nearest, halves upwards. */
  function RoundToSeconds(time: int): int {
    (time + 500) / 1000
  }

  /** The remainder takes the sign of the dividend. */
  function Rem(x: int, m: int): int
    requires m > 0
  {
    if x >= 0 then x % m else -((-x) % m)
  }

  function DayOf(q: Quote): int {
    RoundToSeconds(q.time) - Rem(RoundToSeconds(q.time), SECONDS_IN_DAY)
  }

  /** The day of a quote is the midnight it falls after, its time rounded to seconds first;
      before 1970 it is the midnight it falls before. */
  lemma DayIsMidnight(q: Quote)
    ensures DayOf(q) % 86400 == 0
    ensures q.time >= -500 ==> DayOf(q) * 1000 - 500 <= q.time < (DayOf(q) + 86400) * 1000 - 500
    ensures q.time < -500 ==> (DayOf(q) - 86400) * 1000 + 500 <= q.time < DayOf(q) * 1000 + 500
  {
    var t := RoundToSeconds(q.time);
    if t >= 0 {
      assert DayOf(q) == 86400 * (t / 86400);
    } else {
      assert DayOf(q) == -86400 * ((-t) / 86400);
    }
  }

  predicate HasDay(rows: seq<PriceRow>, day: int) {
    exists i :: 0 <= i < |rows| && rows[i].timestamp == day
  }

  /** Appends the first price of every day not yet in `rows` and other than `first`. */
  function DailyRows(coin: Coin, currency: int, first: Option<int>, quotes: seq<Quote>,
                     rows: seq<PriceRow>): seq<PriceRow>
    decreases |quotes|
  {
    if quotes == [] then rows
    else DailyRows(coin, currency, first, quotes[1..], AddQuote(coin, currency, first, rows, quotes[0]))
  }

  function AddQuote(coin: Coin, currency: int, first: Option<int>, rows: seq<PriceRow>, q: Quote): seq<PriceRow> {
    if HasDay(rows, DayOf(q)) || first == Some(DayOf(q)) then rows
    else rows + [PriceRow(coin.id, currency, DayOf(q), q.price)]
  }

  function FirstOfDay(quotes: seq<Quote>, day: int): Option<real> {
    if quotes == [] then None
    else if DayOf(quotes[0]) == day then Some(quotes[0].price)
    else FirstOfDay(quotes[1..], day)
  }

  function RowOfDay(rows: seq<PriceRow>, day: int): Option<PriceRow> {
    if rows == [] then None
    else if rows[|rows| - 1].timestamp == day then Some(rows[|rows| - 1])
    else RowOfDay(rows[..|rows| - 1], day)
  }

  lemma {:induction false} RowOfDayMeans(rows: seq<PriceRow>, day: int)
    ensures RowOfDay(rows, day).Some? <==> HasDay(rows, day)
  {
    if rows != [] {
      var init, last := rows[..|rows| - 1], rows[|rows| - 1];
      RowOfDayMeans(init, day);
      assert HasDay(rows, day) <==> HasDay(init, day) || last.timestamp == day by {
        if i :| 0 <= i < |rows| && rows[i].timestamp == day && i < |rows| - 1 {
          assert init[i].timestamp == day;
        }
        if i :| 0 <= i < |init| && init[i].timestamp == day {
          assert rows[i].timestamp == day;
        }
        if last.timestamp == day {
          assert rows[|rows| - 1].timestamp == day;
        }
      }
    }
  }

  ghost predicate DistinctDays(rows: seq<PriceRow>) {
    forall i, j :: 0 <= i < j < |rows| ==> rows[i].timestamp != rows[j].timestamp
  }

  lemma AddQuoteMeans(coin: Coin, currency: int, first: Option<int>, rows: seq<PriceRow>, q: Quote, day: int)
    ensures RowOfDay(AddQuote(coin, currency, first, rows, q), day) ==
            if RowOfDay(rows, day).Some? || first == Some(day) || DayOf(q) != day then RowOfDay(rows, day)
            else Some(PriceRow(coin.id, currency, day, q.price))
  {
    hide DayOf, HasDay;
    RowOfDayMeans(rows, day);
    var more := AddQuote(coin, currency, first, rows, q);
    if more != rows {
      assert more[..|more| - 1] == rows;
    }
  }

  /** A day has a row exactly when it is not the first day and has a quote, and the row carries
      the day's first quoted price. */
  lemma {:induction false} DailyRowsMean(coin: Coin, currency: int, first: Option<int>, quotes: seq<Quote>,
                                         rows: seq<PriceRow>, day: int)
    ensures RowOfDay(DailyRows(coin, currency, first, quotes, rows), day) ==
            if RowOfDay(rows, day).Some? || first == Some(day) || FirstOfDay(quotes, day).None? then RowOfDay(rows, day)
            else Some(PriceRow(coin.id, currency, day, FirstOfDay(quotes, day).value))
    decreases |quotes|
  {
    hide DayOf, AddQuote, RowOfDay;
    if quotes != [] {
      AddQuoteMeans(coin, currency, first, rows, quotes[0], day);
      DailyRowsMean(coin, currency, first, quotes[1..], AddQuote(coin, currency, first, rows, quotes[0]), day);
    }
  }

  lemma {:induction false} DailyRowsAreDistinct(coin: Coin, currency: int, first: Option<int>, quotes: seq<Quote>,
                                                rows: seq<PriceRow>)
    requires DistinctDays(rows)
    ensures DistinctDays(DailyRows(coin, currency, first, quotes, rows))
    decreases |quotes|
  {
    hide DayOf;
    if quotes != [] {
      var more := AddQuote(coin, currency, first, rows, quotes[0]);
      assert DistinctDays(more);
      DailyRowsAreDistinct(coin, currency, first, quotes[1..], more);
    }
  }

  lemma {:induction false} DailyRowsSplit(coin: Coin, currency: int, first: Option<int>, x: seq<Quote>, y: seq<Quote>,
                                          rows: seq<PriceRow>)
    ensures DailyRows(coin, currency, first, x + y, rows)
            == DailyRows(coin, currency, first, y, DailyRows(coin, currency, first, x, rows))
    decreases |x|
  {
    hide AddQuote;
    if x == [] {
      assert x + y == y;
    } else {
      assert (x + y)[1..] == x[1..] + y;
      DailyRowsSplit(coin, currency, first, x[1..], y, AddQuote(coin, currency, first, rows, x[0]));
    }
  }

  /** Every quote of `x` falls on a day that is settled. */
  ghost predicate Settled(first: Option<int>, x: seq<Quote>, rows: seq<PriceRow>) {
    forall i :: 0 <= i < |x| ==> HasDay(rows, DayOf(x[i])) || first == Some(DayOf(x[i]))
  }

  lemma {:induction false} SettledAddsNothing(coin: Coin, currency: int, first: Option<int>, x: seq<Quote>,
                                              rows: seq<PriceRow>)
    requires Settled(first, x, rows)
    ensures DailyRows(coin, currency, first, x, rows) == rows
    decreases |x|
  {
    hide HasDay, DayOf;
    if x != [] {
      forall i | 0 <= i < |x[1..]|
        ensures HasDay(rows, DayOf(x[1..][i])) || first == Some(DayOf(x[1..][i]))
      {
        assert x[1..][i] == x[i + 1];
      }
      SettledAddsNothing(coin, currency, first, x[1..], rows);
    }
  }

  lemma {:induction false} FirstOfDayFinds(x: seq<Quote>, i: nat)
    requires i < |x|
    ensures FirstOfDay(x, DayOf(x[i])).Some?
  {
    hide DayOf;
    if DayOf(x[0]) != DayOf(x[i]) {
      FirstOfDayFinds(x[1..], i - 1);
    }
  }

  /** Reading the same quotes again adds nothing. */
  lemma RepeatsAddNothing(coin: Coin, currency: int, first: Option<int>, x: seq<Quote>, rows: seq<PriceRow>)
    ensures DailyRows(coin, currency, first, x + x, rows) == DailyRows(coin, currency, first, x, rows)
  {
    var once := DailyRows(coin, currency, first, x, rows);
    forall i | 0 <= i < |x|
      ensures HasDay(once, DayOf(x[i])) || first == Some(DayOf(x[i]))
    {
      var day := DayOf(x[i]);
      FirstOfDayFinds(x, i);
      DailyRowsMean(coin, currency, first, x, rows, day);
      RowOfDayMeans(once, day);
    }
    DailyRowsSplit(coin, currency, first, x, x, rows);
    SettledAddsNothing(coin, currency, first, x, once);
  }
}
