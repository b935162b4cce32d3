/** Thinning out old prices: one price a day after a month, one every two hours after a week,
    one every half hour after a day. */
module Retention {
  import opened PriceTable
  import opened Wrappers

  const SECONDS_IN_30_MIN: int := 1800
  const SECONDS_IN_2_HOURS: int := 7200
  const SECONDS_IN_1_WEEK: int := 604800
  /** 31 days. */
  const SECONDS_IN_MONTH: int := 2678400

  /** One DELETE: prices off the grid of `mode` seconds, before `until` and, if given, after
      `after`. A bound of 0 counts as not given. */
  datatype Deletion = Deletion(mode: int, until: int, after: Option<int>) {
    predicate Hits(timestamp: int)
      requires mode > 0
    {
      && timestamp % mode != 0
      && timestamp < until
      && (after.Some? && after.value != 0 ==> timestamp > after.value)
    }
  }

  type ProperDeletion = d: Deletion | d.mode > 0 witness Deletion(1, 0, None)

  function DayTier(now: int): ProperDeletion {
    Deletion(SECONDS_IN_DAY, now - SECONDS_IN_MONTH, None)
  }

  function TwoHourTier(now: int): ProperDeletion {
    Deletion(SECONDS_IN_2_HOURS, now - SECONDS_IN_1_WEEK, Some(now - SECONDS_IN_MONTH))
  }

  function HalfHourTier(now: int): ProperDeletion {
    Deletion(SECONDS_IN_30_MIN, now - SECONDS_IN_DAY, Some(now - SECONDS_IN_1_WEEK))
  }

  function Delete(rows: seq<PriceRow>, d: ProperDeletion): seq<PriceRow> {
    if rows == [] then []
    else if d.Hits(rows[0].timestamp) then Delete(rows[1..], d)
    else [rows[0]] + Delete(rows[1..], d)
  }

  /** A deletion takes every copy of the prices it hits and leaves every copy of the others. */
  lemma {:induction false} DeletionHits(rows: seq<PriceRow>, d: ProperDeletion, row: PriceRow)
    ensures multiset(Delete(rows, d))[row] == if d.Hits(row.timestamp) then 0 else multiset(rows)[row]
  {
    hide Deletion.Hits;
    if rows != [] {
      DeletionHits(rows[1..], d, row);
      assert rows == [rows[0]] + rows[1..];
    }
  }

  /** Whether a cleaning at `now` leaves a price of that time, by age alone. A price exactly a
      week or a month old falls between two tiers. */
  predicate Keeps(now: int, timestamp: int) {
    var age := now - timestamp;
    if age <= 86400 || age == 7 * 86400 || age == 31 * 86400 then true
    else if age < 7 * 86400 then timestamp % 1800 == 0
    else if age < 31 * 86400 then timestamp % 7200 == 0
    else timestamp % 86400 == 0
  }

  function Cleaned(rows: seq<PriceRow>, now: int): seq<PriceRow> {
    if rows == [] then []
    else if Keeps(now, rows[0].timestamp) then [rows[0]] + Cleaned(rows[1..], now)
    else Cleaned(rows[1..], now)
  }

  class PriceHistory {
    var rows: seq<PriceRow>

    method RemoveExtraTokens(timestampMode: int, until: int, after: Option<int>)
      requires timestampMode > 0
      modifies this
      ensures rows == Delete(old(rows), Deletion(timestampMode, until, after))
      ensures forall row :: multiset(rows)[row] ==
                if Deletion(timestampMode, until, after).Hits(row.timestamp) then 0 else multiset(old(rows))[row]
    {
      forall row
        ensures multiset(Delete(rows, Deletion(timestampMode, until, after)))[row] ==
                if Deletion(timestampMode, until, after).Hits(row.timestamp) then 0 else multiset(rows)[row]
      {
        DeletionHits(rows, Deletion(timestampMode, until, after), row);
      }
      rows := Delete(rows, Deletion(timestampMode, until, after));
    }

    /** One cleaning, its deletions taking effect in the order they are issued. */
    method RemoveExtraPrices(now: int)
      modifies this
      ensures rows == Cleaned(old(rows), now)
    {
      RemoveExtraTokens(SECONDS_IN_DAY, now - SECONDS_IN_MONTH, None);
      RemoveExtraTokens(SECONDS_IN_2_HOURS, now - SECONDS_IN_1_WEEK, Some(now - SECONDS_IN_MONTH));
      RemoveExtraTokens(SECONDS_IN_30_MIN, now - SECONDS_IN_DAY, Some(now - SECONDS_IN_1_WEEK));
      OneAfterTheOther(old(rows), DayTier(now), TwoHourTier(now), HalfHourTier(now));
      AnyOrderCleans(old(rows), now, [DayTier(now), TwoHourTier(now), HalfHourTier(now)]);
    }
  }

  // ---------------------------------------------------------------------------------------
  // The order of the deletions
  // ---------------------------------------------------------------------------------------

  function DeleteAll(rows: seq<PriceRow>, deletions: seq<ProperDeletion>): seq<PriceRow>
    decreases |deletions|
  {
    if deletions == [] then rows else DeleteAll(Delete(rows, deletions[0]), deletions[1..])
  }

  lemma OneAfterTheOther(rows: seq<PriceRow>, a: ProperDeletion, b: ProperDeletion, c: ProperDeletion)
    ensures DeleteAll(rows, [a, b, c]) == Delete(Delete(Delete(rows, a), b), c)
  {
    hide Delete;
    assert [a, b, c][1..] == [b, c] && [b, c][1..] == [c];
    assert DeleteAll(Delete(Delete(rows, a), b), [c]) == Delete(Delete(Delete(rows, a), b), c);
  }

  ghost predicate Survives(row: PriceRow, deletions: seq<ProperDeletion>) {
    forall i :: 0 <= i < |deletions| ==> !deletions[i].Hits(row.timestamp)
  }

  /** The deletions are the three tiers, each at least once, in any order. */
  predicate ThreeTiers(now: int, deletions: seq<ProperDeletion>) {
    && DayTier(now) in deletions && TwoHourTier(now) in deletions && HalfHourTier(now) in deletions
    && forall i :: 0 <= i < |deletions| ==> deletions[i] in [DayTier(now), TwoHourTier(now), HalfHourTier(now)]
  }

  lemma {:induction false} DeleteAllOne(row: PriceRow, rows: seq<PriceRow>, deletions: seq<ProperDeletion>)
    ensures DeleteAll([row] + rows, deletions) ==
            if Survives(row, deletions) then [row] + DeleteAll(rows, deletions) else DeleteAll(rows, deletions)
    decreases |deletions|
  {
    if deletions != [] {
      assert ([row] + rows)[1..] == rows;
      if !deletions[0].Hits(row.timestamp) {
        DeleteAllOne(row, Delete(rows, deletions[0]), deletions[1..]);
        SurvivesStep(row, deletions);
      }
    }
  }

  lemma SurvivesStep(row: PriceRow, deletions: seq<ProperDeletion>)
    requires deletions != [] && !deletions[0].Hits(row.timestamp)
    ensures Survives(row, deletions) <==> Survives(row, deletions[1..])
  {
    hide Deletion.Hits;
    forall i | 0 <= i < |deletions|
      ensures i > 0 ==> deletions[i] == deletions[1..][i - 1]
    {
    }
    if Survives(row, deletions[1..]) {
      forall i | 0 <= i < |deletions|
        ensures !deletions[i].Hits(row.timestamp)
      {
        if i > 0 {
          assert !deletions[1..][i - 1].Hits(row.timestamp);
        }
      }
    }
  }

  lemma {:induction false} DeleteAllNothing(deletions: seq<ProperDeletion>)
    ensures DeleteAll([], deletions) == []
  {
    if deletions != [] {
      DeleteAllNothing(deletions[1..]);
    }
  }

  lemma SurvivorsAreKept(row: PriceRow, now: int, deletions: seq<ProperDeletion>)
    requires ThreeTiers(now, deletions)
    ensures Survives(row, deletions) <==> Keeps(now, row.timestamp)
  {
    var d, t, h := DayTier(now), TwoHourTier(now), HalfHourTier(now);
    TiersMean(now, row.timestamp);
    hide Deletion.Hits, DayTier, TwoHourTier, HalfHourTier, Keeps;
    if Survives(row, deletions) {
      var i :| 0 <= i < |deletions| && deletions[i] == d;
      var j :| 0 <= j < |deletions| && deletions[j] == t;
      var k :| 0 <= k < |deletions| && deletions[k] == h;
    }
    if !d.Hits(row.timestamp) && !t.Hits(row.timestamp) && !h.Hits(row.timestamp) {
      forall i | 0 <= i < |deletions|
        ensures !deletions[i].Hits(row.timestamp)
      {
        assert deletions[i] in [d, t, h];
      }
    }
  }

  lemma TiersMean(now: int, timestamp: int)
    ensures !DayTier(now).Hits(timestamp) && !TwoHourTier(now).Hits(timestamp) && !HalfHourTier(now).Hits(timestamp)
            <==> Keeps(now, timestamp)
  {
    DayGrid(timestamp);
  }

  /** The grids are nested. */
  lemma DayGrid(timestamp: int)
    ensures timestamp % SECONDS_IN_DAY == 0 ==> timestamp % SECONDS_IN_2_HOURS == 0
    ensures timestamp % SECONDS_IN_2_HOURS == 0 ==> timestamp % SECONDS_IN_30_MIN == 0
  {
    if timestamp % SECONDS_IN_DAY == 0 {
      assert timestamp == SECONDS_IN_2_HOURS * (12 * (timestamp / SECONDS_IN_DAY));
    }
    if timestamp % SECONDS_IN_2_HOURS == 0 {
      assert timestamp == SECONDS_IN_30_MIN * (4 * (timestamp / SECONDS_IN_2_HOURS));
    }
  }

  /** The three deletions are not awaited: in whatever order they take effect, and even if
      repeated, they leave exactly the prices kept by age. */
  lemma {:induction false} AnyOrderCleans(rows: seq<PriceRow>, now: int, deletions: seq<ProperDeletion>)
    requires ThreeTiers(now, deletions)
    ensures DeleteAll(rows, deletions) == Cleaned(rows, now)
  {
    hide ThreeTiers, Keeps, DeleteAll, Survives;
    if rows == [] {
      DeleteAllNothing(deletions);
    } else {
      assert rows == [rows[0]] + rows[1..];
      AnyOrderCleans(rows[1..], now, deletions);
      DeleteAllOne(rows[0], rows[1..], deletions);
      SurvivorsAreKept(rows[0], now, deletions);
    }
  }

  // ---------------------------------------------------------------------------------------
  // Repeated cleanings
  // ---------------------------------------------------------------------------------------

  /** A price at midnight survives every cleaning at every age. */
  lemma MidnightSurvives(now: int, timestamp: int)
    requires timestamp % SECONDS_IN_DAY == 0
    ensures Keeps(now, timestamp)
  {
  }

  predicate OnBoundary(now: int, timestamp: int) {
    timestamp == now - SECONDS_IN_1_WEEK || timestamp == now - SECONDS_IN_MONTH
  }

  /** An earlier cleaning takes nothing a later one would leave, except on the later one's
      week or month boundary. */
  lemma EarlierTakesNothingMore(earlier: int, later: int, timestamp: int)
    requires earlier <= later && Keeps(later, timestamp) && !OnBoundary(later, timestamp)
    ensures Keeps(earlier, timestamp)
  {
    DayGrid(timestamp);
  }

  function CleanedAt(rows: seq<PriceRow>, times: seq<int>): seq<PriceRow>
    decreases |times|
  {
    if times == [] then rows else CleanedAt(Cleaned(rows, times[0]), times[1..])
  }

  ghost predicate KeptAtAll(times: seq<int>, timestamp: int) {
    forall i :: 0 <= i < |times| ==> Keeps(times[i], timestamp)
  }

  predicate Ascending(times: seq<int>) {
    forall i, j :: 0 <= i < j < |times| ==> times[i] <= times[j]
  }

  lemma {:induction false} CleanedHas(rows: seq<PriceRow>, now: int, row: PriceRow)
    ensures multiset(Cleaned(rows, now))[row] == if Keeps(now, row.timestamp) then multiset(rows)[row] else 0
  {
    hide Keeps;
    if rows != [] {
      CleanedHas(rows[1..], now, row);
      assert rows == [rows[0]] + rows[1..];
    }
  }

  lemma {:induction false} CleanedAtHas(rows: seq<PriceRow>, times: seq<int>, row: PriceRow)
    ensures multiset(CleanedAt(rows, times))[row] == if KeptAtAll(times, row.timestamp) then multiset(rows)[row] else 0
    decreases |times|
  {
    hide Keeps, Cleaned;
    if times != [] {
      CleanedHas(rows, times[0], row);
      CleanedAtHas(Cleaned(rows, times[0]), times[1..], row);
      KeptStep(times, row.timestamp);
    }
  }

  lemma KeptStep(times: seq<int>, timestamp: int)
    requires times != []
    ensures KeptAtAll(times, timestamp) <==> Keeps(times[0], timestamp) && KeptAtAll(times[1..], timestamp)
  {
    hide Keeps;
    if Keeps(times[0], timestamp) && KeptAtAll(times[1..], timestamp) {
      forall i | 0 <= i < |times|
        ensures Keeps(times[i], timestamp)
      {
        if i > 0 {
          assert times[i] == times[1..][i - 1];
        }
      }
    }
    if KeptAtAll(times, timestamp) {
      forall i | 0 <= i < |times[1..]|
        ensures Keeps(times[1..][i], timestamp)
      {
        assert times[1..][i] == times[i + 1];
      }
    }
  }

  /** Over any schedule of cleanings, the number of copies of a price that are left depends on
      the last cleaning alone, unless the price lies on that one's week or month boundary;
      then an earlier cleaning may have taken it. */
  lemma OnlyTheLastCleaningCounts(rows: seq<PriceRow>, times: seq<int>, row: PriceRow)
    requires times != [] && Ascending(times)
    ensures var last := times[|times| - 1];
            && (!OnBoundary(last, row.timestamp) ==>
                  multiset(CleanedAt(rows, times))[row] == multiset(Cleaned(rows, last))[row])
            && (OnBoundary(last, row.timestamp) ==>
                  multiset(CleanedAt(rows, times))[row] ==
                  if KeptAtAll(times[..|times| - 1], row.timestamp) then multiset(rows)[row] else 0)
  {
    var last, before := times[|times| - 1], times[..|times| - 1];
    CleanedAtHas(rows, times, row);
    CleanedHas(rows, last, row);
    BoundaryIsKept(last, row.timestamp);
    assert times == before + [last];
    if Keeps(last, row.timestamp) && !OnBoundary(last, row.timestamp) {
      forall i | 0 <= i < |times|
        ensures Keeps(times[i], row.timestamp)
      {
        EarlierTakesNothingMore(times[i], last, row.timestamp);
      }
    }
    hide Keeps;
    assert KeptAtAll(times, row.timestamp) <==> KeptAtAll(before, row.timestamp) && Keeps(last, row.timestamp);
  }

  lemma BoundaryIsKept(now: int, timestamp: int)
    ensures OnBoundary(now, timestamp) ==> Keeps(now, timestamp)
  {
  }

  /** The exception is real: a price kept by the last cleaning, taken by the one before. */
  lemma BoundaryPriceIsLost()
    ensures Keeps(SECONDS_IN_1_WEEK + 1, 1) && !Keeps(SECONDS_IN_1_WEEK, 1)
  {
  }
}
