/** The crawler's cursor: which blocks a run takes, and what any number of runs record. */
module Cursor {
  import opened LogWindows
  import opened Wrappers

  datatype Network = Eth | Bsc

  /** Blocks held back behind the reported head. */
  function Depth(network: Network): nat {
    match network
    case Eth => 3
    case Bsc => 10
  }

  /** The greatest `to_block` of the block-info table; rows are (from_block, to_block). */
  function LastBlock(rows: seq<Window>): Option<int> {
    if rows == [] then None
    else
      var last := rows[|rows| - 1].last;
      match LastBlock(rows[..|rows| - 1])
      case None => Some(last)
      case Some(previous) => Some(if last > previous then last else previous)
  }

  datatype CrawlError = Synchronized

  /** The window of a run that reads table `rows` and is told the chain ends at `head`. */
  function PickWindow(rows: seq<Window>, head: int, depth: nat, step: nat): Result<Window, CrawlError> {
    PickFrom(LastBlock(rows), head, depth, step)
  }

  function PickFrom(last: Option<int>, head: int, depth: nat, step: nat): Result<Window, CrawlError> {
    var actual := head - depth;
    if last.Some? && actual == last.value then Err(Synchronized)
    else
      var from := if last.Some? then last.value + 1 else 0;
      var to := from + step;
      Ok(Window(from, if to > actual then actual else to))
  }

  /** The cursor, with the empty table standing just before block 0. */
  function CursorOf(rows: seq<Window>): int {
    match LastBlock(rows)
    case None => -1
    case Some(last) => last
  }

  /** The last confirmed block is recorded already. */
  predicate UpToDate(rows: seq<Window>, head: int, depth: nat) {
    rows != [] && CursorOf(rows) == head - depth
  }

  /** `w` starts right after the cursor and ends `step` blocks further on, or at the last
      confirmed block where that comes first. */
  predicate FollowsCursor(rows: seq<Window>, head: int, depth: nat, step: nat, w: Window) {
    && w.first == CursorOf(rows) + 1
    && w.last <= w.first + step && w.last <= head - depth
    && (w.last == w.first + step || w.last == head - depth)
  }

  lemma PickedFollowsCursor(rows: seq<Window>, head: int, depth: nat, step: nat)
    ensures PickWindow(rows, head, depth, step).Err? <==> UpToDate(rows, head, depth)
    ensures forall w :: PickWindow(rows, head, depth, step) == Ok(w)
                        <==> !UpToDate(rows, head, depth) && FollowsCursor(rows, head, depth, step, w)
  {
    CursorOfAppend(rows, Window(0, 0));
  }

  /** One scheduled run: the head the node reported to it, and whether it got as far as
      committing. Any failure before the commit leaves the table alone. */
  datatype Run = Run(head: int, commits: bool)

  function AfterRun(rows: seq<Window>, run: Run, depth: nat, step: nat): seq<Window> {
    match PickWindow(rows, run.head, depth, step)
    case Err(_) => rows
    case Ok(w) => if run.commits then rows + [w] else rows
  }

  function AfterRuns(rows: seq<Window>, runs: seq<Run>, depth: nat, step: nat): seq<Window>
    decreases |runs|
  {
    if runs == [] then rows else AfterRuns(AfterRun(rows, runs[0], depth, step), runs[1..], depth, step)
  }

  /** What a run leaves of the table: one more window when it commits and there was something to
      record, and the table as it was otherwise. */
  ghost predicate RecordsNext(rows: seq<Window>, run: Run, depth: nat, step: nat, after: seq<Window>) {
    if run.commits && !UpToDate(rows, run.head, depth)
    then exists w :: FollowsCursor(rows, run.head, depth, step, w) && after == rows + [w]
    else after == rows
  }

  /** Over all runs: each one records exactly the next window behind the head it saw, no wider
      than the step, or nothing. */
  lemma {:induction false} RunsFollowCursor(rows: seq<Window>, runs: seq<Run>, depth: nat, step: nat, k: nat)
    requires k < |runs|
    ensures RecordsNext(AfterRuns(rows, runs[..k], depth, step), runs[k], depth, step,
                        AfterRuns(rows, runs[..k + 1], depth, step))
    decreases |runs|
  {
    hide FollowsCursor, UpToDate, PickWindow;
    var next := AfterRun(rows, runs[0], depth, step);
    assert runs[..k + 1][1..] == runs[1..][..k];
    if k == 0 {
      PickedFollowsCursor(rows, runs[0].head, depth, step);
    } else {
      assert runs[..k][1..] == runs[1..][..k - 1];
      RunsFollowCursor(next, runs[1..], depth, step, k - 1);
    }
  }

  /** The heads seen by the runs that recorded a row, in the order of the rows. */
  function HeadsSeen(rows: seq<Window>, runs: seq<Run>, depth: nat, step: nat): seq<int>
    decreases |runs|
  {
    if runs == [] then []
    else
      (if |AfterRun(rows, runs[0], depth, step)| > |rows| then [runs[0].head] else [])
      + HeadsSeen(AfterRun(rows, runs[0], depth, step), runs[1..], depth, step)
  }

  /** Row `i` contains `block`; a row whose ends are inverted contains none. */
  predicate Records(rows: seq<Window>, i: int, block: int) {
    0 <= i < |rows| && rows[i].first <= block <= rows[i].last
  }

  ghost predicate Covered(rows: seq<Window>, block: int) {
    exists i :: Records(rows, i, block)
  }

  ghost predicate Disjoint(rows: seq<Window>) {
    forall i, j, block :: Records(rows, i, block) && Records(rows, j, block) ==> i == j
  }

  ghost predicate CoversExactly(rows: seq<Window>) {
    forall block :: Covered(rows, block) <==> 0 <= block <= CursorOf(rows)
  }

  /** The non-empty intervals are pairwise disjoint and their union is [0, cursor]. */
  ghost predicate Exact(rows: seq<Window>) {
    Disjoint(rows) && CoversExactly(rows)
  }

  lemma CursorOfAppend(rows: seq<Window>, w: Window)
    ensures LastBlock(rows).None? <==> rows == []
    ensures LastBlock(rows + [w]) == Some(if rows != [] && CursorOf(rows) > w.last then CursorOf(rows) else w.last)
  {
    var all := rows + [w];
    assert all[|all| - 1] == w;
    assert all[..|all| - 1] == rows;
  }

  lemma CoveredAppend(rows: seq<Window>, w: Window, block: int)
    ensures Covered(rows + [w], block) <==> Covered(rows, block) || w.first <= block <= w.last
  {
    if w.first <= block <= w.last {
      assert Records(rows + [w], |rows|, block);
    }
    if i :| Records(rows, i, block) {
      assert Records(rows + [w], i, block);
    }
    if i :| Records(rows + [w], i, block) {
      assert i < |rows| ==> Records(rows, i, block);
    }
  }

  /** Appending a window that starts right after the cursor, or at or before it, leaves no
      gap; starting right after it, it also overlaps nothing. */
  lemma AppendKeepsCover(rows: seq<Window>, w: Window)
    requires CoversExactly(rows) && CursorOf(rows) >= -1
    requires 0 <= w.first <= CursorOf(rows) + 1
    requires rows == [] ==> w.last >= -1
    ensures CoversExactly(rows + [w]) && CursorOf(rows + [w]) >= CursorOf(rows)
    ensures Disjoint(rows) && w.first == CursorOf(rows) + 1 ==> Disjoint(rows + [w])
  {
    CursorOfAppend(rows, w);
    forall block
      ensures Covered(rows + [w], block) <==> 0 <= block <= CursorOf(rows + [w])
    {
      CoveredAppend(rows, w, block);
    }
    if Disjoint(rows) && w.first == CursorOf(rows) + 1 {
      forall i, j, block | Records(rows + [w], i, block) && Records(rows + [w], j, block)
        ensures i == j
      {
        if i < |rows| {
          assert Records(rows, i, block) && Covered(rows, block);
        }
        if j < |rows| {
          assert Records(rows, j, block) && Covered(rows, block);
        }
      }
    }
  }

  lemma {:induction false} EmptyIsExact()
    ensures Exact([]) && CursorOf([]) == -1
  {
  }

  /** The first run that commits on an empty table was told a head deep enough. */
  predicate DeepStart(runs: seq<Run>, depth: nat) {
    runs == [] || (if runs[0].commits then runs[0].head - depth >= -1 else DeepStart(runs[1..], depth))
  }

  /** Whatever heads the node reports, older ones included, and wherever runs fail: the
      recorded intervals stay disjoint with union exactly [0, cursor]; the cursor never
      moves back; and no run records a block above the head it saw minus the depth. */
  lemma {:induction false} CursorSafety(rows: seq<Window>, runs: seq<Run>, depth: nat, step: nat)
    requires Exact(rows) && CursorOf(rows) >= -1
    requires rows == [] ==> DeepStart(runs, depth)
    ensures Exact(AfterRuns(rows, runs, depth, step))
    ensures CursorOf(rows) <= CursorOf(AfterRuns(rows, runs, depth, step))
    decreases |runs|
  {
    if runs != [] {
      var next := AfterRun(rows, runs[0], depth, step);
      if next != rows {
        var w := PickWindow(rows, runs[0].head, depth, step).value;
        CursorOfAppend(rows, w);
        AppendKeepsCover(rows, w);
      }
      CursorSafety(next, runs[1..], depth, step);
    }
  }

  /** No recorded interval reaches above the confirmed part of the chain its run saw. */
  lemma {:induction false} RecordsAreConfirmed(rows: seq<Window>, runs: seq<Run>, depth: nat, step: nat)
    ensures rows <= AfterRuns(rows, runs, depth, step)
    ensures |HeadsSeen(rows, runs, depth, step)| == |AfterRuns(rows, runs, depth, step)| - |rows|
    ensures forall k :: 0 <= k < |HeadsSeen(rows, runs, depth, step)| ==>
              AfterRuns(rows, runs, depth, step)[|rows| + k].last <= HeadsSeen(rows, runs, depth, step)[k] - depth
    decreases |runs|
  {
    if runs != [] {
      var next := AfterRun(rows, runs[0], depth, step);
      RecordsAreConfirmed(next, runs[1..], depth, step);
      if next != rows {
        var heads, rest := HeadsSeen(rows, runs, depth, step), HeadsSeen(next, runs[1..], depth, step);
        assert heads == [runs[0].head] + rest;
        assert AfterRuns(rows, runs, depth, step)[|rows|] == next[|rows|];
        forall k | 0 <= k < |heads|
          ensures AfterRuns(rows, runs, depth, step)[|rows| + k].last <= heads[k] - depth
        {
          if k > 0 {
            assert heads[k] == rest[k - 1];
          }
        }
      }
    }
  }

  /** A first run told a head more than one block too shallow starts below block 0, and
      some later run then records blocks that do not exist. The guard is exact. */
  lemma {:induction false} ShallowStartBreaksCover(head: int, depth: nat, step: nat)
    ensures (forall more: seq<Run> :: Exact(AfterRuns([], [Run(head, true)] + more, depth, step)))
            <==> head - depth >= -1
  {
    if head - depth >= -1 {
      forall more: seq<Run>
        ensures Exact(AfterRuns([], [Run(head, true)] + more, depth, step))
      {
        EmptyIsExact();
        CursorSafety([], [Run(head, true)] + more, depth, step);
      }
    } else {
      TwoShallowRuns(head, depth, step);
    }
  }

  lemma {:induction false} TwoShallowRuns(head: int, depth: nat, step: nat)
    requires head - depth < -1
    ensures !Exact(AfterRuns([], [Run(head, true)] + [Run(head + 1, true)], depth, step))
  {
    var bad := head - depth + 1;
    var one, two := [] + [Window(0, bad - 1)], [] + [Window(0, bad - 1)] + [Window(bad, bad)];
    CursorOfAppend([], Window(0, bad - 1));
    assert AfterRun([], Run(head, true), depth, step) == one;
    assert AfterRun(one, Run(head + 1, true), depth, step) == two;
    AfterTwoRuns([], Run(head, true), Run(head + 1, true), depth, step);
    CursorOfAppend(one, Window(bad, bad));
    CoveredAppend(one, Window(bad, bad), bad);
    assert Covered(two, bad);
  }

  lemma AfterTwoRuns(rows: seq<Window>, first: Run, second: Run, depth: nat, step: nat)
    ensures AfterRuns(rows, [first] + [second], depth, step) ==
            AfterRun(AfterRun(rows, first, depth, step), second, depth, step)
  {
    var runs := [first] + [second];
    var next := AfterRun(rows, first, depth, step);
    assert runs[1..] == [second];
    assert AfterRuns(next, [second], depth, step) ==
           AfterRuns(AfterRun(next, second, depth, step), [second][1..], depth, step);
  }

  lemma EmptyWindowOverlapsNothing(rows: seq<Window>, first: Window, second: Window)
    requires Exact(rows) && first.first == CursorOf(rows) + 1 && second.first == CursorOf(rows) + 1
    requires first.last < first.first || second.last < second.first
    ensures Disjoint(rows + [first] + [second])
  {
    var all := rows + [first] + [second];
    forall i, j, block | Records(all, i, block) && Records(all, j, block)
      ensures i == j
    {
      if i < |rows| {
        assert Records(rows, i, block) && Covered(rows, block);
      }
      if j < |rows| {
        assert Records(rows, j, block) && Covered(rows, block);
      }
    }
  }

  lemma PickedAfterCursor(rows: seq<Window>, head: int, depth: nat, step: nat)
    requires CursorOf(rows) >= -1 && PickWindow(rows, head, depth, step).Ok?
    ensures var w := PickWindow(rows, head, depth, step).value;
            w.first == CursorOf(rows) + 1 && (w.first <= w.last <==> head - depth > CursorOf(rows))
            && (head - depth <= CursorOf(rows) ==> w.last == head - depth)
  {
    CursorOfAppend(rows, Window(0, 0));
  }

  /** Two runs that both read `rows` before either commits, whatever heads they are told, keep
      the intervals disjoint if and only if one of them has nothing to record. The union has
      no gap unless a first run was told too shallow a head. */
  lemma OverlappingRunsDisjointIff(rows: seq<Window>, head: int, other: int, depth: nat, step: nat)
    requires Exact(rows) && CursorOf(rows) >= -1
    requires PickWindow(rows, head, depth, step).Ok? && PickWindow(rows, other, depth, step).Ok?
    ensures var all := rows + [PickWindow(rows, head, depth, step).value] +
            [PickWindow(rows, other, depth, step).value];
            && (Disjoint(all) <==> head - depth <= CursorOf(rows) || other - depth <= CursorOf(rows))
            && (rows != [] || (head - depth >= -1 && other - depth >= -1) ==> CoversExactly(all))
  {
    var first, second := PickWindow(rows, head, depth, step).value, PickWindow(rows, other, depth, step).value;
    PickedAfterCursor(rows, head, depth, step);
    PickedAfterCursor(rows, other, depth, step);
    hide PickWindow;
    if head - depth <= CursorOf(rows) || other - depth <= CursorOf(rows) {
      EmptyWindowOverlapsNothing(rows, first, second);
    } else {
      assert Records(rows + [first] + [second], |rows|, first.first);
      assert Records(rows + [first] + [second], |rows| + 1, first.first);
    }
    if rows != [] || (head - depth >= -1 && other - depth >= -1) {
      CursorOfAppend(rows, first);
      AppendKeepsCover(rows, first);
      AppendKeepsCover(rows + [first], second);
    }
  }

  /** The cursor is the greatest `to_block`, whatever order the rows are in. */
  lemma {:induction false} LastBlockIsGreatest(rows: seq<Window>) returns (k: nat)
    ensures LastBlock(rows).None? <==> rows == []
    ensures rows != [] ==> k < |rows| && LastBlock(rows) == Some(rows[k].last)
    ensures forall i :: 0 <= i < |rows| ==> rows[i].last <= LastBlock(rows).value
    ensures CursorOf(rows) == if rows == [] then -1 else rows[k].last
  {
    k := 0;
    if rows != [] {
      var init := rows[..|rows| - 1];
      k := LastBlockIsGreatest(init);
      if init == [] || rows[|rows| - 1].last > init[k].last {
        k := |rows| - 1;
      }
      forall i | 0 <= i < |rows|
        ensures rows[i].last <= LastBlock(rows).value
      {
        if i < |init| {
          assert init[i] == rows[i];
        }
      }
    }
  }
}
