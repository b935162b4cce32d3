/** The block windows the crawler asks the node for: the mutable-cursor loop of
    `getEventsPromisesArray` and the `range` helper it maps over. */
module LogWindows {

  datatype Window = Window(first: int, last: int)

  /** `Math.ceil(a / b)` for a positive divisor. */
  function CeilDiv(a: int, b: int): int
    requires b > 0
  {
    -((-a) / b)
  }

  lemma CeilDivBounds(a: int, b: int)
    requires b > 0
    ensures (CeilDiv(a, b) - 1) * b < a <= CeilDiv(a, b) * b
  {
    var q := (-a) / b;
    assert -a == q * b + (-a) % b;
    assert CeilDiv(a, b) * b == -(q * b) by {
      assert (-q) * b == -(q * b);
    }
    assert (CeilDiv(a, b) - 1) * b == CeilDiv(a, b) * b - b;
  }

  /** `range(start, stop, step)`: the numbers from `start` in steps, none beyond `stop`; a
      negative length yields the empty array. */
  function RangeBy(start: int, stop: int, step: nat): (r: seq<int>)
    requires step > 0
    ensures |r| == if start <= stop then (stop - start) / step + 1 else 0
    ensures forall i :: 0 <= i < |r| ==> r[i] == start + i * step
  {
    if start <= stop then seq((stop - start) / step + 1, i => start + i * step) else []
  }

  /** The range holds every number of the progression up to `stop`, and no other. */
  lemma RangeHolds(start: int, stop: int, step: nat, n: int)
    requires step > 0
    ensures n in RangeBy(start, stop, step) <==> start <= n <= stop && (n - start) % step == 0
  {
    var r := RangeBy(start, stop, step);
    if i :| 0 <= i < |r| && r[i] == n {
      var most := (stop - start) / step;
      KeepsBelow(i, most, step);
      assert most * step <= stop - start;
      KeepsBelow(0, i, step);
      MultipleLeavesNothing(i, step);
    }
    if start <= n <= stop && (n - start) % step == 0 {
      var i := (n - start) / step;
      assert n - start == i * step;
      QuotientGrows(n - start, stop - start, step);
      assert r[i] == n;
    }
  }

  lemma MultipleLeavesNothing(i: int, step: nat)
    requires step > 0
    ensures (i * step) % step == 0
  {
    var q, rest := (i * step) / step, (i * step) % step;
    assert i * step == q * step + rest;
    assert (i - q) * step == rest;
    if i > q {
      KeepsBelow(1, i - q, step);
    } else if i < q {
      KeepsBelow(i - q, -1, step);
    }
  }

  lemma QuotientGrows(a: int, b: int, step: nat)
    requires step > 0 && 0 <= a <= b
    ensures 0 <= a / step <= b / step
  {
    if a / step > b / step {
      KeepsBelow(b / step + 1, a / step, step);
    }
  }

  /** `range(start, stop, 1)`. */
  function Range(start: int, stop: int): (r: seq<int>)
    ensures |r| == if start <= stop then stop - start + 1 else 0
    ensures forall i :: 0 <= i < |r| ==> r[i] == start + i
  {
    RangeBy(start, stop, 1)
  }

  /** `windows` are consecutive, non-empty, `step` wide except for a possibly shorter
      last one, and run from `from` to `to`. */
  ghost predicate Tiles(windows: seq<Window>, from: int, to: int, step: int) {
    && |windows| > 0
    && windows[0].first == from
    && windows[|windows| - 1].last == to
    && (forall i :: 0 <= i < |windows| ==> windows[i].first <= windows[i].last < windows[i].first + step)
    && (forall i :: 0 <= i < |windows| - 1 ==>
          && windows[i].last + 1 == windows[i + 1].first
          && windows[i].last - windows[i].first + 1 == step)
  }

  predicate Holds(windows: seq<Window>, i: int, block: int) {
    0 <= i < |windows| && windows[i].first <= block <= windows[i].last
  }

  /** Tiling windows cover exactly [from, to], and each block of it exactly once. */
  lemma {:induction false} TilesCoverOnce(windows: seq<Window>, from: int, to: int, step: int, block: int)
    requires Tiles(windows, from, to, step)
    ensures (exists i :: Holds(windows, i, block)) <==> from <= block <= to
    ensures forall i, j :: Holds(windows, i, block) && Holds(windows, j, block) ==> i == j
    decreases |windows|
  {
    var rest := windows[1..];
    if rest == [] {
      assert from <= block <= to ==> Holds(windows, 0, block);
    } else {
      assert Tiles(rest, rest[0].first, to, step);
      TilesCoverOnce(rest, rest[0].first, to, step, block);
      FromBeforeTo(rest, rest[0].first, to, step);
      assert forall i :: 0 < i ==> (Holds(windows, i, block) <==> Holds(rest, i - 1, block));
      if from <= block <= to {
        if block <= windows[0].last {
          assert Holds(windows, 0, block);
        } else {
          var i :| Holds(rest, i, block);
          assert Holds(windows, i + 1, block);
        }
      }
      if i :| Holds(windows, i, block) {
        if i > 0 {
          assert Holds(rest, i - 1, block);
        }
      }
    }
  }

  lemma {:induction false} FromBeforeTo(windows: seq<Window>, from: int, to: int, step: int)
    requires Tiles(windows, from, to, step)
    ensures from <= to
    decreases |windows|
  {
    if |windows| > 1 {
      FromBeforeTo(windows[1..], windows[1].first, to, step);
    }
  }

  /** Issues one log request per window. The cursor is clamped to `to` after every
      request, yet no request ever starts from a clamped cursor. */
  method EventsPromises(from: int, to: int, step: int) returns (windows: seq<Window>)
    requires step >= 1
    ensures from <= to ==> Tiles(windows, from, to, step)
    ensures to < from && to - from + 1 > -step ==> windows == [Window(from, to)]
    ensures to - from + 1 <= -step ==> windows == []
  {
    var loopCount := CeilDiv(to - (from - 1), step);
    CeilDivBounds(to - (from - 1), step);
    var counters := if loopCount == 0 then [1] else Range(1, loopCount);
    LoopCountSign(to - from + 1, step, loopCount);
    windows := [];
    var firstElement := from;
    for k := 0 to |counters|
      invariant |windows| == k
      invariant k == 0 ==> firstElement == from
      invariant k > 0 && from <= to ==> windows[0].first == from
      invariant from <= to && k < |counters| ==> firstElement == from + k * step
      invariant from <= to ==> forall i :: 0 <= i < k ==>
                  windows[i].first == from + i * step && windows[i].first <= windows[i].last < windows[i].first + step
      invariant from <= to ==> forall i :: 0 <= i < k && i < |counters| - 1 ==>
                  windows[i].last == from + i * step + step - 1
      invariant from <= to && k == |counters| ==> windows[k - 1].last == to
      invariant from > to && k > 0 ==> windows == [Window(from, to)]
    {
      var toNum := if firstElement + step - 1 > to then to else firstElement + step - 1;
      if from <= to {
        assert firstElement == from + k * step;
        if k < |counters| - 1 {
          KeepsBelow(k + 1, loopCount - 1, step);
          assert (k + 1) * step == k * step + step;
        } else {
          assert k == loopCount - 1;
          assert (loopCount - 1) * step + step == loopCount * step;
        }
      }
      windows := windows + [Window(firstElement, toNum)];
      firstElement := if firstElement + step > to then to else firstElement + step;
    }
    if from <= to {
      forall i | 0 <= i < |windows| - 1
        ensures windows[i].last + 1 == windows[i + 1].first
        ensures windows[i].last - windows[i].first + 1 == step
      {
        assert (i + 1) * step == i * step + step;
      }
    }
  }

  lemma LoopCountSign(n: int, step: int, loopCount: int)
    requires step >= 1 && (loopCount - 1) * step < n <= loopCount * step
    ensures n > 0 ==> loopCount >= 1
    ensures -step < n <= 0 ==> loopCount == 0
    ensures n <= -step ==> loopCount < 0
  {
    if loopCount <= -1 {
      KeepsBelow(loopCount, -1, step);
    } else if loopCount >= 1 {
      KeepsBelow(0, loopCount - 1, step);
    }
  }

  lemma KeepsBelow(a: int, b: int, step: int)
    requires step >= 1 && a <= b
    ensures a * step <= b * step
  {
  }
}
