/**
 * The two range splitters of the weather service (`splitTimePeriodByDays`
 * and `splitTimePeriodByMonth` in cmd/weatherservice/main.go). Both walk a
 * cursor forward and append `[from, to)` windows, in epoch milliseconds.
 */
module Periods {
  import opened Calendar

  /** A requested window `[from, to)` in epoch milliseconds (`timePeriod`). */
  datatype TimePeriod = TimePeriod(from: int, to: int)

  function Min(a: int, b: int): int { if a <= b then a else b }

  /** Each window ends where the next one starts. */
  predicate Chained(ws: seq<TimePeriod>) {
    forall i :: 0 <= i < |ws| - 1 ==> ws[i].to == ws[i + 1].from
  }

  /** No window is empty or inverted. */
  predicate AllNonEmpty(ws: seq<TimePeriod>) {
    forall i :: 0 <= i < |ws| ==> ws[i].from < ws[i].to
  }

  /** Every window lies inside `[lo, hi]`. */
  predicate AllWithin(ws: seq<TimePeriod>, lo: int, hi: int) {
    forall i :: 0 <= i < |ws| ==> lo <= ws[i].from && ws[i].to <= hi
  }

  // ---------------------------------------------------------------------
  // splitTimePeriodByDays

  /** The windows the day splitter still has to emit once its cursor is at `current`. */
  function DayWindows(current: int, tsTo: int, intervalMs: int): seq<TimePeriod>
    requires intervalMs > 0
    decreases tsTo - current
  {
    if current < tsTo then
      var periodEnd := Min(current + intervalMs, tsTo);
      [TimePeriod(current, periodEnd)] + DayWindows(periodEnd, tsTo, intervalMs)
    else
      []
  }

  /**
   * Cuts `[tsFrom, tsTo)` into consecutive chunks of `days` days. `days`
   * must be positive, as it is at the only call (30): with zero or fewer
   * days and `tsFrom < tsTo` the source loop never ends (with
   * `tsFrom >= tsTo` it is not entered and no windows are returned).
   */
  method SplitTimePeriodByDays(tsFrom: int, tsTo: int, days: int) returns (periods: seq<TimePeriod>)
    requires days > 0
    ensures periods == DayWindows(tsFrom, tsTo, days * MsPerDay)
  {
    var intervalMs := days * MsPerDay;
    periods := [];
    var current := tsFrom;
    while current < tsTo
      invariant periods + DayWindows(current, tsTo, intervalMs) == DayWindows(tsFrom, tsTo, intervalMs)
      decreases tsTo - current
    {
      var periodEnd := current + intervalMs;
      if periodEnd > tsTo {
        periodEnd := tsTo;
      }
      DayWindowsStep(periods, current, tsTo, intervalMs);
      periods := periods + [TimePeriod(current, periodEnd)];
      current := periodEnd;
    }
  }

  /** One round of the day loop: the window at the cursor moves from the plan still to come to the output. */
  lemma DayWindowsStep(periods: seq<TimePeriod>, current: int, tsTo: int, intervalMs: int)
    requires intervalMs > 0 && current < tsTo
    ensures var periodEnd := Min(current + intervalMs, tsTo);
      periods + DayWindows(current, tsTo, intervalMs)
        == (periods + [TimePeriod(current, periodEnd)]) + DayWindows(periodEnd, tsTo, intervalMs)
  {
  }

  /**
   * `ws` tiles `[lo, hi)` in chunks of at most `intervalMs`: empty exactly
   * when `lo >= hi`, otherwise starting at `lo`, ending at `hi`, each window
   * ending where the next begins, none empty, and all but the last exactly
   * one interval long.
   */
  predicate ChunkTiling(ws: seq<TimePeriod>, lo: int, hi: int, intervalMs: int) {
    && (ws == [] <==> lo >= hi)
    && (ws != [] ==> ws[0].from == lo && ws[|ws| - 1].to == hi)
    && Chained(ws)
    && AllNonEmpty(ws)
    && AllWithin(ws, lo, hi)
    && (forall i :: 0 <= i < |ws| ==> ws[i].to - ws[i].from <= intervalMs)
    && (forall i :: 0 <= i < |ws| - 1 ==> ws[i].to - ws[i].from == intervalMs)
  }

  lemma {:induction false} DayWindowsTile(lo: int, hi: int, intervalMs: int)
    requires intervalMs > 0
    ensures ChunkTiling(DayWindows(lo, hi, intervalMs), lo, hi, intervalMs)
    decreases hi - lo
  {
    if lo < hi {
      var periodEnd := Min(lo + intervalMs, hi);
      DayWindowsTile(periodEnd, hi, intervalMs);
      var rest := DayWindows(periodEnd, hi, intervalMs);
      var ws := DayWindows(lo, hi, intervalMs);
      assert ws == [TimePeriod(lo, periodEnd)] + rest;
      ChunkTilingCons(TimePeriod(lo, periodEnd), rest, hi, intervalMs);
    }
  }

  /** A first chunk `[lo, periodEnd)` in front of a tiling of `[periodEnd, hi)` tiles `[lo, hi)`. */
  lemma ChunkTilingCons(w: TimePeriod, rest: seq<TimePeriod>, hi: int, intervalMs: int)
    requires w.from < w.to && w.to - w.from <= intervalMs && w.to <= hi
    requires ChunkTiling(rest, w.to, hi, intervalMs)
    requires w.to < hi ==> w.to - w.from == intervalMs
    ensures ChunkTiling([w] + rest, w.from, hi, intervalMs)
  {
    var ws := [w] + rest;
    forall i | 1 <= i < |ws|
      ensures ws[i] == rest[i - 1]
    {
    }
    if rest == [] {
      assert w.to == hi;
    }
  }

  // ---------------------------------------------------------------------
  // splitTimePeriodByMonth

  /**
   * The windows the month loop emits once `currentMonth` is month `k`:
   * it runs while the 1st of `k` is before `toTime` (tsTo truncated to whole
   * seconds), clips each window at tsTo, and stops as soon as the next 1st
   * reaches tsTo.
   */
  function MonthWindows(k: int, tsTo: int): seq<TimePeriod>
    decreases UnixSeconds(tsTo) - MonthStart(k)
  {
    if MonthStart(k) < UnixSeconds(tsTo) then
      NextMonthStart(k);
      var w := TimePeriod(MonthStartMs(k), Min(MonthStartMs(k + 1), tsTo));
      [w] + (if MonthStartMs(k + 1) >= tsTo then [] else MonthWindows(k + 1, tsTo))
    else
      []
  }

  /** One turn of the month loop: the window of month `k`, then the rest. */
  lemma MonthWindowsStep(k: int, tsTo: int)
    requires MonthStart(k) < UnixSeconds(tsTo)
    ensures MonthWindows(k, tsTo) ==
      [TimePeriod(MonthStartMs(k), Min(MonthStartMs(k + 1), tsTo))]
      + (if MonthStartMs(k + 1) >= tsTo then [] else MonthWindows(k + 1, tsTo))
  {
  }

  /** Whether `tsFrom` falls on the 1st of its month (`fromTime.Day() > 1` is false). */
  predicate OnFirstDay(tsFrom: int) {
    DayOfMonth(UnixSeconds(tsFrom)) == 1
  }

  /** The whole output of `splitTimePeriodByMonth(tsFrom, tsTo)`. */
  function MonthPlan(tsFrom: int, tsTo: int): seq<TimePeriod> {
    var k := MonthOf(UnixSeconds(tsFrom));
    if !OnFirstDay(tsFrom) then
      [TimePeriod(tsFrom, Min(MonthStartMs(k + 1), tsTo))] + MonthWindows(k + 1, tsTo)
    else
      MonthWindows(k, tsTo)
  }

  method SplitTimePeriodByMonth(tsFrom: int, tsTo: int) returns (periods: seq<TimePeriod>)
    ensures periods == MonthPlan(tsFrom, tsTo)
  {
    ghost var plan := MonthPlan(tsFrom, tsTo);
    periods := [];
    var fromSec := UnixSeconds(tsFrom);
    var toSec := UnixSeconds(tsTo);
    var currentMonth := MonthOf(fromSec);
    if DayOfMonth(fromSec) > 1 {
      var nextMonth := currentMonth + 1;
      var periodEnd := Min(MonthStartMs(nextMonth), tsTo);
      periods := periods + [TimePeriod(tsFrom, periodEnd)];
      currentMonth := nextMonth;
    }
    assert periods + MonthWindows(currentMonth, tsTo) == plan;
    while MonthStart(currentMonth) < toSec
      invariant periods + MonthWindows(currentMonth, tsTo) == plan
      decreases toSec - MonthStart(currentMonth)
    {
      NextMonthStart(currentMonth);
      var nextMonth := currentMonth + 1;
      var periodStart := MonthStartMs(currentMonth);
      var periodEnd := MonthStartMs(nextMonth);
      if periodEnd > tsTo {
        periodEnd := tsTo;
      }
      var w := TimePeriod(periodStart, periodEnd);
      ghost var rest := if MonthStartMs(nextMonth) >= tsTo then [] else MonthWindows(nextMonth, tsTo);
      MonthWindowsStep(currentMonth, tsTo);
      assert periods + ([w] + rest) == (periods + [w]) + rest;
      periods := periods + [w];
      currentMonth := nextMonth;
      if MonthStartMs(currentMonth) >= tsTo {
        assert periods + [] == periods;
        break;
      }
    }
  }

  /** Window `i` of the month loop started at month `k` lies in month `k + i`, from its 1st on. */
  predicate MonthAligned(ws: seq<TimePeriod>, k: int) {
    forall i :: 0 <= i < |ws| ==> ws[i].from == MonthStartMs(k + i) && ws[i].to <= MonthStartMs(k + i + 1)
  }

  /** No window ends after tsTo, and the last one ends within the second of tsTo. */
  predicate EndsBy(ws: seq<TimePeriod>, tsTo: int) {
    && (forall i :: 0 <= i < |ws| ==> ws[i].to <= tsTo)
    && (ws != [] ==> Min(UnixSeconds(tsTo) * 1000, tsTo) <= ws[|ws| - 1].to)
  }

  /**
   * The month loop's windows from month `k` on: chained from the 1st of `k`,
   * none empty, none ending after tsTo, the last ending within the second
   * of tsTo (exactly at tsTo unless tsTo lies less than one second past a
   * month boundary, which `toTime`'s truncation to whole seconds hides),
   * and none at all exactly when the 1st of `k` is not before `toTime`.
   */
  predicate MonthTiling(ws: seq<TimePeriod>, k: int, tsTo: int) {
    && (ws != [] ==> ws[0].from == MonthStartMs(k))
    && Chained(ws)
    && AllNonEmpty(ws)
    && EndsBy(ws, tsTo)
    && (ws == [] <==> UnixSeconds(tsTo) <= MonthStart(k))
  }

  /** A window of month `k` in front of windows aligned from month `k + 1`. */
  lemma MonthAlignedCons(w: TimePeriod, rest: seq<TimePeriod>, k: int)
    requires w.from == MonthStartMs(k) && w.to <= MonthStartMs(k + 1)
    requires MonthAligned(rest, k + 1)
    ensures MonthAligned([w] + rest, k)
  {
    var ws := [w] + rest;
    forall i | 0 <= i < |ws|
      ensures ws[i].from == MonthStartMs(k + i) && ws[i].to <= MonthStartMs(k + i + 1)
    {
      if i > 0 {
        var j := k + i;
        assert ws[i] == rest[i - 1] && k + 1 + (i - 1) == j;
      }
    }
  }

  lemma {:induction false} MonthWindowsAligned(k: int, tsTo: int)
    ensures MonthAligned(MonthWindows(k, tsTo), k)
    decreases UnixSeconds(tsTo) - MonthStart(k)
  {
    if MonthStart(k) < UnixSeconds(tsTo) {
      NextMonthStart(k);
      var ws := MonthWindows(k, tsTo);
      var w := TimePeriod(MonthStartMs(k), Min(MonthStartMs(k + 1), tsTo));
      if MonthStartMs(k + 1) < tsTo {
        MonthWindowsAligned(k + 1, tsTo);
        var rest := MonthWindows(k + 1, tsTo);
        assert ws == [w] + rest;
        MonthAlignedCons(w, rest, k);
      } else {
        assert ws == [w];
      }
    }
  }

  lemma {:induction false} MonthWindowsShape(k: int, tsTo: int)
    ensures MonthTiling(MonthWindows(k, tsTo), k, tsTo)
    decreases UnixSeconds(tsTo) - MonthStart(k)
  {
    var toSec := UnixSeconds(tsTo);
    if MonthStart(k) < toSec {
      NextMonthStart(k);
      var ws := MonthWindows(k, tsTo);
      var w := TimePeriod(MonthStartMs(k), Min(MonthStartMs(k + 1), tsTo));
      if MonthStartMs(k + 1) < tsTo {
        var rest := MonthWindows(k + 1, tsTo);
        assert ws == [w] + rest;
        MonthWindowsShape(k + 1, tsTo);
        if rest == [] {
          assert ws == [w];
        } else {
          PrependTiling(w, rest, tsTo);
        }
      } else {
        assert ws == [w];
      }
    }
  }

  /** A non-empty window ending where a tiling starts extends the tiling. */
  lemma PrependTiling(w: TimePeriod, rest: seq<TimePeriod>, tsTo: int)
    requires rest != [] && w.to == rest[0].from && w.from < w.to
    requires Chained(rest) && AllNonEmpty(rest) && EndsBy(rest, tsTo)
    ensures Chained([w] + rest) && AllNonEmpty([w] + rest) && EndsBy([w] + rest, tsTo)
  {
    var ws := [w] + rest;
    forall i | 1 <= i < |ws|
      ensures ws[i] == rest[i - 1]
    {
    }
  }

  /**
   * When tsFrom is not on the 1st, the first window is
   * `[tsFrom, min(1st of next month, tsTo))`, and it is non-empty whenever
   * tsFrom < tsTo.
   */
  lemma MonthPlanPartialFirstMonth(tsFrom: int, tsTo: int)
    requires !OnFirstDay(tsFrom)
    ensures (var plan := MonthPlan(tsFrom, tsTo);
      var k := MonthOf(UnixSeconds(tsFrom));
      && plan != []
      && plan[0] == TimePeriod(tsFrom, Min(MonthStartMs(k + 1), tsTo))
      && (tsFrom < tsTo ==> plan[0].from < plan[0].to))
  {
  }

  /**
   * When tsFrom is on the 1st, the plan starts at that day's 00:00, which is
   * at or before tsFrom (for timestamps from 1970 on) and less than a day
   * before it.
   */
  lemma MonthPlanStartsAtMidnight(tsFrom: int, tsTo: int)
    requires OnFirstDay(tsFrom)
    requires UnixSeconds(tsFrom) < UnixSeconds(tsTo)
    ensures (var plan := MonthPlan(tsFrom, tsTo);
      && plan != []
      && plan[0].from == MonthStartMs(MonthOf(UnixSeconds(tsFrom)))
      && (0 <= tsFrom ==> tsFrom - MsPerDay < plan[0].from <= tsFrom))
  {
  }

  /** Each window ends no later than the 1st of the month after the one it starts in. */
  predicate WithinMonths(plan: seq<TimePeriod>) {
    forall i :: 0 <= i < |plan| ==> plan[i].to <= MonthStartMs(MonthOf(UnixSeconds(plan[i].from)) + 1)
  }

  /** Every window starts at 00:00 on the 1st of its month. */
  predicate AllStartOnFirst(ws: seq<TimePeriod>) {
    forall i :: 0 <= i < |ws| ==> ws[i].from == MonthStartMs(MonthOf(UnixSeconds(ws[i].from)))
  }

  /** Every window but the first starts at 00:00 on the 1st of its month. */
  predicate LaterStartOnFirst(plan: seq<TimePeriod>) {
    forall i :: 1 <= i < |plan| ==> plan[i].from == MonthStartMs(MonthOf(UnixSeconds(plan[i].from)))
  }

  predicate MonthPlanShaped(plan: seq<TimePeriod>, tsFrom: int, tsTo: int) {
    && Chained(plan)
    && WithinMonths(plan)
    && LaterStartOnFirst(plan)
    && EndsBy(plan, tsTo)
    && (tsFrom < tsTo ==> AllNonEmpty(plan))
  }

  /** The month each loop window starts in is the one the loop meant. */
  lemma MonthWindowsMonthOf(k: int, tsTo: int)
    ensures forall i :: 0 <= i < |MonthWindows(k, tsTo)| ==>
      MonthOf(UnixSeconds(MonthWindows(k, tsTo)[i].from)) == k + i
  {
    var ws := MonthWindows(k, tsTo);
    MonthWindowsAligned(k, tsTo);
    forall i | 0 <= i < |ws|
      ensures MonthOf(UnixSeconds(ws[i].from)) == k + i
    {
      NextMonthStart(k + i);
      assert UnixSeconds(MonthStartMs(k + i)) == MonthStart(k + i);
      MonthUnique(MonthStart(k + i), MonthOf(UnixSeconds(ws[i].from)), k + i);
    }
  }

  /** Windows aligned on months `k`, `k + 1`, ... each lie within the month they start in. */
  lemma AlignedInMonths(ws: seq<TimePeriod>, k: int)
    requires MonthAligned(ws, k)
    requires forall i :: 0 <= i < |ws| ==> MonthOf(UnixSeconds(ws[i].from)) == k + i
    ensures WithinMonths(ws) && AllStartOnFirst(ws)
  {
    forall i | 0 <= i < |ws|
      ensures ws[i].to <= MonthStartMs(MonthOf(UnixSeconds(ws[i].from)) + 1)
      ensures ws[i].from == MonthStartMs(MonthOf(UnixSeconds(ws[i].from)))
    {
      assert MonthOf(UnixSeconds(ws[i].from)) == k + i;
    }
  }

  lemma MonthWindowsInMonths(k: int, tsTo: int)
    ensures WithinMonths(MonthWindows(k, tsTo)) && AllStartOnFirst(MonthWindows(k, tsTo))
  {
    MonthWindowsAligned(k, tsTo);
    MonthWindowsMonthOf(k, tsTo);
    AlignedInMonths(MonthWindows(k, tsTo), k);
  }

  /**
   * Shape of the whole month plan: chained windows, none ending after tsTo,
   * each inside one calendar month, every window after the first starting on
   * the 1st of a month; for tsFrom < tsTo none is empty, and the last ends
   * within the second of tsTo.
   */
  lemma MonthPlanShape(tsFrom: int, tsTo: int)
    ensures MonthPlanShaped(MonthPlan(tsFrom, tsTo), tsFrom, tsTo)
  {
    var k := MonthOf(UnixSeconds(tsFrom));
    var plan := MonthPlan(tsFrom, tsTo);
    if OnFirstDay(tsFrom) {
      assert plan == MonthWindows(k, tsTo);
      assert Chained(plan) && AllNonEmpty(plan) && EndsBy(plan, tsTo) by {
        MonthWindowsShape(k, tsTo);
      }
      MonthWindowsInMonths(k, tsTo);
      assert LaterStartOnFirst(plan);
    } else {
      PartialPlanShape(tsFrom, tsTo);
    }
  }

  lemma PartialPlanShape(tsFrom: int, tsTo: int)
    requires !OnFirstDay(tsFrom)
    ensures MonthPlanShaped(MonthPlan(tsFrom, tsTo), tsFrom, tsTo)
  {
    var k := MonthOf(UnixSeconds(tsFrom));
    var first := TimePeriod(tsFrom, Min(MonthStartMs(k + 1), tsTo));
    var ws := MonthWindows(k + 1, tsTo);
    assert MonthPlan(tsFrom, tsTo) == [first] + ws;
    assert MonthTiling(ws, k + 1, tsTo) by {
      MonthWindowsShape(k + 1, tsTo);
    }
    MonthWindowsInMonths(k + 1, tsTo);
    PrependPartialMonth(first, ws, k, tsTo);
  }

  /** Putting the partial first month, `[tsFrom, min(1st of k + 1, tsTo))`, before the loop's windows. */
  lemma PrependPartialMonth(first: TimePeriod, ws: seq<TimePeriod>, k: int, tsTo: int)
    requires MonthOf(UnixSeconds(first.from)) == k
    requires first.to == Min(MonthStartMs(k + 1), tsTo)
    requires MonthTiling(ws, k + 1, tsTo)
    requires WithinMonths(ws) && AllStartOnFirst(ws)
    ensures MonthPlanShaped([first] + ws, first.from, tsTo)
  {
    PrependChained(first, ws, k, tsTo);
    PrependInMonth(first, ws);
  }

  /** Chaining and the end bound survive putting the partial first month in front. */
  lemma PrependChained(first: TimePeriod, ws: seq<TimePeriod>, k: int, tsTo: int)
    requires MonthOf(UnixSeconds(first.from)) == k
    requires first.to == Min(MonthStartMs(k + 1), tsTo)
    requires MonthTiling(ws, k + 1, tsTo)
    ensures Chained([first] + ws) && EndsBy([first] + ws, tsTo)
    ensures first.from < tsTo ==> AllNonEmpty([first] + ws)
  {
    var plan := [first] + ws;
    NextMonthStart(k);
    forall i | 1 <= i < |plan|
      ensures plan[i] == ws[i - 1]
    {
    }
    if ws == [] {
      assert plan == [first];
    }
  }

  /** Putting a window that lies within its month in front of windows that start on the 1st. */
  lemma PrependInMonth(first: TimePeriod, ws: seq<TimePeriod>)
    requires first.to <= MonthStartMs(MonthOf(UnixSeconds(first.from)) + 1)
    requires WithinMonths(ws) && AllStartOnFirst(ws)
    ensures WithinMonths([first] + ws) && LaterStartOnFirst([first] + ws)
  {
    var plan := [first] + ws;
    assert WithinMonths(plan) by {
      forall i | 0 <= i < |plan|
        ensures plan[i].to <= MonthStartMs(MonthOf(UnixSeconds(plan[i].from)) + 1)
      {
        if i > 0 { assert plan[i] == ws[i - 1]; }
      }
    }
    assert LaterStartOnFirst(plan) by {
      forall i | 1 <= i < |plan|
        ensures plan[i].from == MonthStartMs(MonthOf(UnixSeconds(plan[i].from)))
      {
        assert plan[i] == ws[i - 1];
      }
    }
  }
}
