/**
 * The candle charts of every tracked pair: for each chart interval (hourly,
 * daily, weekly) a fixed-step series of candles, rolled forward with flat
 * candles as time passes, trimmed to the interval's length, and updated in
 * place by every trade fill.
 */
module TradeHistoryChart {
  import opened Wrappers
  import opened DataModels
  import opened Seqs
  import Decimals

  /** ChartInterval: the chart step in seconds and the chart length in steps. */
  datatype ChartInterval = ChartInterval(step: nat, length: nat)

  /** IntervalTypes: one hour over 25 steps, one day over 30, one week over 52. */
  const IntervalTypes: seq<ChartInterval> :=
    [ChartInterval(60 * 60, 25), ChartInterval(60 * 60 * 24, 30), ChartInterval(60 * 60 * 24 * 7, 52)]

  const VolumeFactorInternal: real := 1.00
  const VolumeFactorExternal: real := 0.11

  const TicksPerMinute: int := 60 * TicksPerSecond
  const TicksPerHour: int := 60 * TicksPerMinute
  const TicksPerDay: int := 24 * TicksPerHour

  /** The factor a pair's traded quantities are scaled by on the chart. */
  function VolumeFactor(isInternal: bool): real
  {
    if isInternal then VolumeFactorInternal else VolumeFactorExternal
  }

  /** The step of interval `id`, in ticks. */
  function StepTicks(id: nat): (r: int)
    requires id < |IntervalTypes|
    ensures 0 < r
  {
    IntervalTypes[id].step * TicksPerSecond
  }

  // ---------------------------------------------------------------- time

  /** The calendar unit RoundStartTime truncates to: minute, hour or day. */
  function TruncationUnit(step: int): (u: int)
    ensures 0 < u
  {
    if step <= 60 then TicksPerMinute
    else if step <= 60 * 60 then TicksPerHour
    else TicksPerDay
  }

  /**
   * RoundStartTime: the time with the seconds (step up to a minute), the
   * minutes (step up to an hour) or the time of day (longer steps) dropped.
   */
  function RoundStartTime(time: int, step: int): (r: int)
    ensures r <= time < r + TruncationUnit(step)
    ensures r % TruncationUnit(step) == 0
  {
    if step <= 60 then time - time % TicksPerMinute
    else if step <= 60 * 60 then time - time % TicksPerHour
    else time - time % TicksPerDay
  }

  /** The rounded time is the latest unit boundary not after the input. */
  lemma RoundStartTimeIsLatest(time: int, step: int, boundary: int)
    requires boundary <= time && boundary % TruncationUnit(step) == 0
    ensures boundary <= RoundStartTime(time, step)
  {
    var u := TruncationUnit(step);
    var r := RoundStartTime(time, step);
    var m := boundary / u;
    var n := r / u;
    assert boundary == m * u;
    assert r == n * u;
    assert m * u < (n + 1) * u;
    MultipleOrder(m, n + 1, u);
    assert m <= n;
    MultiplyMonotone(m, n, u);
  }

  lemma MultipleOrder(m: int, n: int, u: int)
    requires 0 < u && m * u < n * u
    ensures m < n
  {
    if n <= m {
      MultiplyMonotone(n, m, u);
    }
  }

  lemma MultiplyMonotone(m: int, n: int, u: int)
    requires 0 < u && m <= n
    ensures m * u <= n * u
  {
    assert n * u - m * u == (n - m) * u;
  }

  /** Rounding a rounded start time changes nothing. */
  lemma RoundStartTimeIdempotent(time: int, step: int)
    ensures RoundStartTime(RoundStartTime(time, step), step) == RoundStartTime(time, step)
  {
  }

  /** The step of every interval is a whole number of its truncation units. */
  lemma StepIsWholeUnits(id: nat)
    requires id < |IntervalTypes|
    ensures StepTicks(id) % TruncationUnit(IntervalTypes[id].step) == 0
    ensures TruncationUnit(IntervalTypes[id].step) <= StepTicks(id)
  {
  }

  // ---------------------------------------------------- interval starts

  /**
   * What ComputeIntervalStarts returns from a first start: at most `length`
   * starts spaced by `st`, at least one when length is positive, every
   * start after the first not after now, and when fewer than length the
   * next start would be after now.
   */
  ghost predicate StartsFrom(starts: seq<int>, first: int, st: int, length: nat, now: int)
  {
    && |starts| <= length
    && (0 < length ==> 0 < |starts|)
    && (forall k :: 0 <= k < |starts| ==> starts[k] == first + k * st)
    && (forall k :: 0 < k < |starts| ==> starts[k] <= now)
    && (|starts| < length ==> now < first + |starts| * st)
  }

  /** The first start: the rounded time Length - 1 steps before timeLast. */
  function FirstStart(timeLast: int, id: nat): int
    requires id < |IntervalTypes|
  {
    var interval := IntervalTypes[id];
    RoundStartTime(timeLast - interval.step * (interval.length - 1) * TicksPerSecond, interval.step)
  }

  /**
   * ComputeIntervalStarts: the starts of the candles a chart is rebuilt
   * from, ending near timeLast (the last saved candle's start, or now).
   */
  method ComputeIntervalStarts(pair: AssetPair, timeLast: int, now: int, id: nat) returns (starts: seq<int>)
    requires id < |IntervalTypes|
    ensures pair.price.None? ==> starts == []
    ensures pair.price.Some? ==> StartsFrom(starts, FirstStart(timeLast, id), StepTicks(id), IntervalTypes[id].length, now)
  {
    starts := [];
    if pair.price.None? {
      return;
    }
    var length := IntervalTypes[id].length;
    var st := StepTicks(id);
    var first := FirstStart(timeLast, id);
    var timeFirst := first;
    var i := 0;
    while i < length
      invariant 0 <= i <= length
      invariant |starts| == i && timeFirst == first + i * st
      invariant forall k :: 0 <= k < i ==> starts[k] == first + k * st
      invariant forall k :: 0 < k < i ==> starts[k] <= now
      invariant 0 < i ==> timeFirst <= now
    {
      starts := starts + [timeFirst];
      timeFirst := timeFirst + st;
      i := i + 1;
      assert timeFirst == first + i * st;
      if now < timeFirst {
        break;
      }
    }
  }

  /** Every start of a chart is a unit boundary, so it is its own rounded start. */
  lemma StartsAligned(starts: seq<int>, timeLast: int, now: int, id: nat, k: nat)
    requires id < |IntervalTypes|
    requires StartsFrom(starts, FirstStart(timeLast, id), StepTicks(id), IntervalTypes[id].length, now)
    requires k < |starts|
    ensures RoundStartTime(starts[k], IntervalTypes[id].step) == starts[k]
  {
    var u := TruncationUnit(IntervalTypes[id].step);
    var first := FirstStart(timeLast, id);
    var st := StepTicks(id);
    StepIsWholeUnits(id);
    var a := first / u;
    var b := st / u;
    assert first == a * u && st == b * u;
    assert starts[k] == first + k * st;
    assert k * st == k * (b * u) == (k * b) * u;
    assert starts[k] == (a + k * b) * u;
    WholeMultiple(a + k * b, u);
  }

  lemma WholeMultiple(n: int, u: int)
    requires 0 < u
    ensures (n * u) % u == 0
  {
    var q := (n * u) / u;
    var r := (n * u) % u;
    assert n * u == q * u + r;
    assert (n - q) * u == r;
    if n - q > 0 {
      MultiplyMonotone(1, n - q, u);
    } else if n - q < 0 {
      MultiplyMonotone(n - q, -1, u);
    }
  }

  // ------------------------------------------------------ tape aggregation

  /** The aggregate a candle is built from: close, low, high and volume. */
  datatype CandleData = CandleData(priceFinish: real, priceLow: real, priceHigh: real, volume: real)

  /** The fills of a tape executed in [timeStart, timeFinish), in tape order. */
  function Window(tape: seq<Fill>, timeStart: int, timeFinish: int): (r: seq<Fill>)
    ensures forall x :: x in r <==> x in tape && timeStart <= x.timeExecuted < timeFinish
  {
    if tape == [] then []
    else
      var rest := Window(tape[1..], timeStart, timeFinish);
      assert forall x :: x in tape <==> x == tape[0] || x in tape[1..];
      if timeStart <= tape[0].timeExecuted < timeFinish then [tape[0]] + rest else rest
  }

  /** The fill OrderByDescending(TimeExecuted).First picks: the first of the latest ones. */
  function LatestIndex(fills: seq<Fill>): (r: nat)
    requires 0 < |fills|
    ensures r < |fills|
    ensures forall k :: 0 <= k < |fills| ==> fills[k].timeExecuted <= fills[r].timeExecuted
    ensures forall k :: 0 <= k < r ==> fills[k].timeExecuted < fills[r].timeExecuted
  {
    if |fills| == 1 then 0
    else
      var j := 1 + LatestIndex(fills[1..]);
      if fills[0].timeExecuted < fills[j].timeExecuted then j else 0
  }

  function MinPrice(fills: seq<Fill>): (r: real)
    requires 0 < |fills|
    ensures exists k :: 0 <= k < |fills| && r == fills[k].price
    ensures forall k :: 0 <= k < |fills| ==> r <= fills[k].price
  {
    if |fills| == 1 then fills[0].price
    else
      var m := MinPrice(fills[1..]);
      assert forall k :: 1 <= k < |fills| ==> fills[k] == fills[1..][k - 1];
      Min(fills[0].price, m)
  }

  function MaxPrice(fills: seq<Fill>): (r: real)
    requires 0 < |fills|
    ensures exists k :: 0 <= k < |fills| && r == fills[k].price
    ensures forall k :: 0 <= k < |fills| ==> fills[k].price <= r
  {
    if |fills| == 1 then fills[0].price
    else
      var m := MaxPrice(fills[1..]);
      assert forall k :: 1 <= k < |fills| ==> fills[k] == fills[1..][k - 1];
      Max(fills[0].price, m)
  }

  function TotalQuantity(fills: seq<Fill>): real
  {
    if fills == [] then 0.0 else fills[0].quantity + TotalQuantity(fills[1..])
  }

  /**
   * ComputeExternalCandle: the aggregate of the pair's tape over
   * [timeStart, timeFinish); none when the pair has no tape, the window is
   * empty, or its low, high or volume is zero.
   */
  function ComputeExternalCandle(tapes: map<string, seq<Fill>>, key: string, timeStart: int, timeFinish: int): Option<CandleData>
  {
    if key !in tapes then None
    else
      var window := Window(tapes[key], timeStart, timeFinish);
      if window == [] then None
      else
        var finish := window[LatestIndex(window)];
        var low := MinPrice(window);
        var high := MaxPrice(window);
        var volume := TotalQuantity(window);
        if low == 0.0 || high == 0.0 || volume == 0.0 then None
        else Some(CandleData(finish.price, low, high, volume))
  }

  /**
   * An external aggregate comes from fills inside the window: its close is
   * the price of a latest fill of the window, and it lies between the low
   * and the high, which are the window's extreme prices.
   */
  lemma ExternalCandleFromWindow(tapes: map<string, seq<Fill>>, key: string, timeStart: int, timeFinish: int)
    requires ComputeExternalCandle(tapes, key, timeStart, timeFinish).Some?
    ensures var d := ComputeExternalCandle(tapes, key, timeStart, timeFinish).value;
      && key in tapes
      && d.priceLow <= d.priceFinish <= d.priceHigh
      && d.priceLow != 0.0 && d.priceHigh != 0.0 && d.volume != 0.0
      && (exists f :: f in tapes[key] && timeStart <= f.timeExecuted < timeFinish && f.price == d.priceFinish
            && forall g :: g in tapes[key] && timeStart <= g.timeExecuted < timeFinish ==> g.timeExecuted <= f.timeExecuted)
      && (forall g :: g in tapes[key] && timeStart <= g.timeExecuted < timeFinish ==> d.priceLow <= g.price <= d.priceHigh)
  {
    var window := Window(tapes[key], timeStart, timeFinish);
    var i := LatestIndex(window);
    var f := window[i];
    assert f in window;
    forall g | g in tapes[key] && timeStart <= g.timeExecuted < timeFinish
      ensures g.timeExecuted <= f.timeExecuted && MinPrice(window) <= g.price <= MaxPrice(window)
    {
      assert g in window;
      var k :| 0 <= k < |window| && window[k] == g;
    }
  }

  /**
   * ComputeCandle: a candle opening at the previous close; flat at that
   * price with no volume when the period had no trades, otherwise closing,
   * low and high as the aggregate says, its volume scaled for the pair.
   */
  function ComputeCandle(data: Option<CandleData>, timeStart: int, timeFinish: int, previousPrice: real, isInternal: bool): (r: Candle)
    ensures r.timeStart == timeStart && r.timeFinish == timeFinish
    ensures r.priceStart == previousPrice && !r.isUpdated
  {
    match data
    case None => Candle(timeStart, timeFinish, previousPrice, previousPrice, previousPrice, previousPrice, 0.0, false)
    case Some(d) =>
      Candle(timeStart, timeFinish, previousPrice, d.priceFinish, d.priceHigh, d.priceLow, d.volume * VolumeFactor(isInternal), false)
  }

  /** A candle computed from an external pair's tape brackets its close by its low and high. */
  lemma ExternalCandleBrackets(tapes: map<string, seq<Fill>>, key: string, timeStart: int, timeFinish: int, previousPrice: real)
    ensures var c := ComputeCandle(ComputeExternalCandle(tapes, key, timeStart, timeFinish), timeStart, timeFinish, previousPrice, false);
      c.priceLow <= c.priceFinish <= c.priceHigh
  {
    if ComputeExternalCandle(tapes, key, timeStart, timeFinish).Some? {
      ExternalCandleFromWindow(tapes, key, timeStart, timeFinish);
    }
  }

  // ------------------------------------------------------- candle series

  function LastCandle(candles: seq<Candle>): Candle
    requires 0 < |candles|
  {
    candles[|candles| - 1]
  }

  /** A flagged candle flat at price p with no volume, one step long. */
  function Flat(start: int, st: int, p: real): Candle
  {
    Candle(start, start + st, p, p, p, p, 0.0, true)
  }

  /** The flat candles UpdateChandles appends from `start` until one ends at or after now. */
  function Flats(start: int, st: int, p: real, now: int): seq<Candle>
    requires 0 < st
    decreases now - start
  {
    if now <= start then [] else [Flat(start, st, p)] + Flats(start + st, st, p, now)
  }

  /**
   * The appended candles are contiguous: the first starts at `start`, each
   * starts where the previous one ends and spans one step, each is flat at
   * p with no volume and flagged, each starts before now, and the last one
   * ends at or after now; there are none exactly when start is not before now.
   */
  lemma {:induction false} FlatsShape(start: int, st: int, p: real, now: int)
    requires 0 < st
    ensures var r := Flats(start, st, p, now);
      && (0 < |r| <==> start < now)
      && (0 < |r| ==> r[0].timeStart == start && now <= r[|r| - 1].timeFinish)
      && (forall k :: 0 <= k < |r| ==> r[k] == Flat(r[k].timeStart, st, p) && r[k].timeStart < now)
      && (forall k :: 0 <= k < |r| - 1 ==> r[k + 1].timeStart == r[k].timeFinish)
    decreases now - start
  {
    if start < now {
      FlatsShape(start + st, st, p, now);
      var r := Flats(start, st, p, now);
      var rest := Flats(start + st, st, p, now);
      assert r == [Flat(start, st, p)] + rest;
      assert forall k :: 1 <= k < |r| ==> r[k] == rest[k - 1];
    }
  }

  /** RemoveRange(0, count - length) when the series is longer than length. */
  function Trimmed(candles: seq<Candle>, length: nat): (r: seq<Candle>)
    ensures |r| == if |candles| <= length then |candles| else length
    ensures r == candles[|candles| - |r|..]
  {
    if length < |candles| then candles[|candles| - length..] else candles
  }

  /** The series with the flat candles up to now appended. */
  function Extended(candles: seq<Candle>, id: nat, now: int): seq<Candle>
    requires 0 < |candles| && id < |IntervalTypes|
  {
    var last := LastCandle(candles);
    candles + Flats(last.timeFinish, StepTicks(id), last.priceFinish, now)
  }

  /** UpdateChandles: extend the series up to now, then keep its newest `length` candles. */
  function Rolled(candles: seq<Candle>, id: nat, now: int): seq<Candle>
    requires 0 < |candles| && id < |IntervalTypes|
  {
    Trimmed(Extended(candles, id, now), IntervalTypes[id].length)
  }

  /**
   * After a roll the series holds at most `length` candles, only the oldest
   * candles of the extended series are gone, the original candles that stay
   * are unchanged, and the newest candle ends at or after now.
   */
  lemma RolledShape(candles: seq<Candle>, id: nat, now: int)
    requires 0 < |candles| && id < |IntervalTypes|
    ensures var e := Extended(candles, id, now);
      var r := Rolled(candles, id, now);
      && |r| <= IntervalTypes[id].length
      && r == e[|e| - |r|..]
      && 0 < |r| && LastCandle(r) == LastCandle(e)
      && now <= LastCandle(r).timeFinish
      && LastCandle(candles).timeFinish <= LastCandle(r).timeFinish
  {
    var last := LastCandle(candles);
    FlatsShape(last.timeFinish, StepTicks(id), last.priceFinish, now);
  }

  /** The candle a fold updates: the newest one that starts before the fill. */
  function LastBefore(candles: seq<Candle>, time: int): (r: Option<nat>)
    ensures r.Some? ==> r.value < |candles| && candles[r.value].timeStart < time
    ensures r.Some? ==> forall k :: r.value < k < |candles| ==> time <= candles[k].timeStart
    ensures r.None? ==> forall k :: 0 <= k < |candles| ==> time <= candles[k].timeStart
  {
    if candles == [] then None
    else if LastCandle(candles).timeStart < time then Some(|candles| - 1)
    else LastBefore(candles[..|candles| - 1], time)
  }

  /**
   * One fill folded into a candle: the volume grows by the quantity, the
   * close becomes the price, the low and high widen to it, and the flag
   * says whether any of that changed something.
   */
  function FoldInto(c: Candle, price: real, quantity: real): Candle
  {
    c.(volume := c.volume + quantity,
       priceFinish := price,
       priceLow := if price < c.priceLow then price else c.priceLow,
       priceHigh := if price > c.priceHigh then price else c.priceHigh,
       isUpdated := quantity != 0.0 || c.priceFinish != price || price < c.priceLow || price > c.priceHigh)
  }

  /**
   * The folded candle closes at the price between its low and high, keeps
   * its times and open, and is flagged exactly when a field changed, so a
   * fill that changes nothing clears a pending flag.
   */
  lemma FoldIntoEffect(c: Candle, price: real, quantity: real)
    ensures var r := FoldInto(c, price, quantity);
      && r.priceLow <= r.priceFinish == price <= r.priceHigh
      && r.priceLow <= c.priceLow && c.priceHigh <= r.priceHigh
      && r.timeStart == c.timeStart && r.timeFinish == c.timeFinish && r.priceStart == c.priceStart
      && (r.isUpdated <==> r.(isUpdated := c.isUpdated) != c)
  {
    var r := FoldInto(c, price, quantity);
    if r.(isUpdated := c.isUpdated) == c {
      assert r.volume == c.volume && r.priceFinish == c.priceFinish;
      assert r.priceLow == c.priceLow && r.priceHigh == c.priceHigh;
    }
  }

  /** The series after a fold: only the newest candle starting before the fill changes. */
  function Folded(candles: seq<Candle>, price: real, quantity: real, time: int): seq<Candle>
  {
    match LastBefore(candles, time)
    case None => candles
    case Some(i) => candles[i := FoldInto(candles[i], price, quantity)]
  }

  /** The candle the first fill of an empty series creates. */
  function FirstCandle(id: nat, price: real, quantity: real, time: int): Candle
    requires id < |IntervalTypes|
  {
    var start := RoundStartTime(time, IntervalTypes[id].step);
    Candle(start, start + StepTicks(id), price, price, price, price, quantity, true)
  }

  function Seeded(candles: seq<Candle>, id: nat, price: real, quantity: real, time: int): (r: seq<Candle>)
    requires id < |IntervalTypes|
    ensures 0 < |r|
  {
    if candles == [] then [FirstCandle(id, price, quantity, time)] else candles
  }

  /** UpdateInterval: seed an empty series, roll it when the fill is past its end, fold the fill. */
  function Updated(candles: seq<Candle>, id: nat, price: real, quantity: real, time: int, now: int): seq<Candle>
    requires id < |IntervalTypes|
  {
    var s := Seeded(candles, id, price, quantity, time);
    var t := if LastCandle(s).timeFinish <= time then Rolled(s, id, now) else s;
    Folded(t, price, quantity, time)
  }

  /**
   * The first fill of an empty series makes one candle at the rounded fill
   * time; a fill after that start is then folded into it again, so its
   * volume counts the quantity twice and its flag is whether the quantity is
   * nonzero.
   */
  lemma FirstFillDoubleCounts(id: nat, price: real, quantity: real, time: int, now: int)
    requires id < |IntervalTypes|
    ensures var r := Updated([], id, price, quantity, time, now);
      var start := RoundStartTime(time, IntervalTypes[id].step);
      && |r| == 1
      && r[0].timeStart == start && r[0].timeFinish == start + StepTicks(id)
      && r[0].priceStart == price && r[0].priceFinish == price && r[0].priceLow == price && r[0].priceHigh == price
      && (start < time ==> r[0].volume == quantity + quantity && r[0].isUpdated == (quantity != 0.0))
      && (start == time ==> r[0].volume == quantity && r[0].isUpdated)
  {
    StepIsWholeUnits(id);
    var c := FirstCandle(id, price, quantity, time);
    assert time < c.timeFinish;
  }

  function ClearCandleFlags(candles: seq<Candle>): (r: seq<Candle>)
    ensures |r| == |candles|
    ensures forall k :: 0 <= k < |candles| ==> r[k] == candles[k].(isUpdated := false)
  {
    seq(|candles|, k requires 0 <= k < |candles| => candles[k].(isUpdated := false))
  }

  predicate IsUpdatedCandle(c: Candle)
  {
    c.isUpdated
  }

  /** What GetUpdatedCandles hands out: the flagged candles in order, flags cleared by the save. */
  function HarvestCandles(candles: seq<Candle>): seq<Candle>
  {
    ClearCandleFlags(Filter(IsUpdatedCandle, candles))
  }

  /** The series GetUpdatedCandles works on: rolled when its newest candle has ended. */
  function Current(candles: seq<Candle>, id: nat, now: int): seq<Candle>
    requires 0 < |candles| && id < |IntervalTypes|
  {
    if LastCandle(candles).timeFinish <= now then Rolled(candles, id, now) else candles
  }

  /**
   * A harvest hands out exactly the flagged candles; a second harvest at
   * the same time leaves the series as it is and hands out nothing.
   */
  lemma {:induction false} CandleHarvestTwice(candles: seq<Candle>, id: nat, now: int)
    requires 0 < |candles| && id < |IntervalTypes|
    ensures var cur := Current(candles, id, now);
      var stored := ClearCandleFlags(cur);
      && (forall x :: x in Filter(IsUpdatedCandle, cur) <==> x in cur && x.isUpdated)
      && 0 < |stored|
      && Current(stored, id, now) == stored
      && HarvestCandles(stored) == []
  {
    var cur := Current(candles, id, now);
    var stored := ClearCandleFlags(cur);
    if LastCandle(candles).timeFinish <= now {
      RolledShape(candles, id, now);
      assert |cur| <= IntervalTypes[id].length;
    }
    assert 0 < |stored|;
    var last := LastCandle(stored);
    if last.timeFinish <= now {
      assert LastCandle(candles).timeFinish <= now;
      RolledShape(candles, id, now);
      assert last.timeFinish == now;
      assert Flats(last.timeFinish, StepTicks(id), last.priceFinish, now) == [];
      assert Extended(stored, id, now) == stored;
    }
    FilterDropsAll(IsUpdatedCandle, stored);
  }

  // ------------------------------------------------- imperative updates

  /** UpdateChandles' loop: append flat candles until the newest one ends at now or later, then trim. */
  method RollForward(candles: seq<Candle>, id: nat, now: int) returns (r: seq<Candle>)
    requires 0 < |candles| && id < |IntervalTypes|
    ensures r == Rolled(candles, id, now)
  {
    var st := StepTicks(id);
    var last := candles[|candles| - 1];
    var timeStart := last.timeFinish;
    r := candles;
    while timeStart < now
      invariant r + Flats(timeStart, st, last.priceFinish, now) == Extended(candles, id, now)
      decreases now - timeStart
    {
      var timeFinish := timeStart + st;
      assert Flats(timeStart, st, last.priceFinish, now)
          == [Flat(timeStart, st, last.priceFinish)] + Flats(timeFinish, st, last.priceFinish, now);
      r := r + [Candle(timeStart, timeFinish, last.priceFinish, last.priceFinish, last.priceFinish, last.priceFinish, 0.0, true)];
      timeStart := timeFinish;
    }
    assert r == Extended(candles, id, now);
    var removeCount := |r| - IntervalTypes[id].length;
    if 0 < removeCount {
      r := r[removeCount..];
    }
  }

  /** UpdateInterval's scan from the newest candle to the oldest. */
  method FoldFill(candles: seq<Candle>, price: real, quantity: real, time: int) returns (r: seq<Candle>)
    ensures r == Folded(candles, price, quantity, time)
  {
    r := candles;
    var i := |candles| - 1;
    while i >= 0
      invariant -1 <= i < |candles|
      invariant LastBefore(candles, time) == LastBefore(candles[..i + 1], time)
    {
      assert candles[..i + 1][..i] == candles[..i];
      if candles[i].timeStart < time {
        var c := candles[i];
        var isUpdated := false;
        if quantity != 0.0 {
          c := c.(volume := c.volume + quantity);
          isUpdated := true;
        }
        if c.priceFinish != price {
          c := c.(priceFinish := price);
          isUpdated := true;
        }
        if price < c.priceLow {
          c := c.(priceLow := price);
          isUpdated := true;
        }
        if price > c.priceHigh {
          c := c.(priceHigh := price);
          isUpdated := true;
        }
        c := c.(isUpdated := isUpdated);
        r := candles[i := c];
        return;
      }
      i := i - 1;
    }
    assert candles[..0] == [];
  }

  /** UpdateInterval on one series. */
  method UpdateSeries(candles: seq<Candle>, id: nat, price: real, quantity: real, time: int, now: int) returns (r: seq<Candle>)
    requires id < |IntervalTypes|
    ensures r == Updated(candles, id, price, quantity, time, now)
  {
    var s := candles;
    if |s| == 0 {
      var start := RoundStartTime(time, IntervalTypes[id].step);
      s := [Candle(start, start + StepTicks(id), price, price, price, price, quantity, true)];
    }
    if s[|s| - 1].timeFinish <= time {
      s := RollForward(s, id, now);
    }
    r := FoldFill(s, price, quantity, time);
  }

  /** AddTradeFill's effect on the whole chart data: every interval tracking the pair is updated. */
  function AfterFill(data: seq<map<string, seq<Candle>>>, key: string, price: real, quantity: real, time: int, now: int): (r: seq<map<string, seq<Candle>>>)
    requires |data| == |IntervalTypes|
    ensures |r| == |data|
    ensures forall i :: 0 <= i < |data| ==> r[i].Keys == data[i].Keys
    ensures forall i, other :: 0 <= i < |data| && other in data[i] && other != key ==> r[i][other] == data[i][other]
  {
    seq(|data|, i requires 0 <= i < |data| =>
      if key in data[i] then data[i][key := Updated(data[i][key], i, price, quantity, time, now)] else data[i])
  }

  /**
   * GetUpdatedCandles on initialised chart data: the flagged candles of the
   * current series, and the data with that series stored unflagged; an
   * unknown interval or pair, or an empty series, throws and changes nothing.
   */
  function HarvestOf(data: seq<map<string, seq<Candle>>>, key: string, id: nat, now: int): (r: (Result<seq<Candle>>, seq<map<string, seq<Candle>>>))
    requires |data| == |IntervalTypes|
    ensures r.0.Failure? <==> id >= |IntervalTypes| || key !in data[id] || data[id][key] == []
    ensures r.0.Failure? ==> r.1 == data
  {
    if id >= |data| || key !in data[id] || data[id][key] == [] then
      (Failure("The interval, the pair or its candles are missing."), data)
    else
      var cur := Current(data[id][key], id, now);
      (Success(HarvestCandles(cur)), data[id := data[id][key := ClearCandleFlags(cur)]])
  }

  class TradeHistoryChart {
    /** Initialize has run. */
    var initialized: bool
    /** IntervalData: per interval type, the candle series of every tracked pair. */
    var intervalData: seq<map<string, seq<Candle>>>

    ghost predicate Valid()
      reads this
    {
      |intervalData| == |IntervalTypes|
    }

    constructor ()
      ensures Valid() && !initialized
      ensures forall i :: 0 <= i < |intervalData| ==> intervalData[i] == map[]
    {
      initialized := false;
      intervalData := [map[], map[], map[]];
    }

    /** Initialize: install the series rebuilt from the database, one map per interval type. */
    method Initialize(loaded: seq<map<string, seq<Candle>>>)
      requires |loaded| == |IntervalTypes|
      modifies this
      ensures Valid() && initialized && intervalData == loaded
    {
      intervalData := loaded;
      initialized := true;
    }

    /**
     * AddTradeFill: scale the quantity for the pair, round the price to the
     * quote decimals, and update every interval that tracks the pair;
     * nothing happens before Initialize.
     */
    method AddTradeFill(pair: AssetPair, price: real, quantity: real, timeExecuted: int, now: int)
      requires Valid()
      modifies this
      ensures Valid() && initialized == old(initialized)
      ensures !old(initialized) ==> intervalData == old(intervalData)
      ensures old(initialized) ==> intervalData == AfterFill(old(intervalData), PairString(pair),
        Decimals.Round(price, pair.decimals), quantity * VolumeFactor(pair.isInternal), timeExecuted, now)
    {
      if !initialized {
        return;
      }
      var q := quantity * VolumeFactor(pair.isInternal);
      var key := PairString(pair);
      var p := Decimals.Round(price, pair.decimals);
      ghost var goal := AfterFill(intervalData, key, p, q, timeExecuted, now);
      var i := 0;
      while i < |intervalData|
        invariant Valid() && 0 <= i <= |intervalData| && initialized
        invariant forall j :: 0 <= j < i ==> intervalData[j] == goal[j]
        invariant forall j :: i <= j < |intervalData| ==> intervalData[j] == old(intervalData)[j]
      {
        if key in intervalData[i] {
          var series := UpdateSeries(intervalData[i][key], i, p, q, timeExecuted, now);
          intervalData := intervalData[i := intervalData[i][key := series]];
        }
        i := i + 1;
      }
      assert intervalData == goal;
    }

    /**
     * GetUpdatedCandles: roll the series when its newest candle has ended,
     * hand out the flagged candles and clear their flags; before Initialize
     * the answer is empty, and an unknown interval or pair, or an empty
     * series, throws.
     */
    method GetUpdatedCandles(pair: AssetPair, id: nat, now: int) returns (result: Result<seq<Candle>>)
      requires Valid()
      modifies this
      ensures Valid() && initialized == old(initialized)
      ensures !old(initialized) ==> result == Success([]) && intervalData == old(intervalData)
      ensures old(initialized) ==> (result, intervalData) == HarvestOf(old(intervalData), PairString(pair), id, now)
    {
      if !initialized {
        return Success([]);
      }
      var key := PairString(pair);
      if id >= |intervalData| || key !in intervalData[id] || |intervalData[id][key]| == 0 {
        return Failure("The interval, the pair or its candles are missing.");
      }
      ghost var goal := HarvestOf(intervalData, key, id, now);
      var series := intervalData[id][key];
      if series[|series| - 1].timeFinish <= now {
        series := RollForward(series, id, now);
      }
      assert series == Current(intervalData[id][key], id, now);
      result := Success(ClearCandleFlags(Filter(IsUpdatedCandle, series)));
      intervalData := intervalData[id := intervalData[id][key := ClearCandleFlags(series)]];
      assert (result, intervalData) == goal;
    }
  }
}
