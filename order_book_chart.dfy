/**
 * The order book chart of one asset pair: up to COLUMN_NUMBER display
 * buckets per side, fed by the depth changes of the order book.  A depth
 * change is added to the bucket that holds its price, or a new bucket is
 * placed at one end; the chart is then balanced: the shown window slides to
 * +/-10% around the mid price, and when the two sides cross the first
 * bucket of each side is split.  The depth book is passed in as a value:
 * the chart only queries its range sums.
 */
module OrderBookChart {
  import opened Wrappers
  import opened DataModels
  import opened Decimals
  import opened Seqs
  import opened ChartColumns
  import D = OrderBookDepth

  /** RANGE_LIMIT: the shown window is the mid price plus or minus 10%. */
  const RangeLimit: real := 0.1
  /** RANGE_LIMIT_CHANGE: the window moves only when an end moves by more than 1%. */
  const RangeLimitChange: real := 0.01
  /** The pair limits before the first adjustment. */
  const DefaultLimitStart: real := 0.0
  const DefaultLimitFinish: real := 1000000000.0

  /** The two sides of the depth book of the pair. */
  datatype Depth = Depth(bids: seq<Level>, asks: seq<Level>)

  function DepthSide(depth: Depth, isBuy: bool): seq<Level>
  {
    if isBuy then depth.bids else depth.asks
  }

  /** The chart of one pair: both sides and the pair limits a price must lie strictly inside. */
  datatype ChartState = ChartState(bids: Side, asks: Side, limitStart: real, limitFinish: real)

  function SideOf(st: ChartState, isBuy: bool): Side
  {
    if isBuy then st.bids else st.asks
  }

  function WithSide(st: ChartState, isBuy: bool, s: Side): (r: ChartState)
    ensures SideOf(r, isBuy) == s && SideOf(r, !isBuy) == SideOf(st, !isBuy)
    ensures r.limitStart == st.limitStart && r.limitFinish == st.limitFinish
  {
    if isBuy then st.(bids := s) else st.(asks := s)
  }

  /** Both sides keep the structural invariant of IntegrityCheck. */
  predicate Chained(st: ChartState)
  {
    Chain(st.bids.columns, true) && Chain(st.asks.columns, false)
  }

  /**
   * The result of an operation that may throw: the state reached when it
   * stopped (a throw leaves the changes made so far in place) and whether
   * it threw.
   */
  datatype Outcome = Outcome(state: ChartState, raised: bool)
  datatype SideOutcome = SideOutcome(side: Side, raised: bool)

  /**
   * GetShowStartFinishPriceColumns: the window 10% below and above the
   * mid of the two first bucket starts, rounded to d decimals.
   */
  function ShowRange(bidStart: real, askStart: real, d: nat): (r: (real, real))
    ensures OnGrid(r.0, d) && OnGrid(r.1, d)
    ensures Abs(r.0 - (bidStart + askStart) / 2.0 * (1.0 - RangeLimit)) <= Unit(d) / 2.0
    ensures Abs(r.1 - (bidStart + askStart) / 2.0 * (1.0 + RangeLimit)) <= Unit(d) / 2.0
  {
    var price := (bidStart + askStart) / 2.0;
    RoundIsOnGrid(price * (1.0 - RangeLimit), d);
    RoundIsOnGrid(price * (1.0 + RangeLimit), d);
    RoundIsNearest(price * (1.0 - RangeLimit), d);
    RoundIsNearest(price * (1.0 + RangeLimit), d);
    (Round(price * (1.0 - RangeLimit), d), Round(price * (1.0 + RangeLimit), d))
  }

  /** GetDepthSpread: best ask minus best bid of the depth book, 0 when either is missing or empty. */
  function DepthSpread(depth: Depth): (r: real)
    ensures depth.asks == [] || depth.bids == [] ==> r == 0.0
    ensures r != 0.0 ==>
      (depth.asks != [] && depth.bids != [] && depth.bids[0].quantity != 0.0 && depth.asks[0].quantity != 0.0
       && r == depth.asks[0].price - depth.bids[0].price)
  {
    if depth.asks == [] || depth.bids == [] || depth.bids[0].quantity == 0.0 || depth.asks[0].quantity == 0.0 then 0.0
    else depth.asks[0].price - depth.bids[0].price
  }

  /**
   * On a book in order (bids falling, asks rising) whose best levels are both live, the spread
   * is the smallest gap between any ask and any bid, and it is positive when the book does not cross.
   */
  lemma DepthSpreadLeast(depth: Depth)
    requires D.Sorted(depth.bids, true) && D.Sorted(depth.asks, false)
    requires depth.bids != [] && depth.asks != []
    requires depth.bids[0].quantity != 0.0 && depth.asks[0].quantity != 0.0
    ensures forall j, k :: 0 <= j < |depth.bids| && 0 <= k < |depth.asks| ==>
      DepthSpread(depth) <= depth.asks[k].price - depth.bids[j].price
    ensures depth.bids[0].price < depth.asks[0].price ==> DepthSpread(depth) > 0.0
  {
    forall j, k | 0 <= j < |depth.bids| && 0 <= k < |depth.asks|
      ensures DepthSpread(depth) <= depth.asks[k].price - depth.bids[j].price
    {
      if j > 0 { assert D.Compare(true, depth.bids[0].price, depth.bids[j].price); }
      if k > 0 { assert D.Compare(false, depth.asks[0].price, depth.asks[k].price); }
    }
  }

  /** The bucket starts outside the window: a bid below its start, an ask above its finish. */
  predicate Beyond(c: Column, isBuy: bool, limit: real)
  {
    if isBuy then c.priceStart < limit else limit < c.priceStart
  }

  /** Removed buckets as they reach the removed list: zeroed and unflagged, the last one first. */
  function Dropped(columns: seq<Column>): (r: seq<Column>)
    ensures |r| == |columns|
  {
    if columns == [] then []
    else Dropped(columns[1..]) + [columns[0].(quantity := 0.0, isUpdated := false)]
  }

  /** Removing the last bucket never stitches: the other buckets stay as they are. */
  lemma RemoveLast(s: Side, d: nat)
    requires s.columns != []
    ensures RemoveAt(s, |s.columns| - 1, d)
      == Side(s.columns[..|s.columns| - 1], s.removed + [s.columns[|s.columns| - 1].(quantity := 0.0, isUpdated := false)])
  {
  }

  /** One turn of the removal loop: removing the last kept bucket moves it to the removed list. */
  lemma DropStep(cols: seq<Column>, removed: seq<Column>, n: nat, depth: seq<Level>, isBuy: bool, d: nat)
    requires 0 < n <= |cols|
    ensures RemoveColumnSpec(Side(cols[..n], removed + Dropped(cols[n..])), depth, isBuy, n - 1, false, d)
      == Side(cols[..n - 1], removed + Dropped(cols[n - 1..]))
  {
    var s := Side(cols[..n], removed + Dropped(cols[n..]));
    RemoveLast(s, d);
    assert cols[..n][..n - 1] == cols[..n - 1];
    assert cols[n - 1..][1..] == cols[n..];
  }

  /**
   * How many buckets the removal loop of AdjustPairRangeLimit keeps: it
   * drops the last bucket while that one lies beyond the window, so every
   * dropped bucket is beyond it and the kept last one is not.
   */
  function KeepCount(columns: seq<Column>, isBuy: bool, limit: real): (n: nat)
    ensures n <= |columns|
    ensures forall k :: n <= k < |columns| ==> Beyond(columns[k], isBuy, limit)
    ensures 0 < n ==> !Beyond(columns[n - 1], isBuy, limit)
  {
    if columns == [] then 0
    else if Beyond(columns[|columns| - 1], isBuy, limit) then KeepCount(columns[..|columns| - 1], isBuy, limit)
    else |columns|
  }

  /** The stopping point of that loop is the only one with those properties. */
  lemma {:induction false} KeepCountExact(columns: seq<Column>, isBuy: bool, limit: real, m: nat)
    requires m <= |columns|
    requires forall k :: m <= k < |columns| ==> Beyond(columns[k], isBuy, limit)
    requires m == 0 || !Beyond(columns[m - 1], isBuy, limit)
    ensures KeepCount(columns, isBuy, limit) == m
  {
    if m < |columns| {
      var init := columns[..|columns| - 1];
      assert forall k :: m <= k < |init| ==> init[k] == columns[k];
      KeepCountExact(init, isBuy, limit, m);
    }
  }

  /**
   * The removal loop: the kept prefix, with the dropped buckets moved to
   * the removed list.  Once the side is empty the loop condition indexes an
   * empty list, which throws.
   */
  function DropTail(s: Side, isBuy: bool, limit: real): (r: SideOutcome)
    ensures r.raised <==> r.side.columns == []
  {
    var n := KeepCount(s.columns, isBuy, limit);
    SideOutcome(Side(s.columns[..n], s.removed + Dropped(s.columns[n..])), n == 0)
  }

  /**
   * The bucket AdjustPairRangeLimit appends after the last one, up to the
   * window limit, when the depth holds something in between.
   */
  function Remainder(s: Side, depthSide: seq<Level>, isBuy: bool, limit: real): (r: Side)
    requires s.columns != []
    ensures r.removed == s.removed
    ensures r.columns == s.columns || (|r.columns| == |s.columns| + 1 && r.columns[..|s.columns|] == s.columns)
  {
    var last := s.columns[|s.columns| - 1];
    var quantity := D.RangeSum(depthSide, isBuy, last.priceFinish, limit);
    if 0.0 < quantity then s.(columns := s.columns + [Column(last.priceFinish, limit, quantity, true)]) else s
  }

  /**
   * The appended bucket reaches the window limit and holds exactly the
   * depth between the old last bucket and the limit; it extends the chain.
   */
  lemma RemainderChain(s: Side, depthSide: seq<Level>, isBuy: bool, limit: real)
    requires s.columns != [] && Chain(s.columns, isBuy)
    ensures var r := Remainder(s, depthSide, isBuy, limit);
      var last := s.columns[|s.columns| - 1];
      Chain(r.columns, isBuy)
      && (r.columns != s.columns ==>
            r.columns[|s.columns|] == Column(last.priceFinish, limit, D.RangeSum(depthSide, isBuy, last.priceFinish, limit), true)
            && 0.0 < D.RangeSum(depthSide, isBuy, last.priceFinish, limit))
  {
    var last := s.columns[|s.columns| - 1];
    var quantity := D.RangeSum(depthSide, isBuy, last.priceFinish, limit);
    if 0.0 < quantity {
      NonZeroRangeIsProper(depthSide, isBuy, last.priceFinish, limit);
      PlacedChain(s.columns, Column(last.priceFinish, limit, quantity, true), isBuy, true);
    }
  }

  /**
   * The bid remainder as OrderBookChart.cs writes it: the range arguments
   * of the depth sum are swapped, so it sums the bids in (lastFinish, limit],
   * which is empty whenever the window start lies below the last bucket and
   * holds bids of the last bucket itself when that bucket straddles it.
   */
  function BidRemainderAsWritten(s: Side, depthSide: seq<Level>, limit: real): Side
    requires s.columns != []
  {
    var last := s.columns[|s.columns| - 1];
    var quantity := D.RangeSum(depthSide, true, limit, last.priceFinish);
    if 0.0 < quantity then s.(columns := s.columns + [Column(last.priceFinish, limit, quantity, true)]) else s
  }

  /**
   * A last bid bucket (101, 99] that straddles the new window start 100 and
   * holds a bid at 99.5: as written, an inverted bucket (99, 100] is
   * appended and the chain breaks; the corrected sum appends nothing.
   */
  lemma BidRemainderInverts()
    ensures var s := Side([Column(101.0, 99.0, 5.0, false)], []);
      var depth := [Level(99.5, 5.0, false, 0)];
      Chain(s.columns, true)
      && !DropTail(s, true, 100.0).raised && DropTail(s, true, 100.0).side == s
      && BidRemainderAsWritten(s, depth, 100.0).columns == s.columns + [Column(99.0, 100.0, 5.0, true)]
      && !Chain(BidRemainderAsWritten(s, depth, 100.0).columns, true)
      && Remainder(s, depth, true, 100.0) == s
  {
    var s := Side([Column(101.0, 99.0, 5.0, false)], []);
    var depth := [Level(99.5, 5.0, false, 0)];
    assert D.RangeSum(depth, true, 100.0, 99.0) == 5.0 by {
      assert depth[..0] == [];
    }
    assert D.RangeSum(depth, true, 99.0, 100.0) == 0.0 by {
      assert depth[..0] == [];
    }
    var r := BidRemainderAsWritten(s, depth, 100.0).columns;
    assert !Oriented(r[1], true);
  }

  /**
   * Bids at 102 below a last bucket (110, 105] and above the window start
   * 100: as written they are never shown; the corrected sum appends the
   * bucket (105, 100] holding them.
   */
  lemma BidRemainderMissesGap()
    ensures var s := Side([Column(110.0, 105.0, 1.0, false)], []);
      var depth := [Level(102.0, 4.0, false, 0)];
      BidRemainderAsWritten(s, depth, 100.0) == s
      && Remainder(s, depth, true, 100.0).columns == s.columns + [Column(105.0, 100.0, 4.0, true)]
  {
    var depth := [Level(102.0, 4.0, false, 0)];
    assert depth[..0] == [];
    assert D.RangeSum(depth, true, 100.0, 105.0) == 0.0;
    assert D.RangeSum(depth, true, 105.0, 100.0) == 4.0;
  }

  /** The window has moved by more than RANGE_LIMIT_CHANGE at either end. */
  predicate WindowMoved(st: ChartState, priceStart: real, priceFinish: real)
    requires priceStart != 0.0 && priceFinish != 0.0
  {
    RangeLimitChange < Abs(priceStart - st.limitStart) / priceStart
    || RangeLimitChange < Abs(priceFinish - st.limitFinish) / priceFinish
  }

  /**
   * AdjustPairRangeLimit: when the window has moved, drop the bid and ask
   * buckets beyond it, extend each side up to the window with the
   * remainder of the depth, and record the window as the pair limits.
   * A window end of 0 is a division by zero; emptying a side throws.
   */
  function Adjust(st: ChartState, depth: Depth, d: nat): (r: Outcome)
    ensures st.bids.columns != [] && st.asks.columns != [] && !r.raised ==>
      r.state.bids.columns != [] && r.state.asks.columns != []
  {
    if st.bids.columns == [] || st.asks.columns == [] then Outcome(st, false)
    else
      var (priceStart, priceFinish) := ShowRange(st.bids.columns[0].priceStart, st.asks.columns[0].priceStart, d);
      if priceStart == 0.0 || priceFinish == 0.0 then Outcome(st, true)
      else if !WindowMoved(st, priceStart, priceFinish) then Outcome(st, false)
      else
        var b := DropTail(st.bids, true, priceStart);
        if b.raised then Outcome(st.(bids := b.side), true)
        else
          var bids := Remainder(b.side, depth.bids, true, priceStart);
          var a := DropTail(st.asks, false, priceFinish);
          if a.raised then Outcome(st.(bids := bids, asks := a.side), true)
          else Outcome(ChartState(bids, Remainder(a.side, depth.asks, false, priceFinish), priceStart, priceFinish), false)
  }

  /** A prefix of a chain is a chain. */
  lemma ChainPrefix(columns: seq<Column>, isBuy: bool, n: nat)
    requires Chain(columns, isBuy) && n <= |columns|
    ensures Chain(columns[..n], isBuy)
  {
  }

  /** The window slide keeps both chains, whether or not it throws. */
  lemma AdjustKeepsChain(st: ChartState, depth: Depth, d: nat)
    requires Chained(st)
    ensures Chained(Adjust(st, depth, d).state)
  {
    if st.bids.columns != [] && st.asks.columns != [] {
      var (priceStart, priceFinish) := ShowRange(st.bids.columns[0].priceStart, st.asks.columns[0].priceStart, d);
      if priceStart != 0.0 && priceFinish != 0.0 && WindowMoved(st, priceStart, priceFinish) {
        var b := DropTail(st.bids, true, priceStart);
        ChainPrefix(st.bids.columns, true, |b.side.columns|);
        if !b.raised {
          RemainderChain(b.side, depth.bids, true, priceStart);
          var a := DropTail(st.asks, false, priceFinish);
          ChainPrefix(st.asks.columns, false, |a.side.columns|);
          if !a.raised {
            RemainderChain(a.side, depth.asks, false, priceFinish);
          }
        }
      }
    }
  }

  /**
   * After a slide that does not throw, the pair limits are the window, the
   * last bid bucket starts at or above the window start and the last ask
   * bucket at or below the window finish, and each side grew by at most
   * the one remainder bucket.
   */
  lemma AdjustWindow(st: ChartState, depth: Depth, d: nat)
    requires st.bids.columns != [] && st.asks.columns != []
    requires var r := Adjust(st, depth, d); !r.raised && r.state != st
    ensures var r := Adjust(st, depth, d).state;
      var (priceStart, priceFinish) := ShowRange(st.bids.columns[0].priceStart, st.asks.columns[0].priceStart, d);
      r.limitStart == priceStart && r.limitFinish == priceFinish
      && priceStart <= r.bids.columns[|r.bids.columns| - 1].priceStart
      && r.asks.columns[|r.asks.columns| - 1].priceStart <= priceFinish
      && |r.bids.columns| <= |st.bids.columns| + 1 && |r.asks.columns| <= |st.asks.columns| + 1
  {
    var (priceStart, priceFinish) := ShowRange(st.bids.columns[0].priceStart, st.asks.columns[0].priceStart, d);
    var b := DropTail(st.bids, true, priceStart);
    var a := DropTail(st.asks, false, priceFinish);
    var bLast := b.side.columns[|b.side.columns| - 1];
    var aLast := a.side.columns[|a.side.columns| - 1];
    if 0.0 < D.RangeSum(depth.bids, true, bLast.priceFinish, priceStart) {
      NonZeroRangeIsProper(depth.bids, true, bLast.priceFinish, priceStart);
    }
    if 0.0 < D.RangeSum(depth.asks, false, aLast.priceFinish, priceFinish) {
      NonZeroRangeIsProper(depth.asks, false, aLast.priceFinish, priceFinish);
    }
  }

  /**
   * BalanceOrderBook: slide the window; then, when the chart's first
   * buckets cross (a negative spread) by more than the depth book's own
   * spread, try splitting the first bucket of each side and merge each
   * side back down to COLUMN_NUMBER buckets.
   */
  function Balance(st: ChartState, depth: Depth, d: nat): (r: Outcome)
  {
    if st.bids.columns == [] || st.asks.columns == [] then Outcome(st, false)
    else
      var adjusted := Adjust(st, depth, d);
      if adjusted.raised then adjusted
      else
        var s := adjusted.state;
        var spread := s.asks.columns[0].priceStart - s.bids.columns[0].priceStart;
        if spread < 0.0 && spread < DepthSpread(depth) then
          var bids := TrySplit(s.bids, depth.bids, true, 0, d).side;
          var asks := TrySplit(s.asks, depth.asks, false, 0, d).side;
          Outcome(s.(bids := MergeDown(bids), asks := MergeDown(asks)), false)
        else adjusted
  }

  /** Splitting the first bucket never stitches, so it keeps the chain without further premises. */
  lemma BalanceKeepsChain(st: ChartState, depth: Depth, d: nat)
    requires Chained(st)
    ensures Chained(Balance(st, depth, d).state)
  {
    if st.bids.columns != [] && st.asks.columns != [] {
      AdjustKeepsChain(st, depth, d);
      var s := Adjust(st, depth, d).state;
      if !Adjust(st, depth, d).raised {
        TrySplitChain(s.bids, depth.bids, true, 0, d);
        TrySplitChain(s.asks, depth.asks, false, 0, d);
        MergeDownKeeps(TrySplit(s.bids, depth.bids, true, 0, d).side, true, d);
        MergeDownKeeps(TrySplit(s.asks, depth.asks, false, 0, d).side, false, d);
      }
    }
  }

  /**
   * The two ways balancing ends: either the slid chart is kept as it is, or
   * the sides crossed beyond the depth spread and, after the splits and the
   * merge loops, each side holds at most COLUMN_NUMBER buckets.
   */
  lemma BalanceSplits(st: ChartState, depth: Depth, d: nat)
    requires st.bids.columns != [] && st.asks.columns != []
    requires !Balance(st, depth, d).raised
    ensures var s := Adjust(st, depth, d).state;
      var r := Balance(st, depth, d).state;
      var spread := s.asks.columns[0].priceStart - s.bids.columns[0].priceStart;
      !Adjust(st, depth, d).raised
      && (!(spread < 0.0 && spread < DepthSpread(depth)) ==> r == s)
      && (spread < 0.0 && spread < DepthSpread(depth) ==>
            |r.bids.columns| <= ColumnNumber && |r.asks.columns| <= ColumnNumber
            && r.limitStart == s.limitStart && r.limitFinish == s.limitFinish)
  {
  }

  /** What AddDepth does before balancing. */
  datatype Placement = Ignored | Failed | Placed(state: ChartState)

  /**
   * The first half of AddDepth: ignore a zero quantity or a price not
   * strictly inside the pair limits; add the quantity to the bucket holding
   * the price (never below 0), flag it and remove it once empty; otherwise
   * create a new bucket, which fails when no range can be computed.
   */
  function Place(st: ChartState, depth: Depth, isBuy: bool, price: real, quantity: real, d: nat): Placement
  {
    if quantity == 0.0 || price <= st.limitStart || st.limitFinish <= price then Ignored
    else
      var s := SideOf(st, isBuy);
      match FindColumn(s.columns, isBuy, price)
      case Some(i) =>
        var c := s.columns[i];
        var updated := s.(columns := s.columns[i := c.(quantity := Max(c.quantity + quantity, 0.0), isUpdated := true)]);
        Placed(WithSide(st, isBuy,
          if updated.columns[i].quantity == 0.0 then RemoveColumnSpec(updated, DepthSide(depth, isBuy), isBuy, i, true, d)
          else updated))
      case None =>
        var added := AddNewColumnSpec(s, SideOf(st, !isBuy).columns, isBuy, price, quantity, d);
        if added.Failure? then Failed else Placed(WithSide(st, isBuy, added.value))
  }

  /** AddDepth: place, then balance; a throw anywhere is caught and leaves the state reached. */
  function AddDepthSpec(st: ChartState, depth: Depth, isBuy: bool, price: real, quantity: real, d: nat): Outcome
  {
    match Place(st, depth, isBuy, price, quantity, d)
    case Ignored => Outcome(st, false)
    case Failed => Outcome(st, true)
    case Placed(s) => Balance(s, depth, d)
  }

  /** A zero quantity, or a price on or outside the pair limits, changes nothing. */
  lemma AddDepthIgnored(st: ChartState, depth: Depth, isBuy: bool, price: real, quantity: real, d: nat)
    ensures quantity == 0.0 || price <= st.limitStart || st.limitFinish <= price ==>
      AddDepthSpec(st, depth, isBuy, price, quantity, d) == Outcome(st, false)
    ensures quantity != 0.0 && st.limitStart < price < st.limitFinish ==>
      Place(st, depth, isBuy, price, quantity, d) != Ignored
  {
  }

  /**
   * On a chain, the bucket holding the price receives the quantity, clamped
   * at 0, and is flagged; only that bucket changes, unless it became empty,
   * in which case it is removed (with the follow-up split).
   */
  lemma PlaceFound(st: ChartState, depth: Depth, isBuy: bool, price: real, quantity: real, d: nat, k: nat)
    requires var cs := SideOf(st, isBuy).columns; Chain(cs, isBuy) && k < |cs| && Contains(cs[k], isBuy, price)
    requires quantity != 0.0 && st.limitStart < price < st.limitFinish
    ensures var s := SideOf(st, isBuy);
      var q := Max(s.columns[k].quantity + quantity, 0.0);
      var updated := s.(columns := s.columns[k := s.columns[k].(quantity := q, isUpdated := true)]);
      Place(st, depth, isBuy, price, quantity, d)
        == Placed(WithSide(st, isBuy, if q == 0.0 then RemoveColumnSpec(updated, DepthSide(depth, isBuy), isBuy, k, true, d) else updated))
  {
    ChainFind(SideOf(st, isBuy).columns, isBuy, price, k);
  }

  /**
   * A price no bucket holds gets a new bucket that holds it, placed at one
   * end of a side that keeps the chain (before the merge loop).
   */
  lemma PlaceNew(st: ChartState, isBuy: bool, price: real, quantity: real, d: nat)
    requires Chain(SideOf(st, isBuy).columns, isBuy)
    requires FindColumn(SideOf(st, isBuy).columns, isBuy, price).None? && 0.0 < quantity
    requires NewColumnRange(SideOf(st, isBuy).columns, SideOf(st, !isBuy).columns, isBuy, price, d).Success?
    ensures var cs := SideOf(st, isBuy).columns;
      var (priceStart, priceFinish) := NewColumnRange(cs, SideOf(st, !isBuy).columns, isBuy, price, d).value;
      var c := Column(priceStart, priceFinish, quantity, true);
      Contains(c, isBuy, price)
      && (cs == [] || Chain(if AtEnd(cs, isBuy, priceStart, priceFinish) then cs + [c] else [c] + cs, isBuy))
  {
    var cs := SideOf(st, isBuy).columns;
    NewColumnHoldsPrice(cs, SideOf(st, !isBuy).columns, isBuy, price, d);
    if cs != [] {
      NewColumnFits(cs, SideOf(st, !isBuy).columns, isBuy, price, d);
      var (priceStart, priceFinish) := NewColumnRange(cs, SideOf(st, !isBuy).columns, isBuy, price, d).value;
      PlacedChain(cs, Column(priceStart, priceFinish, quantity, true), isBuy, AtEnd(cs, isBuy, priceStart, priceFinish));
    }
  }

  /** Setting a bucket's quantity and flag leaves its bounds, so the chain and grid are kept. */
  lemma UpdateKeeps(cs: seq<Column>, isBuy: bool, d: nat, k: nat, q: real)
    requires k < |cs| && Chain(cs, isBuy) && Grid(cs, d)
    ensures Chain(cs[k := cs[k].(quantity := q, isUpdated := true)], isBuy)
    ensures Grid(cs[k := cs[k].(quantity := q, isUpdated := true)], d)
  {
    var u := cs[k := cs[k].(quantity := q, isUpdated := true)];
    assert forall j :: 0 <= j < |u| ==> u[j].priceStart == cs[j].priceStart && u[j].priceFinish == cs[j].priceFinish;
  }

  /**
   * AddDepth keeps both chains when the bounds of the side it changes have
   * at most d decimals (which the stitching of a removed bucket needs).
   */
  lemma AddDepthKeepsChain(st: ChartState, depth: Depth, isBuy: bool, price: real, quantity: real, d: nat)
    requires Chained(st) && Grid(SideOf(st, isBuy).columns, d)
    ensures Chained(AddDepthSpec(st, depth, isBuy, price, quantity, d).state)
  {
    var p := Place(st, depth, isBuy, price, quantity, d);
    if p.Placed? {
      var s := SideOf(st, isBuy);
      var found := FindColumn(s.columns, isBuy, price);
      if found.Some? {
        var i := found.value;
        var q := Max(s.columns[i].quantity + quantity, 0.0);
        UpdateKeeps(s.columns, isBuy, d, i, q);
        var updated := s.(columns := s.columns[i := s.columns[i].(quantity := q, isUpdated := true)]);
        if q == 0.0 {
          RemoveColumnKeeps(updated, DepthSide(depth, isBuy), isBuy, i, true, d);
        }
      } else {
        AddNewColumnKeeps(s, SideOf(st, !isBuy).columns, isBuy, price, quantity, d);
      }
      BalanceKeepsChain(p.state, depth, d);
    }
  }

  predicate IsUpdatedColumn(c: Column)
  {
    c.isUpdated
  }

  function ClearColumnFlags(columns: seq<Column>): (r: seq<Column>)
    ensures |r| == |columns|
    ensures forall k :: 0 <= k < |columns| ==> r[k] == columns[k].(isUpdated := false)
  {
    seq(|columns|, k requires 0 <= k < |columns| => columns[k].(isUpdated := false))
  }

  /** GetUpdatedBidAskColumns: the flagged buckets in order, flags cleared, then every removed bucket. */
  function HarvestColumns(s: Side): seq<Column>
  {
    ClearColumnFlags(Filter(IsUpdatedColumn, s.columns)) + s.removed
  }

  /** The side after the harvest: no bucket flagged and the removed list emptied. */
  function Harvested(s: Side): Side
  {
    Side(ClearColumnFlags(s.columns), [])
  }

  /**
   * The harvest hands out exactly the flagged buckets (unflagged) followed
   * by the removed list, clears every flag and keeps the bounds, so the
   * chain survives.
   */
  lemma HarvestEffect(s: Side, isBuy: bool)
    ensures var h := HarvestColumns(s);
      var f := |h| - |s.removed|;
      0 <= f
      && h[f..] == s.removed
      && (forall x :: x in h[..f] <==>
            exists k :: 0 <= k < |s.columns| && s.columns[k].isUpdated && x == s.columns[k].(isUpdated := false))
    ensures forall k :: 0 <= k < |Harvested(s).columns| ==> !Harvested(s).columns[k].isUpdated
    ensures Harvested(s).removed == []
    ensures Chain(s.columns, isBuy) ==> Chain(Harvested(s).columns, isBuy)
  {
    var fl := Filter(IsUpdatedColumn, s.columns);
    var h := HarvestColumns(s);
    assert h[..|fl|] == ClearColumnFlags(fl);
    forall x | x in h[..|fl|]
      ensures exists k :: 0 <= k < |s.columns| && s.columns[k].isUpdated && x == s.columns[k].(isUpdated := false)
    {
      var j :| 0 <= j < |fl| && ClearColumnFlags(fl)[j] == x;
      assert fl[j] in fl;
      var k :| 0 <= k < |s.columns| && s.columns[k] == fl[j];
    }
    forall k | 0 <= k < |s.columns| && s.columns[k].isUpdated
      ensures s.columns[k].(isUpdated := false) in h[..|fl|]
    {
      assert IsUpdatedColumn(s.columns[k]);
      var j :| 0 <= j < |fl| && fl[j] == s.columns[k];
      assert ClearColumnFlags(fl)[j] == s.columns[k].(isUpdated := false);
    }
  }

  /** A second harvest with nothing in between hands out nothing and changes nothing. */
  lemma HarvestTwice(s: Side)
    ensures HarvestColumns(Harvested(s)) == []
    ensures Harvested(Harvested(s)) == Harvested(s)
  {
    var cleared := ClearColumnFlags(s.columns);
    FilterDropsAll(IsUpdatedColumn, cleared);
    assert ClearColumnFlags(cleared) == cleared;
  }

  /**
   * The chart of one pair.  The bucket lists are edited in place; a
   * failure inside AddDepth is caught there and leaves the changes made so
   * far.  Bounds are rounded to `decimals`, the quote asset's decimals.
   */
  class Chart {
    const decimals: nat
    var bids: seq<Column>
    var asks: seq<Column>
    var removedBids: seq<Column>
    var removedAsks: seq<Column>
    var limitStart: real
    var limitFinish: real

    function State(): ChartState
      reads this
    {
      ChartState(Side(bids, removedBids), Side(asks, removedAsks), limitStart, limitFinish)
    }

    /** A tracked pair with no buckets yet and the default pair limits. */
    constructor (decimals: nat)
      ensures this.decimals == decimals
      ensures State() == ChartState(Side([], []), Side([], []), DefaultLimitStart, DefaultLimitFinish)
    {
      this.decimals := decimals;
      bids, asks, removedBids, removedAsks := [], [], [], [];
      limitStart, limitFinish := DefaultLimitStart, DefaultLimitFinish;
    }

    method SetSide(isBuy: bool, s: Side)
      modifies this
      ensures State() == WithSide(old(State()), isBuy, s)
    {
      if isBuy {
        bids, removedBids := s.columns, s.removed;
      } else {
        asks, removedAsks := s.columns, s.removed;
      }
    }

    /** AddDepth: apply one depth change at `price` to the side `isBuy`. */
    method AddDepth(depth: Depth, isBuy: bool, price: real, quantity: real)
      modifies this
      ensures State() == AddDepthSpec(old(State()), depth, isBuy, price, quantity, decimals).state
    {
      var placed := PlaceDepth(depth, isBuy, price, quantity);
      if placed {
        var raised := BalanceOrderBook(depth);
      }
    }

    /** The first half of AddDepth: update, remove or create the bucket holding the price. */
    method PlaceDepth(depth: Depth, isBuy: bool, price: real, quantity: real) returns (placed: bool)
      modifies this
      ensures var p := Place(old(State()), depth, isBuy, price, quantity, decimals);
        placed == p.Placed? && State() == if p.Placed? then p.state else old(State())
    {
      if quantity == 0.0 || price <= limitStart || limitFinish <= price {
        return false;
      }
      var columns := if isBuy then bids else asks;
      var removed := if isBuy then removedBids else removedAsks;
      var found := LocateColumn(columns, isBuy, price);
      if found.Some? {
        var i := found.value;
        var c := columns[i];
        columns := columns[i := c.(quantity := Max(c.quantity + quantity, 0.0), isUpdated := true)];
        SetSide(isBuy, Side(columns, removed));
        if columns[i].quantity == 0.0 {
          RemoveColumn(depth, isBuy, i, true);
        }
        return true;
      }
      var raised := AddNewColumn(isBuy, price, quantity);
      placed := !raised;
    }

    /** GetUpdatedBidAskColumns: hand out the flagged and the removed buckets of one side. */
    method GetUpdatedBidAskColumns(isBuy: bool) returns (resultColumns: seq<Column>)
      modifies this
      ensures resultColumns == HarvestColumns(SideOf(old(State()), isBuy))
      ensures State() == WithSide(old(State()), isBuy, Harvested(SideOf(old(State()), isBuy)))
    {
      var columns := if isBuy then bids else asks;
      var removed := if isBuy then removedBids else removedAsks;
      resultColumns := ClearColumnFlags(Filter(IsUpdatedColumn, columns)) + removed;
      SetSide(isBuy, Side(ClearColumnFlags(columns), []));
    }

    /** AddNewColumn: returns whether computing the new bucket's range failed. */
    method AddNewColumn(isBuy: bool, price: real, quantity: real) returns (raised: bool)
      modifies this
      ensures var r := AddNewColumnSpec(SideOf(old(State()), isBuy), SideOf(old(State()), !isBuy).columns, isBuy, price, quantity, decimals);
        raised == r.Failure? && State() == if r.Success? then WithSide(old(State()), isBuy, r.value) else old(State())
    {
      if quantity <= 0.0 {
        return false;
      }
      var columns := if isBuy then bids else asks;
      var removed := if isBuy then removedBids else removedAsks;
      var range := NewColumnRange(columns, if isBuy then asks else bids, isBuy, price, decimals);
      if range.Failure? {
        return true;
      }
      var priceStart, priceFinish := range.value.0, range.value.1;
      var newColumn := Column(priceStart, priceFinish, quantity, true);
      if |columns| == 0 {
        SetSide(isBuy, Side([newColumn], removed));
        return false;
      }
      if isBuy {
        if priceFinish < columns[0].priceFinish {
          columns := columns + [newColumn];
        } else {
          columns := [newColumn] + columns;
        }
      } else {
        if priceStart < columns[0].priceStart {
          columns := [newColumn] + columns;
        } else {
          columns := columns + [newColumn];
        }
      }
      SetSide(isBuy, Side(columns, removed));
      MergeDownColumns(isBuy);
      return false;
    }

    /** The loop `while (COLUMN_NUMBER < columns.Count) MergeTwoColumns(...)`. */
    method MergeDownColumns(isBuy: bool)
      modifies this
      ensures State() == WithSide(old(State()), isBuy, MergeDown(SideOf(old(State()), isBuy)))
    {
      ghost var start := old(State());
      while ColumnNumber < |if isBuy then bids else asks|
        invariant State() == WithSide(start, isBuy, SideOf(State(), isBuy))
        invariant MergeDown(SideOf(State(), isBuy)) == MergeDown(SideOf(start, isBuy))
        decreases |SideOf(State(), isBuy).columns|
      {
        MergeEffect(SideOf(State(), isBuy));
        MergeTwoColumns(isBuy);
      }
    }

    /** MergeTwoColumns: widen the bucket of smallest span over its right neighbour. */
    method MergeTwoColumns(isBuy: bool)
      modifies this
      ensures State() == WithSide(old(State()), isBuy, Merge(SideOf(old(State()), isBuy)))
    {
      var columns := if isBuy then bids else asks;
      var removed := if isBuy then removedBids else removedAsks;
      if |columns| < 3 {
        return;
      }
      var index := SelectMergeIndex(columns);
      var absorbed := columns[index + 1];
      columns := columns[index := columns[index].(priceFinish := absorbed.priceFinish, quantity := columns[index].quantity + absorbed.quantity, isUpdated := true)];
      removed := removed + [absorbed.(quantity := 0.0, isUpdated := false)];
      columns := columns[..index + 1] + columns[index + 2..];
      SetSide(isBuy, Side(columns, removed));
    }

    /** SplitOneColumn: try the five heaviest buckets until one attempt reports success. */
    method SplitOneColumn(depth: Depth, isBuy: bool)
      modifies this
      ensures State() == WithSide(old(State()), isBuy, SplitOne(SideOf(old(State()), isBuy), DepthSide(depth, isBuy), isBuy, decimals))
      decreases 3
    {
      var columns := if isBuy then bids else asks;
      if |columns| < 1 {
        return;
      }
      var columnData := BuildColumnData(columns);
      var sorted := SortData(columnData);
      SortDataSorted(columnData);
      var number := if |columns| < 5 then |columns| else 5;
      TryCandidates(depth, isBuy, sorted, number, Candidates(columns));
    }

    /** The attempt loop of SplitOneColumn over the first `number` sorted buckets. */
    method TryCandidates(depth: Depth, isBuy: bool, sorted: seq<ColumnData>, number: nat, ghost order: seq<nat>)
      requires number == |order| <= |sorted|
      requires forall k :: 0 <= k < |order| ==> order[k] == sorted[k].index
      requires forall k :: 0 <= k < |order| ==> order[k] < |SideOf(State(), isBuy).columns|
      modifies this
      ensures State() == WithSide(old(State()), isBuy, Attempts(SideOf(old(State()), isBuy), DepthSide(depth, isBuy), isBuy, order, decimals))
      decreases 2
    {
      ghost var start := old(State());
      ghost var cur := SideOf(start, isBuy);
      var i := 0;
      while i < number
        invariant 0 <= i <= number
        invariant State() == WithSide(start, isBuy, cur)
        invariant forall k :: 0 <= k < |order| ==> order[k] < |cur.columns|
        invariant Attempts(SideOf(start, isBuy), DepthSide(depth, isBuy), isBuy, order, decimals)
          == Attempts(cur, DepthSide(depth, isBuy), isBuy, order[i..], decimals)
      {
        AttemptsFrom(cur, DepthSide(depth, isBuy), isBuy, order, i, decimals);
        var done := TrySplittingAColumn(depth, isBuy, sorted[i].index);
        cur := TrySplit(cur, DepthSide(depth, isBuy), isBuy, order[i], decimals).side;
        if done {
          return;
        }
        i := i + 1;
      }
    }

    /** TrySplittingAColumn: returns whether the caller must stop trying. */
    method TrySplittingAColumn(depth: Depth, isBuy: bool, index: nat) returns (done: bool)
      requires index < |SideOf(State(), isBuy).columns|
      modifies this
      ensures var r := TrySplit(SideOf(old(State()), isBuy), DepthSide(depth, isBuy), isBuy, index, decimals);
        State() == WithSide(old(State()), isBuy, r.side) && done == r.done
      decreases 1
    {
      var columns := if isBuy then bids else asks;
      var removed := if isBuy then removedBids else removedAsks;
      var depthSide := DepthSide(depth, isBuy);
      var splitPrice := (columns[index].priceStart + columns[index].priceFinish) / 2.0;
      splitPrice := Round(splitPrice, decimals);
      if splitPrice == columns[index].priceStart || splitPrice == columns[index].priceFinish {
        // GetDepthQuantity: the depth inside the whole bucket
        var quantity := D.RangeSum(depthSide, isBuy, columns[index].priceStart, columns[index].priceFinish);
        if quantity == 0.0 {
          RemoveColumn(depth, isBuy, index, false);
        }
        return true;
      }
      var quantityOne := D.RangeSum(depthSide, isBuy, columns[index].priceStart, splitPrice);
      var quantityTwo := D.RangeSum(depthSide, isBuy, splitPrice, columns[index].priceFinish);
      if quantityOne == 0.0 && quantityTwo == 0.0 {
        RemoveColumn(depth, isBuy, index, false);
        return true;
      }
      if quantityOne == 0.0 && index == 0 {
        columns := columns[index := columns[index].(priceStart := splitPrice, isUpdated := true)];
        SetSide(isBuy, Side(columns, removed));
        return false;
      }
      if quantityTwo == 0.0 && index == |columns| - 1 {
        columns := columns[index := columns[index].(priceFinish := splitPrice, isUpdated := true)];
        SetSide(isBuy, Side(columns, removed));
        return false;
      }
      if quantityOne == 0.0 || quantityTwo == 0.0 {
        return false;
      }
      var newColumn := Column(splitPrice, columns[index].priceFinish, quantityTwo, true);
      ghost var cs := columns;
      columns := columns[index := columns[index].(priceFinish := splitPrice, quantity := quantityOne, isUpdated := true)];
      columns := columns[..index + 1] + [newColumn] + columns[index + 1..];
      assert columns == cs[..index] + [cs[index].(priceFinish := splitPrice, quantity := quantityOne, isUpdated := true), newColumn] + cs[index + 1..];
      SetSide(isBuy, Side(columns, removed));
      return true;
    }

    /** RemoveColumn: remove the bucket at `index`, then, when `isSplit`, try one split. */
    method RemoveColumn(depth: Depth, isBuy: bool, index: nat, isSplit: bool)
      requires index < |SideOf(State(), isBuy).columns|
      modifies this
      ensures State() == WithSide(old(State()), isBuy,
        RemoveColumnSpec(SideOf(old(State()), isBuy), DepthSide(depth, isBuy), isBuy, index, isSplit, decimals))
      decreases if isSplit then 4 else 0
    {
      var columns := if isBuy then bids else asks;
      var removed := if isBuy then removedBids else removedAsks;
      if index != 0 && index != |columns| - 1 {
        var price := (columns[index].priceStart + columns[index].priceFinish) / 2.0;
        price := Round(price, decimals);
        columns := columns[index - 1 := columns[index - 1].(priceFinish := price)];
        columns := columns[index + 1 := columns[index + 1].(priceStart := price)];
      }
      removed := removed + [columns[index].(quantity := 0.0, isUpdated := false)];
      columns := columns[..index] + columns[index + 1..];
      SetSide(isBuy, Side(columns, removed));
      if !isSplit {
        return;
      }
      if |columns| <= ColumnNumber {
        SplitOneColumn(depth, isBuy);
      }
    }

    /** BalanceOrderBook: returns whether it threw. */
    method BalanceOrderBook(depth: Depth) returns (raised: bool)
      modifies this
      ensures Outcome(State(), raised) == Balance(old(State()), depth, decimals)
    {
      if |bids| == 0 || |asks| == 0 {
        return false;
      }
      raised := AdjustPairRangeLimit(depth);
      if raised {
        return;
      }
      var spread := asks[0].priceStart - bids[0].priceStart;
      if spread < 0.0 {
        var depthSpread := DepthSpread(depth);
        if spread < depthSpread {
          var done := TrySplittingAColumn(depth, true, 0);
          done := TrySplittingAColumn(depth, false, 0);
          MergeDownColumns(true);
          MergeDownColumns(false);
        }
      }
    }

    /** AdjustPairRangeLimit: returns whether it threw. */
    method AdjustPairRangeLimit(depth: Depth) returns (raised: bool)
      modifies this
      ensures Outcome(State(), raised) == Adjust(old(State()), depth, decimals)
    {
      if |bids| == 0 || |asks| == 0 {
        return false;
      }
      var window := ShowRange(bids[0].priceStart, asks[0].priceStart, decimals);
      var priceStart, priceFinish := window.0, window.1;
      if priceStart == 0.0 || priceFinish == 0.0 {
        // the relative change divides by zero
        return true;
      }
      var changeStart := Abs(priceStart - limitStart) / priceStart;
      var changeFinish := Abs(priceFinish - limitFinish) / priceFinish;
      var isChange := RangeLimitChange < changeStart || RangeLimitChange < changeFinish;
      if !isChange {
        return false;
      }
      raised := DropTailColumns(depth, true, priceStart);
      if raised {
        return;
      }
      AppendRemainder(depth, true, priceStart);
      raised := DropTailColumns(depth, false, priceFinish);
      if raised {
        return;
      }
      AppendRemainder(depth, false, priceFinish);
      limitStart := priceStart;
      limitFinish := priceFinish;
    }

    /**
     * The removal loop of AdjustPairRangeLimit on one side; returns whether
     * it threw on the emptied side.
     */
    method DropTailColumns(depth: Depth, isBuy: bool, limit: real) returns (raised: bool)
      modifies this
      ensures var r := DropTail(SideOf(old(State()), isBuy), isBuy, limit);
        State() == WithSide(old(State()), isBuy, r.side) && raised == r.raised
    {
      ghost var start := old(State());
      ghost var s0 := SideOf(start, isBuy);
      var columns := if isBuy then bids else asks;
      while columns != [] && Beyond(columns[|columns| - 1], isBuy, limit)
        invariant |columns| <= |s0.columns| && columns == s0.columns[..|columns|]
        invariant forall k :: |columns| <= k < |s0.columns| ==> Beyond(s0.columns[k], isBuy, limit)
        invariant SideOf(State(), isBuy) == Side(columns, s0.removed + Dropped(s0.columns[|columns|..]))
        invariant State() == WithSide(start, isBuy, SideOf(State(), isBuy))
        decreases |columns|
      {
        DropStep(s0.columns, s0.removed, |columns|, DepthSide(depth, isBuy), isBuy, decimals);
        RemoveColumn(depth, isBuy, |columns| - 1, false);
        columns := if isBuy then bids else asks;
      }
      KeepCountExact(s0.columns, isBuy, limit, |columns|);
      // once the side is empty the loop condition indexes the empty list
      raised := columns == [];
    }

    /** The remainder bucket of AdjustPairRangeLimit, with the bid range the right way round. */
    method AppendRemainder(depth: Depth, isBuy: bool, limit: real)
      requires SideOf(State(), isBuy).columns != []
      modifies this
      ensures State() == WithSide(old(State()), isBuy, Remainder(SideOf(old(State()), isBuy), DepthSide(depth, isBuy), isBuy, limit))
    {
      var columns := if isBuy then bids else asks;
      var removed := if isBuy then removedBids else removedAsks;
      var quantity := D.RangeSum(DepthSide(depth, isBuy), isBuy, columns[|columns| - 1].priceFinish, limit);
      if 0.0 < quantity {
        columns := columns + [Column(columns[|columns| - 1].priceFinish, limit, quantity, true)];
        SetSide(isBuy, Side(columns, removed));
      }
    }
  }

  function Last(columns: seq<Column>): Column
    requires columns != []
  {
    columns[|columns| - 1]
  }

  /** The search loop of AddDepth: the first bucket holding the price. */
  method LocateColumn(columns: seq<Column>, isBuy: bool, price: real) returns (found: Option<nat>)
    ensures found == FindColumn(columns, isBuy, price)
  {
    var i := 0;
    while i < |columns|
      invariant 0 <= i <= |columns|
      invariant FindFrom(columns, isBuy, price, i) == FindColumn(columns, isBuy, price)
    {
      if Contains(columns[i], isBuy, price) {
        return Some(i);
      }
      i := i + 1;
    }
    return None;
  }

  /** The selection loop of MergeTwoColumns: the first bucket of smallest span from index 1 on. */
  method SelectMergeIndex(columns: seq<Column>) returns (index: nat)
    requires 3 <= |columns|
    ensures index == MergeIndex(columns)
  {
    index := 1;
    var minRange := Abs(columns[index].priceStart - Abs(columns[index + 1].priceFinish));
    var i := 2;
    while i < |columns| - 1
      invariant 2 <= i <= |columns| - 1 && 1 <= index < i
      invariant minRange == Span(columns, index)
      invariant forall k :: 1 <= k < i ==> Span(columns, index) <= Span(columns, k)
      invariant forall k :: 1 <= k < index ==> Span(columns, index) < Span(columns, k)
      invariant MinSpanFrom(columns, i, index) == MergeIndex(columns)
    {
      if Abs(columns[i].priceStart - Abs(columns[i + 1].priceFinish)) < minRange {
        minRange := Abs(columns[i].priceStart - Abs(columns[i + 1].priceFinish));
        index := i;
      }
      i := i + 1;
    }
  }

  /** The data loop of SplitOneColumn: index, width and quantity of every bucket. */
  method BuildColumnData(columns: seq<Column>) returns (columnData: seq<ColumnData>)
    ensures columnData == ColumnDatas(columns)
  {
    columnData := [];
    var i := 0;
    while i < |columns|
      invariant 0 <= i <= |columns| && columnData == ColumnDatas(columns)[..i]
    {
      columnData := columnData + [ColumnData(i, Abs(columns[i].priceStart - columns[i].priceFinish), columns[i].quantity)];
      i := i + 1;
    }
  }
}
