/**
 * OrderBookDepth: the aggregated order book of one asset pair.  Each side is
 * a list of price levels, bids strictly descending and asks strictly
 * ascending by price.  Changes to a level are reported to the order book
 * chart; here they are returned as a sequence of `ChartDelta` events.
 */
module OrderBookDepth {
  import opened Wrappers
  import opened DataModels
  import opened Seqs

  /** `value1` is strictly better than `value2`: greater for bids, smaller for asks. */
  predicate Compare(isGreater: bool, value1: real, value2: real)
  {
    if isGreater then value1 > value2 else value1 < value2
  }

  /** Strict book order, which also makes every price unique on the side. */
  predicate Sorted(side: seq<Level>, isBuy: bool)
  {
    forall i, j :: 0 <= i < j < |side| ==> Compare(isBuy, side[i].price, side[j].price)
  }

  /** A call of OrderBookChart.AddDepth(isBuy, price, quantity) made by the depth book. */
  datatype ChartDelta = ChartDelta(isBuy: bool, price: real, quantity: real)

  /** A side after an operation, together with the chart calls it made, in order. */
  datatype Update = Update(side: seq<Level>, deltas: seq<ChartDelta>)

  /** The total quantity of a list of levels. */
  function Total(side: seq<Level>): real
  {
    if side == [] then 0.0 else Total(side[..|side| - 1]) + side[|side| - 1].quantity
  }

  /** The total quantity change reported to the chart. */
  function DeltaSum(deltas: seq<ChartDelta>): real
  {
    if deltas == [] then 0.0 else DeltaSum(deltas[..|deltas| - 1]) + deltas[|deltas| - 1].quantity
  }

  lemma {:induction false} TotalAppend(a: seq<Level>, b: seq<Level>)
    ensures Total(a + b) == Total(a) + Total(b)
    decreases |b|
  {
    if b == [] {
      assert a + b == a;
    } else {
      assert (a + b)[..|a + b| - 1] == a + b[..|b| - 1];
      TotalAppend(a, b[..|b| - 1]);
    }
  }

  lemma TotalUpdate(side: seq<Level>, i: nat, x: Level)
    requires i < |side|
    ensures Total(side[i := x]) == Total(side) - side[i].quantity + x.quantity
  {
    assert side == side[..i] + [side[i]] + side[i + 1..];
    assert side[i := x] == side[..i] + [x] + side[i + 1..];
    TotalAppend(side[..i] + [side[i]], side[i + 1..]);
    TotalAppend(side[..i], [side[i]]);
    TotalAppend(side[..i] + [x], side[i + 1..]);
    TotalAppend(side[..i], [x]);
    assert Total([x]) == x.quantity by { assert [x][..0] == []; }
    assert Total([side[i]]) == side[i].quantity by { assert [side[i]][..0] == []; }
  }

  lemma TotalFront(side: seq<Level>)
    requires side != []
    ensures Total(side) == side[0].quantity + Total(side[1..])
  {
    assert side == [side[0]] + side[1..];
    TotalAppend([side[0]], side[1..]);
    assert Total([side[0]]) == side[0].quantity by { assert [side[0]][..0] == []; }
  }

  /**
   * Where the scan of AddDepth stops: the first level whose price equals
   * `price` or is beaten by it, or the end of the side.
   */
  function Locate(side: seq<Level>, isBuy: bool, price: real): (i: nat)
    ensures i <= |side|
    ensures forall k :: 0 <= k < i ==> side[k].price != price && !Compare(isBuy, price, side[k].price)
    ensures i < |side| ==> side[i].price == price || Compare(isBuy, price, side[i].price)
    decreases |side|
  {
    if side == [] then 0
    else if side[0].price == price || Compare(isBuy, price, side[0].price) then 0
    else 1 + Locate(side[1..], isBuy, price)
  }

  /** A position with no stop before it, and a stop at it or the end there, is where the scan stops. */
  lemma {:induction false} LocateIs(side: seq<Level>, isBuy: bool, price: real, i: nat)
    requires i <= |side|
    requires forall k :: 0 <= k < i ==> side[k].price != price && !Compare(isBuy, price, side[k].price)
    requires i < |side| ==> side[i].price == price || Compare(isBuy, price, side[i].price)
    ensures Locate(side, isBuy, price) == i
    decreases i
  {
    if 0 < i {
      assert side[0].price != price && !Compare(isBuy, price, side[0].price);
      LocateIs(side[1..], isBuy, price, i - 1);
    }
  }

  /** The level every new price level starts as. */
  function NewLevel(price: real, quantity: real, updateId: Option<int>): Level
  {
    Level(price, quantity, true, updateId.GetOr(0))
  }

  /** The quantity a matched level takes: clamped sum in delta mode, the value itself otherwise. */
  function NewQuantity(oldQuantity: real, quantity: real, isDelta: bool): real
  {
    if isDelta then Max(oldQuantity + quantity, 0.0) else quantity
  }

  /** The effect of AddDepth on one side. */
  function ApplyDepth(side: seq<Level>, isBuy: bool, price: real, quantity: real, isDelta: bool, updateId: Option<int>): Update
  {
    var i := Locate(side, isBuy, price);
    if i < |side| && side[i].price == price then
      if updateId.None? || side[i].updateId < updateId.value then
        var q := NewQuantity(side[i].quantity, quantity, isDelta);
        Update(side[i := side[i].(quantity := q, isUpdated := true)],
               [ChartDelta(isBuy, price, q - side[i].quantity)])
      else Update(side, [])
    else if 0.0 < quantity then
      Update(side[..i] + [NewLevel(price, quantity, updateId)] + side[i..], [ChartDelta(isBuy, price, quantity)])
    else Update(side, [])
  }

  /** On a sorted side, the level holding a price is the one the scan stops at. */
  lemma LocateFindsPrice(side: seq<Level>, isBuy: bool, price: real, k: nat)
    requires Sorted(side, isBuy) && k < |side| && side[k].price == price
    ensures Locate(side, isBuy, price) == k
  {
    assert forall j :: 0 <= j < k ==> Compare(isBuy, side[j].price, price);
  }

  /** AddDepth keeps each side strictly sorted. */
  lemma ApplyDepthSorted(side: seq<Level>, isBuy: bool, price: real, quantity: real, isDelta: bool, updateId: Option<int>)
    requires Sorted(side, isBuy)
    ensures Sorted(ApplyDepth(side, isBuy, price, quantity, isDelta, updateId).side, isBuy)
  {
    var r := ApplyDepth(side, isBuy, price, quantity, isDelta, updateId).side;
    var i := Locate(side, isBuy, price);
    if i < |side| && side[i].price == price {
      assert |r| == |side| && forall k :: 0 <= k < |r| ==> r[k].price == side[k].price;
    } else if 0.0 < quantity {
      var x := NewLevel(price, quantity, updateId);
      assert r == side[..i] + [x] + side[i..];
      forall a, b | 0 <= a < b < |r|
        ensures Compare(isBuy, r[a].price, r[b].price)
      {
        if b < i {
          assert r[a] == side[a] && r[b] == side[b];
        } else if b == i {
          assert r[a] == side[a] && r[b] == x;
        } else if a == i {
          assert r[b] == side[b - 1];
          assert Compare(isBuy, price, side[i].price);
          if i < b - 1 {
            assert Compare(isBuy, side[i].price, side[b - 1].price);
          }
        } else if a < i {
          assert r[a] == side[a] && r[b] == side[b - 1];
        } else {
          assert r[a] == side[a - 1] && r[b] == side[b - 1];
        }
      }
    }
  }

  /** An update whose id is not newer than the stored level's is ignored and reports nothing. */
  lemma ApplyDepthStaleIgnored(side: seq<Level>, isBuy: bool, price: real, quantity: real, isDelta: bool, updateId: Option<int>, k: nat)
    requires Sorted(side, isBuy) && k < |side| && side[k].price == price
    requires updateId.Some? && updateId.value <= side[k].updateId
    ensures ApplyDepth(side, isBuy, price, quantity, isDelta, updateId) == Update(side, [])
  {
    LocateFindsPrice(side, isBuy, price, k);
  }

  /**
   * An accepted update of an existing level: delta mode clamps the sum at 0,
   * absolute mode stores the value as given (even a negative one); the level
   * is flagged, keeps its stored update id, and the net change is reported.
   */
  lemma ApplyDepthExisting(side: seq<Level>, isBuy: bool, price: real, quantity: real, isDelta: bool, updateId: Option<int>, k: nat)
    requires Sorted(side, isBuy) && k < |side| && side[k].price == price
    requires updateId.None? || side[k].updateId < updateId.value
    ensures var q := if isDelta then Max(side[k].quantity + quantity, 0.0) else quantity;
      ApplyDepth(side, isBuy, price, quantity, isDelta, updateId)
      == Update(side[k := Level(price, q, true, side[k].updateId)], [ChartDelta(isBuy, price, q - side[k].quantity)])
  {
    LocateFindsPrice(side, isBuy, price, k);
  }

  /**
   * A level is created exactly when the price is new and the quantity is
   * positive; it is flagged, carries `updateId ?? 0`, and +quantity is reported.
   */
  lemma ApplyDepthNewLevel(side: seq<Level>, isBuy: bool, price: real, quantity: real, isDelta: bool, updateId: Option<int>)
    requires Sorted(side, isBuy)
    ensures var r := ApplyDepth(side, isBuy, price, quantity, isDelta, updateId);
      (|r.side| == |side| + 1 <==> (forall k :: 0 <= k < |side| ==> side[k].price != price) && 0.0 < quantity)
      && (|r.side| == |side| || |r.side| == |side| + 1)
      && (|r.side| == |side| + 1 ==>
            Level(price, quantity, true, if updateId.Some? then updateId.value else 0) in r.side
            && r.deltas == [ChartDelta(isBuy, price, quantity)])
    ensures var r := ApplyDepth(side, isBuy, price, quantity, isDelta, updateId);
      var i := Locate(side, isBuy, price);
      |r.side| == |side| + 1 ==>
        r.side[..i] == side[..i] && r.side[i] == NewLevel(price, quantity, updateId) && r.side[i + 1..] == side[i..]
  {
    var r := ApplyDepth(side, isBuy, price, quantity, isDelta, updateId);
    var i := Locate(side, isBuy, price);
    if exists k :: 0 <= k < |side| && side[k].price == price {
      var k :| 0 <= k < |side| && side[k].price == price;
      LocateFindsPrice(side, isBuy, price, k);
    } else if 0.0 < quantity {
      assert r.side == side[..i] + [NewLevel(price, quantity, updateId)] + side[i..];
      assert r.side[i] == NewLevel(price, quantity, updateId);
      assert r.side[..i] == side[..i];
      assert r.side[i + 1..] == side[i..];
    }
  }

  /** The quantity reported to the chart is exactly the change of the side's total. */
  lemma ApplyDepthConserves(side: seq<Level>, isBuy: bool, price: real, quantity: real, isDelta: bool, updateId: Option<int>)
    ensures var r := ApplyDepth(side, isBuy, price, quantity, isDelta, updateId);
      Total(r.side) == Total(side) + DeltaSum(r.deltas)
  {
    var r := ApplyDepth(side, isBuy, price, quantity, isDelta, updateId);
    var i := Locate(side, isBuy, price);
    if i < |side| && side[i].price == price {
      if updateId.None? || side[i].updateId < updateId.value {
        var q := NewQuantity(side[i].quantity, quantity, isDelta);
        TotalUpdate(side, i, side[i].(quantity := q, isUpdated := true));
        assert DeltaSum(r.deltas) == q - side[i].quantity by { assert r.deltas[..0] == []; }
      }
    } else if 0.0 < quantity {
      var x := NewLevel(price, quantity, updateId);
      assert side == side[..i] + side[i..];
      TotalAppend(side[..i] + [x], side[i..]);
      TotalAppend(side[..i], [x]);
      TotalAppend(side[..i], side[i..]);
      assert Total([x]) == quantity by { assert [x][..0] == []; }
      assert DeltaSum(r.deltas) == quantity by { assert r.deltas[..0] == []; }
    }
  }

  /**
   * The scenario of a fresh bid at 100: +5 with id 1, then -2 with id 2,
   * leaves one flagged level of quantity 3 and reports +5 and then -2.
   */
  lemma DeltaScenario()
    ensures var first := ApplyDepth([], true, 100.0, 5.0, true, Some(1));
      var second := ApplyDepth(first.side, true, 100.0, -2.0, true, Some(2));
      first.deltas == [ChartDelta(true, 100.0, 5.0)]
      && second.side == [Level(100.0, 3.0, true, 1)]
      && second.deltas == [ChartDelta(true, 100.0, -2.0)]
  {
    var first := ApplyDepth([], true, 100.0, 5.0, true, Some(1));
    assert first.side == [Level(100.0, 5.0, true, 1)];
    assert Locate(first.side, true, 100.0) == 0;
  }

  /**
   * An accepted update does not refresh the stored update id, so after the
   * level created with id 1 accepts id 3, a later id 2 is still applied.
   */
  lemma StoredIdNotRefreshed()
    ensures var first := ApplyDepth([], false, 7.0, 1.0, false, Some(1));
      var second := ApplyDepth(first.side, false, 7.0, 4.0, false, Some(3));
      var third := ApplyDepth(second.side, false, 7.0, 2.0, false, Some(2));
      third.side == [Level(7.0, 2.0, true, 1)]
  {
    var first := ApplyDepth([], false, 7.0, 1.0, false, Some(1));
    assert first.side == [Level(7.0, 1.0, true, 1)];
    assert Locate(first.side, false, 7.0) == 0;
    var second := ApplyDepth(first.side, false, 7.0, 4.0, false, Some(3));
    assert second.side == [Level(7.0, 4.0, true, 1)];
    assert Locate(second.side, false, 7.0) == 0;
  }

  /** A level that DeleteOrderDepths zeroes: non-zero and older than the given id (any, if none). */
  predicate Older(level: Level, updateId: Option<int>)
  {
    level.quantity != 0.0 && (updateId.None? || level.updateId < updateId.value)
  }

  /** The effect of DeleteOrderDepths on one side. */
  function DeleteSpec(side: seq<Level>, isBuy: bool, updateId: Option<int>): (r: Update)
    ensures |r.side| == |side|
    ensures forall k :: 0 <= k < |side| ==>
      r.side[k] == if Older(side[k], updateId) then side[k].(quantity := 0.0, isUpdated := true) else side[k]
    ensures forall d :: d in r.deltas ==> d.isBuy == isBuy && d.quantity != 0.0
    decreases |side|
  {
    if side == [] then Update([], [])
    else
      var u := DeleteSpec(side[..|side| - 1], isBuy, updateId);
      var level := side[|side| - 1];
      if Older(level, updateId) then
        Update(u.side + [level.(quantity := 0.0, isUpdated := true)], u.deltas + [ChartDelta(isBuy, level.price, -level.quantity)])
      else Update(u.side + [level], u.deltas)
  }

  /** Every zeroed level reports minus its old quantity, and nothing else is reported. */
  lemma {:induction false} DeleteConserves(side: seq<Level>, isBuy: bool, updateId: Option<int>)
    ensures var r := DeleteSpec(side, isBuy, updateId);
      Total(r.side) == Total(side) + DeltaSum(r.deltas)
      && |r.deltas| <= |side|
    decreases |side|
  {
    if side != [] {
      var init := side[..|side| - 1];
      DeleteConserves(init, isBuy, updateId);
      var u := DeleteSpec(init, isBuy, updateId);
      var r := DeleteSpec(side, isBuy, updateId);
      assert r.side[..|r.side| - 1] == u.side;
      if Older(side[|side| - 1], updateId) {
        assert r.deltas[..|r.deltas| - 1] == u.deltas;
      }
    }
  }

  /** x is the report of a level DeleteOrderDepths zeroes: minus its old quantity at its price. */
  ghost predicate Zeroed(side: seq<Level>, isBuy: bool, updateId: Option<int>, x: ChartDelta)
  {
    exists k :: 0 <= k < |side| && Older(side[k], updateId) && x == ChartDelta(isBuy, side[k].price, -side[k].quantity)
  }

  /** A level is zeroed in a side iff it is zeroed in all but the last level, or it is the last. */
  lemma ZeroedLast(side: seq<Level>, isBuy: bool, updateId: Option<int>, x: ChartDelta)
    requires side != []
    ensures Zeroed(side, isBuy, updateId, x) <==>
      Zeroed(side[..|side| - 1], isBuy, updateId, x)
      || (Older(side[|side| - 1], updateId) && x == ChartDelta(isBuy, side[|side| - 1].price, -side[|side| - 1].quantity))
  {
    var init := side[..|side| - 1];
    if Zeroed(init, isBuy, updateId, x) {
      var k :| 0 <= k < |init| && Older(init[k], updateId) && x == ChartDelta(isBuy, init[k].price, -init[k].quantity);
      assert side[k] == init[k];
    }
    if Zeroed(side, isBuy, updateId, x) {
      var k :| 0 <= k < |side| && Older(side[k], updateId) && x == ChartDelta(isBuy, side[k].price, -side[k].quantity);
      if k < |init| {
        assert init[k] == side[k];
      }
    }
  }

  /** Deletion reports one delta per zeroed level, minus its old quantity, and nothing else. */
  lemma {:induction false} DeleteReports(side: seq<Level>, isBuy: bool, updateId: Option<int>)
    ensures forall x :: x in DeleteSpec(side, isBuy, updateId).deltas <==> Zeroed(side, isBuy, updateId, x)
    decreases |side|
  {
    if side != [] {
      var init := side[..|side| - 1];
      var last := side[|side| - 1];
      DeleteReports(init, isBuy, updateId);
      var u := DeleteSpec(init, isBuy, updateId);
      var extra := if Older(last, updateId) then [ChartDelta(isBuy, last.price, -last.quantity)] else [];
      assert DeleteSpec(side, isBuy, updateId).deltas == u.deltas + extra;
      forall x
        ensures x in u.deltas + extra <==> Zeroed(side, isBuy, updateId, x)
      {
        ZeroedLast(side, isBuy, updateId, x);
      }
    }
  }

  /** Deletion keeps the side sorted, as it changes no price. */
  lemma DeleteSorted(side: seq<Level>, isBuy: bool, updateId: Option<int>)
    requires Sorted(side, isBuy)
    ensures Sorted(DeleteSpec(side, isBuy, updateId).side, isBuy)
  {
    var r := DeleteSpec(side, isBuy, updateId).side;
    assert forall k :: 0 <= k < |r| ==> r[k].price == side[k].price;
  }

  /** DeleteOrderDepths: zero and flag the older levels, reporting each change. */
  method DeleteOrderDepths(depths: seq<Level>, isBuy: bool, updateId: Option<int>) returns (result: seq<Level>, deltas: seq<ChartDelta>)
    ensures Update(result, deltas) == DeleteSpec(depths, isBuy, updateId)
  {
    result := [];
    deltas := [];
    var i := 0;
    while i < |depths|
      invariant 0 <= i <= |depths|
      invariant Update(result, deltas) == DeleteSpec(depths[..i], isBuy, updateId)
    {
      assert depths[..i + 1][..i] == depths[..i];
      var level := depths[i];
      if level.quantity != 0.0 && (updateId.None? || level.updateId < updateId.value) {
        var oldQuantity := level.quantity;
        result := result + [level.(quantity := 0.0, isUpdated := true)];
        deltas := deltas + [ChartDelta(isBuy, level.price, -oldQuantity)];
      } else {
        result := result + [level];
      }
      i := i + 1;
    }
    assert depths[..i] == depths;
  }

  predicate IsUpdated(level: Level) { level.isUpdated }

  predicate IsNonZero(level: Level) { level.quantity != 0.0 }

  function ClearFlags(side: seq<Level>): (r: seq<Level>)
    ensures |r| == |side|
    ensures forall k :: 0 <= k < |side| ==> r[k] == side[k].(isUpdated := false)
  {
    seq(|side|, k requires 0 <= k < |side| => side[k].(isUpdated := false))
  }

  /** The levels GetUpdatedDepths returns for a side: the flagged ones, flags cleared. */
  function UpdatedLevels(side: seq<Level>): seq<Level>
  {
    ClearFlags(Filter(IsUpdated, side))
  }

  /** The levels a side keeps after GetUpdatedDepths: the non-zero ones, flags cleared. */
  function KeptLevels(side: seq<Level>): seq<Level>
  {
    Filter(IsNonZero, ClearFlags(side))
  }

  /** A sub-sequence of a sorted side is sorted. */
  lemma {:induction false} FilterSorted(p: Level -> bool, side: seq<Level>, isBuy: bool)
    requires Sorted(side, isBuy)
    ensures Sorted(Filter(p, side), isBuy)
    decreases |side|
  {
    if side != [] {
      var init := side[..|side| - 1];
      var last := side[|side| - 1];
      FilterSorted(p, init, isBuy);
      var f := Filter(p, init);
      forall y | y in f
        ensures Compare(isBuy, y.price, last.price)
      {
        var k :| 0 <= k < |init| && init[k] == y;
        assert side[k] == y;
      }
    }
  }

  /**
   * The harvest: the returned levels are exactly the flagged ones with their
   * flags cleared; the side keeps every non-zero level and no zero one, all
   * unflagged, in book order.
   */
  lemma HarvestSide(side: seq<Level>, isBuy: bool)
    requires Sorted(side, isBuy)
    ensures forall x :: x in UpdatedLevels(side) <==>
      exists k :: 0 <= k < |side| && side[k].isUpdated && x == side[k].(isUpdated := false)
    ensures Sorted(KeptLevels(side), isBuy)
    ensures forall x :: x in KeptLevels(side) ==> !x.isUpdated && x.quantity != 0.0
    ensures forall k :: 0 <= k < |side| && side[k].quantity != 0.0 ==> side[k].(isUpdated := false) in KeptLevels(side)
  {
    var f := Filter(IsUpdated, side);
    forall x | x in UpdatedLevels(side)
      ensures exists k :: 0 <= k < |side| && side[k].isUpdated && x == side[k].(isUpdated := false)
    {
      var j :| 0 <= j < |f| && UpdatedLevels(side)[j] == x;
      assert f[j] in f;
      var k :| 0 <= k < |side| && side[k] == f[j];
    }
    forall k | 0 <= k < |side| && side[k].isUpdated
      ensures side[k].(isUpdated := false) in UpdatedLevels(side)
    {
      assert IsUpdated(side[k]);
      var j :| 0 <= j < |f| && f[j] == side[k];
      assert UpdatedLevels(side)[j] == side[k].(isUpdated := false);
    }
    var c := ClearFlags(side);
    assert Sorted(c, isBuy) by {
      assert forall k :: 0 <= k < |c| ==> c[k].price == side[k].price;
    }
    FilterSorted(IsNonZero, c, isBuy);
    forall k | 0 <= k < |side| && side[k].quantity != 0.0
      ensures side[k].(isUpdated := false) in KeptLevels(side)
    {
      assert IsNonZero(c[k]);
    }
    forall x | x in KeptLevels(side)
      ensures !x.isUpdated && x.quantity != 0.0
    {
      assert x in c && IsNonZero(x);
    }
  }

  /** A second harvest returns nothing and leaves the side as it is. */
  lemma HarvestTwice(side: seq<Level>)
    ensures UpdatedLevels(KeptLevels(side)) == []
    ensures KeptLevels(KeptLevels(side)) == KeptLevels(side)
  {
    var kept := KeptLevels(side);
    var c := ClearFlags(side);
    assert forall k :: 0 <= k < |kept| ==> kept[k] in c && IsNonZero(kept[k]);
    FilterDropsAll(IsUpdated, kept);
    assert ClearFlags(kept) == kept;
    FilterKeepsAll(IsNonZero, kept);
  }

  /** The price range GetQuantitySum covers: (finish, start] for bids, [start, finish) for asks. */
  predicate InRange(isBuy: bool, priceStart: real, priceFinish: real, price: real)
  {
    if isBuy then priceFinish < price <= priceStart else priceStart <= price < priceFinish
  }

  /** GetQuantitySum over one side. */
  function RangeSum(side: seq<Level>, isBuy: bool, priceStart: real, priceFinish: real): real
  {
    if side == [] then 0.0
    else RangeSum(side[..|side| - 1], isBuy, priceStart, priceFinish)
         + (if InRange(isBuy, priceStart, priceFinish, side[|side| - 1].price) then side[|side| - 1].quantity else 0.0)
  }

  /** A range covering every price of the side sums to the side's total. */
  lemma {:induction false} RangeSumAll(side: seq<Level>, isBuy: bool, priceStart: real, priceFinish: real)
    requires forall k :: 0 <= k < |side| ==> InRange(isBuy, priceStart, priceFinish, side[k].price)
    ensures RangeSum(side, isBuy, priceStart, priceFinish) == Total(side)
    decreases |side|
  {
    if side != [] {
      RangeSumAll(side[..|side| - 1], isBuy, priceStart, priceFinish);
    }
  }

  /** A non-zero range sum has a level inside the range. */
  lemma {:induction false} RangeSumNonZero(side: seq<Level>, isBuy: bool, priceStart: real, priceFinish: real)
    ensures RangeSum(side, isBuy, priceStart, priceFinish) != 0.0 ==>
      exists k :: 0 <= k < |side| && InRange(isBuy, priceStart, priceFinish, side[k].price)
    decreases |side|
  {
    if side != [] {
      var init := side[..|side| - 1];
      RangeSumNonZero(init, isBuy, priceStart, priceFinish);
      if RangeSum(init, isBuy, priceStart, priceFinish) != 0.0 {
        var k :| 0 <= k < |init| && InRange(isBuy, priceStart, priceFinish, init[k].price);
        assert side[k] == init[k];
      }
    }
  }

  /** Cutting a range at a middle price splits its sum into the two parts. */
  lemma {:induction false} RangeSumSplit(side: seq<Level>, isBuy: bool, priceStart: real, priceMiddle: real, priceFinish: real)
    requires if isBuy then priceFinish <= priceMiddle <= priceStart else priceStart <= priceMiddle <= priceFinish
    ensures RangeSum(side, isBuy, priceStart, priceFinish)
      == RangeSum(side, isBuy, priceStart, priceMiddle) + RangeSum(side, isBuy, priceMiddle, priceFinish)
    decreases |side|
  {
    if side != [] {
      RangeSumSplit(side[..|side| - 1], isBuy, priceStart, priceMiddle, priceFinish);
    }
  }

  /** FillQuantities: how much of asset one a walk fills, and what it costs in asset two. */
  datatype FillQuantities = FillQuantities(quantityAssetOne: real, quantityAssetTwo: real)

  /** Walking the levels in book order, filling `left` until it reaches 0. */
  function Walk(levels: seq<Level>, left: real): FillQuantities
    decreases |levels|
  {
    if levels == [] then FillQuantities(0.0, 0.0)
    else
      var filled := Min(left, levels[0].quantity);
      var rest := if left - filled == 0.0 then FillQuantities(0.0, 0.0) else Walk(levels[1..], left - filled);
      FillQuantities(filled + rest.quantityAssetOne, filled * levels[0].price + rest.quantityAssetTwo)
  }

  /**
   * With non-negative quantities, the walk fills the requested amount when
   * the side holds enough and the whole side otherwise.
   */
  lemma {:induction false} WalkFills(levels: seq<Level>, left: real)
    requires 0.0 <= left
    requires forall k :: 0 <= k < |levels| ==> 0.0 <= levels[k].quantity
    ensures Walk(levels, left).quantityAssetOne == Min(left, Total(levels))
    ensures 0.0 <= Walk(levels, left).quantityAssetOne <= left
    decreases |levels|
  {
    if levels != [] {
      TotalFront(levels);
      TotalNonNegative(levels[1..]);
      var filled := Min(left, levels[0].quantity);
      if left - filled != 0.0 {
        WalkFills(levels[1..], left - filled);
      }
    }
  }

  lemma {:induction false} TotalNonNegative(levels: seq<Level>)
    requires forall k :: 0 <= k < |levels| ==> 0.0 <= levels[k].quantity
    ensures 0.0 <= Total(levels)
    decreases |levels|
  {
    if levels != [] {
      TotalNonNegative(levels[..|levels| - 1]);
    }
  }

  /** The scan of AddDepth over one side: the new side and the chart calls it makes. */
  method ApplyDepthScan(levels: seq<Level>, isBuy: bool, price: real, quantity: real, isDelta: bool, updateId: Option<int>)
    returns (side: seq<Level>, deltas: seq<ChartDelta>)
    ensures Update(side, deltas) == ApplyDepth(levels, isBuy, price, quantity, isDelta, updateId)
  {
    var depths := levels;
    deltas := [];
    if |depths| == 0 {
      if 0.0 < quantity {
        depths := depths + [NewLevel(price, quantity, updateId)];
        deltas := [ChartDelta(isBuy, price, quantity)];
      }
      return depths, deltas;
    }
    var i := 0;
    while i < |depths|
      invariant 0 <= i <= |depths| && depths == levels && deltas == []
      invariant forall k :: 0 <= k < i ==> depths[k].price != price && !Compare(isBuy, price, depths[k].price)
    {
      if price == depths[i].price {
        LocateIs(levels, isBuy, price, i);
        if updateId.None? || depths[i].updateId < updateId.value {
          var quantityChange;
          var level := depths[i];
          if isDelta {
            var oldQuantity := level.quantity;
            level := level.(quantity := Max(level.quantity + quantity, 0.0));
            quantityChange := level.quantity - oldQuantity;
          } else {
            quantityChange := quantity - level.quantity;
            level := level.(quantity := quantity);
          }
          depths := depths[i := level.(isUpdated := true)];
          deltas := [ChartDelta(isBuy, price, quantityChange)];
        }
        return depths, deltas;
      }
      if Compare(isBuy, price, depths[i].price) {
        LocateIs(levels, isBuy, price, i);
        if 0.0 < quantity {
          depths := depths[..i] + [NewLevel(price, quantity, updateId)] + depths[i..];
          deltas := [ChartDelta(isBuy, price, quantity)];
        }
        return depths, deltas;
      }
      i := i + 1;
    }
    LocateIs(levels, isBuy, price, i);
    if 0.0 < quantity {
      assert depths[i..] == [];
      depths := depths + [NewLevel(price, quantity, updateId)];
      deltas := [ChartDelta(isBuy, price, quantity)];
    }
    side := depths;
  }

  /** The depth book of one pair. */
  class OrderBookDepth {
    var bids: seq<Level>
    var asks: seq<Level>

    ghost predicate Valid()
      reads this
    {
      Sorted(bids, true) && Sorted(asks, false)
    }

    /** The book as loaded at start-up: levels already in book order. */
    constructor (initialBids: seq<Level>, initialAsks: seq<Level>)
      requires Sorted(initialBids, true) && Sorted(initialAsks, false)
      ensures Valid() && bids == initialBids && asks == initialAsks
    {
      bids := initialBids;
      asks := initialAsks;
    }

    /** AddDepth: apply one depth update to one side, returning the chart calls it makes. */
    method AddDepth(isBuy: bool, price: real, quantity: real, isDelta: bool, updateId: Option<int>) returns (deltas: seq<ChartDelta>)
      requires Valid()
      modifies this
      ensures Valid()
      ensures isBuy ==> Update(bids, deltas) == ApplyDepth(old(bids), true, price, quantity, isDelta, updateId) && asks == old(asks)
      ensures !isBuy ==> Update(asks, deltas) == ApplyDepth(old(asks), false, price, quantity, isDelta, updateId) && bids == old(bids)
    {
      var depths := if isBuy then bids else asks;
      ApplyDepthSorted(depths, isBuy, price, quantity, isDelta, updateId);
      var side;
      side, deltas := ApplyDepthScan(depths, isBuy, price, quantity, isDelta, updateId);
      SetSide(isBuy, side);
    }

    method SetSide(isBuy: bool, depths: seq<Level>)
      modifies this
      ensures isBuy ==> bids == depths && asks == old(asks)
      ensures !isBuy ==> asks == depths && bids == old(bids)
    {
      if isBuy { bids := depths; } else { asks := depths; }
    }

    /** DeleteDepths: zero the older levels of both sides, bids first. */
    method DeleteDepths(updateId: Option<int>) returns (deltas: seq<ChartDelta>)
      requires Valid()
      modifies this
      ensures Valid()
      ensures bids == DeleteSpec(old(bids), true, updateId).side
      ensures asks == DeleteSpec(old(asks), false, updateId).side
      ensures deltas == DeleteSpec(old(bids), true, updateId).deltas + DeleteSpec(old(asks), false, updateId).deltas
    {
      DeleteSorted(bids, true, updateId);
      DeleteSorted(asks, false, updateId);
      var bidDeltas, askDeltas;
      bids, bidDeltas := DeleteOrderDepths(bids, true, updateId);
      asks, askDeltas := DeleteOrderDepths(asks, false, updateId);
      deltas := bidDeltas + askDeltas;
    }

    /** GetUpdatedDepths: hand out the flagged levels of both sides and prune zero levels. */
    method GetUpdatedDepths() returns (updatedBids: seq<Level>, updatedAsks: seq<Level>)
      requires Valid()
      modifies this
      ensures Valid()
      ensures updatedBids == UpdatedLevels(old(bids)) && bids == KeptLevels(old(bids))
      ensures updatedAsks == UpdatedLevels(old(asks)) && asks == KeptLevels(old(asks))
    {
      HarvestSide(bids, true);
      HarvestSide(asks, false);
      updatedBids := UpdatedLevels(bids);
      bids := KeptLevels(bids);
      updatedAsks := UpdatedLevels(asks);
      asks := KeptLevels(asks);
    }

    /** GetQuantitySum of one side over its half-open range. */
    function GetQuantitySum(isBuy: bool, priceStart: real, priceFinish: real): real
      reads this
    {
      RangeSum(if isBuy then bids else asks, isBuy, priceStart, priceFinish)
    }

    /**
     * ComputeAssetTwoQuantity: walk the opposite side (asks for a buy) filling
     * `quantityAssetOne`; report what was filled and what it costs.
     */
    method ComputeAssetTwoQuantity(isBuy: bool, quantityAssetOne: real) returns (r: FillQuantities)
      ensures r == Walk(if isBuy then asks else bids, quantityAssetOne)
    {
      var depths := if isBuy then asks else bids;
      var i := 0;
      var quantityLeft := quantityAssetOne;
      var quantityAssetTwo := 0.0;
      while i < |depths|
        invariant 0 <= i <= |depths|
        invariant Walk(depths, quantityAssetOne) == FillQuantities(
          quantityAssetOne - quantityLeft + Walk(depths[i..], quantityLeft).quantityAssetOne,
          quantityAssetTwo + Walk(depths[i..], quantityLeft).quantityAssetTwo)
      {
        var quantityFilled := Min(quantityLeft, depths[i].quantity);
        assert depths[i..][0] == depths[i] && depths[i..][1..] == depths[i + 1..];
        quantityAssetTwo := quantityAssetTwo + quantityFilled * depths[i].price;
        quantityLeft := quantityLeft - quantityFilled;
        if quantityLeft == 0.0 {
          break;
        }
        i := i + 1;
      }
      r := FillQuantities(quantityAssetOne - quantityLeft, quantityAssetTwo);
    }
  }
}
