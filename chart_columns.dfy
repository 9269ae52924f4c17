/**
 * The display buckets of one side of the order book chart and the list
 * surgery OrderBookChart performs on them: find, remove with stitching,
 * merge the narrowest pair, split at the rounded midpoint, and place a new
 * bucket at one end.  A bid bucket covers (priceFinish, priceStart], an ask
 * bucket [priceStart, priceFinish); consecutive buckets meet.
 */
module ChartColumns {
  import opened Wrappers
  import opened DataModels
  import opened Decimals
  import D = OrderBookDepth

  /** COLUMN_NUMBER: the most buckets a side is meant to keep. */
  const ColumnNumber: int := 100

  function Abs(x: real): (r: real)
    ensures 0.0 <= r && (r == x || r == -x)
  {
    if x < 0.0 then -x else x
  }

  /** The bucket covers the price; the same half-open range GetQuantitySum sums over. */
  predicate Contains(c: Column, isBuy: bool, price: real)
  {
    D.InRange(isBuy, c.priceStart, c.priceFinish, price)
  }

  /** Bid buckets run downwards (start > finish), ask buckets upwards. */
  predicate Oriented(c: Column, isBuy: bool)
  {
    if isBuy then c.priceFinish < c.priceStart else c.priceStart < c.priceFinish
  }

  /** The structural invariant IntegrityCheck tests: every bucket oriented, each ends where the next starts. */
  predicate Chain(columns: seq<Column>, isBuy: bool)
  {
    (forall i :: 0 <= i < |columns| ==> Oriented(columns[i], isBuy))
    && (forall i :: 0 <= i < |columns| - 1 ==> columns[i].priceFinish == columns[i + 1].priceStart)
  }

  /** Every bucket boundary has at most d decimals. */
  ghost predicate Grid(columns: seq<Column>, d: nat)
  {
    forall i :: 0 <= i < |columns| ==> OnGrid(columns[i].priceStart, d) && OnGrid(columns[i].priceFinish, d)
  }

  /** One side of the chart: its buckets and the buckets removed since the last harvest. */
  datatype Side = Side(columns: seq<Column>, removed: seq<Column>)

  /** The total quantity shown by a list of buckets. */
  function ColumnTotal(columns: seq<Column>): real
  {
    if columns == [] then 0.0 else ColumnTotal(columns[..|columns| - 1]) + columns[|columns| - 1].quantity
  }

  lemma {:induction false} ColumnTotalAppend(a: seq<Column>, b: seq<Column>)
    ensures ColumnTotal(a + b) == ColumnTotal(a) + ColumnTotal(b)
    decreases |b|
  {
    if b == [] {
      assert a + b == a;
    } else {
      assert (a + b)[..|a + b| - 1] == a + b[..|b| - 1];
      ColumnTotalAppend(a, b[..|b| - 1]);
    }
  }

  lemma ColumnTotalSingle(c: Column)
    ensures ColumnTotal([c]) == c.quantity
  {
    assert [c][..0] == [];
  }

  /** The first bucket containing the price, if any (the search loop of AddDepth). */
  function FindColumn(columns: seq<Column>, isBuy: bool, price: real): (r: Option<nat>)
    ensures r.Some? ==> r.value < |columns| && Contains(columns[r.value], isBuy, price)
    ensures r.Some? ==> forall k :: 0 <= k < r.value ==> !Contains(columns[k], isBuy, price)
    ensures r.None? ==> forall k :: 0 <= k < |columns| ==> !Contains(columns[k], isBuy, price)
  {
    FindFrom(columns, isBuy, price, 0)
  }

  function FindFrom(columns: seq<Column>, isBuy: bool, price: real, i: nat): (r: Option<nat>)
    requires i <= |columns|
    ensures r.Some? ==> i <= r.value < |columns| && Contains(columns[r.value], isBuy, price)
    ensures r.Some? ==> forall k :: i <= k < r.value ==> !Contains(columns[k], isBuy, price)
    ensures r.None? ==> forall k :: i <= k < |columns| ==> !Contains(columns[k], isBuy, price)
    decreases |columns| - i
  {
    if i == |columns| then None
    else if Contains(columns[i], isBuy, price) then Some(i)
    else FindFrom(columns, isBuy, price, i + 1)
  }

  /** On a chain the buckets do not overlap, so at most one contains a price. */
  lemma ChainContainsUnique(columns: seq<Column>, isBuy: bool, price: real, j: nat, k: nat)
    requires Chain(columns, isBuy) && j < k < |columns|
    ensures !(Contains(columns[j], isBuy, price) && Contains(columns[k], isBuy, price))
  {
    var m := j + 1;
    while m < k
      invariant j < m <= k
      invariant if isBuy then columns[m].priceStart <= columns[j].priceFinish else columns[j].priceFinish <= columns[m].priceStart
    {
      m := m + 1;
    }
  }

  /** On a chain, a bucket that contains the price is the one the search finds. */
  lemma ChainFind(columns: seq<Column>, isBuy: bool, price: real, k: nat)
    requires Chain(columns, isBuy) && k < |columns| && Contains(columns[k], isBuy, price)
    ensures FindColumn(columns, isBuy, price) == Some(k)
  {
    forall j | 0 <= j < k
      ensures !Contains(columns[j], isBuy, price)
    {
      ChainContainsUnique(columns, isBuy, price, j, k);
    }
  }

  /** Math.Round((start + finish) / 2, d): where a bucket is cut or its neighbours are stitched. */
  function Midpoint(c: Column, d: nat): real
  {
    Round((c.priceStart + c.priceFinish) / 2.0, d)
  }

  /** The rounded midpoint lies within the bucket's closed range. */
  predicate StitchInside(c: Column, isBuy: bool, d: nat)
  {
    if isBuy then c.priceFinish <= Midpoint(c, d) <= c.priceStart
    else c.priceStart <= Midpoint(c, d) <= c.priceFinish
  }

  /** A bucket whose bounds have at most d decimals always has its midpoint inside. */
  lemma GridStitchInside(c: Column, isBuy: bool, d: nat)
    requires Oriented(c, isBuy) && OnGrid(c.priceStart, d) && OnGrid(c.priceFinish, d)
    ensures StitchInside(c, isBuy, d)
  {
    var m := (c.priceStart + c.priceFinish) / 2.0;
    if isBuy {
      RoundBetween(c.priceFinish, m, c.priceStart, d);
    } else {
      RoundBetween(c.priceStart, m, c.priceFinish, d);
    }
  }

  /** The neighbours of an interior bucket both move their shared bounds to `price`. */
  function Stitch(columns: seq<Column>, index: nat, price: real): seq<Column>
    requires 0 < index < |columns| - 1
  {
    columns[index - 1 := columns[index - 1].(priceFinish := price)][index + 1 := columns[index + 1].(priceStart := price)]
  }

  /**
   * RemoveColumn without the follow-up split: an interior bucket's neighbours
   * are stitched at its rounded midpoint, the bucket is zeroed, unflagged and
   * moved to the removed list.
   */
  function RemoveAt(s: Side, index: nat, d: nat): (r: Side)
    requires index < |s.columns|
    ensures |r.columns| == |s.columns| - 1
    ensures forall k :: 0 <= k < |r.columns| && k != index - 1 && k != index ==>
      r.columns[k] == if k < index then s.columns[k] else s.columns[k + 1]
    ensures r.removed == s.removed + [s.columns[index].(quantity := 0.0, isUpdated := false)]
  {
    var columns := s.columns;
    var stitched := if 0 < index < |columns| - 1 then Stitch(columns, index, Midpoint(columns[index], d)) else columns;
    Side(stitched[..index] + stitched[index + 1..], s.removed + [columns[index].(quantity := 0.0, isUpdated := false)])
  }

  /** Removing an end bucket, or an interior one whose midpoint is inside it, keeps the chain. */
  lemma RemoveAtChain(s: Side, isBuy: bool, index: nat, d: nat)
    requires Chain(s.columns, isBuy) && index < |s.columns|
    requires 0 < index < |s.columns| - 1 ==> StitchInside(s.columns[index], isBuy, d)
    ensures Chain(RemoveAt(s, index, d).columns, isBuy)
  {
    var cs := s.columns;
    var r := RemoveAt(s, index, d).columns;
    if 0 < index < |cs| - 1 {
      var p := Midpoint(cs[index], d);
      assert r[index - 1] == cs[index - 1].(priceFinish := p);
      assert r[index] == cs[index + 1].(priceStart := p);
      assert Oriented(r[index - 1], isBuy) && Oriented(r[index], isBuy);
      forall i | 0 <= i < |r| - 1
        ensures r[i].priceFinish == r[i + 1].priceStart
      {
        if i < index - 1 {
          assert r[i] == cs[i];
          if i + 1 < index - 1 { assert r[i + 1] == cs[i + 1]; }
        } else if index < i {
          assert r[i] == cs[i + 1] && r[i + 1] == cs[i + 2];
        } else if i == index {
          assert r[i + 1] == cs[i + 2];
        }
      }
    } else {
      assert forall k :: 0 <= k < |r| ==> r[k] == if k < index then cs[k] else cs[k + 1];
    }
  }

  /** Removal keeps every bound on the grid: the stitch price is rounded to d decimals. */
  lemma RemoveAtGrid(s: Side, index: nat, d: nat)
    requires Grid(s.columns, d) && index < |s.columns|
    ensures Grid(RemoveAt(s, index, d).columns, d)
  {
    var cs := s.columns;
    var r := RemoveAt(s, index, d).columns;
    if 0 < index < |cs| - 1 {
      RoundIsOnGrid((cs[index].priceStart + cs[index].priceFinish) / 2.0, d);
      assert r[index - 1] == cs[index - 1].(priceFinish := Midpoint(cs[index], d));
      assert r[index] == cs[index + 1].(priceStart := Midpoint(cs[index], d));
    }
  }

  /** The merge span of buckets i and i+1, as the source measures it. */
  function Span(columns: seq<Column>, i: nat): real
    requires i + 1 < |columns|
  {
    Abs(columns[i].priceStart - Abs(columns[i + 1].priceFinish))
  }

  /** The first index in [1, |columns|-2] with the smallest span: the bucket MergeTwoColumns widens. */
  function MergeIndex(columns: seq<Column>): (index: nat)
    requires 3 <= |columns|
    ensures 1 <= index <= |columns| - 2
    ensures forall i :: 1 <= i <= |columns| - 2 ==> Span(columns, index) <= Span(columns, i)
    ensures forall i :: 1 <= i < index ==> Span(columns, index) < Span(columns, i)
  {
    MinSpanFrom(columns, 2, 1)
  }

  function MinSpanFrom(columns: seq<Column>, i: nat, best: nat): (index: nat)
    requires 1 <= best < i <= |columns| - 1
    requires forall k :: 1 <= k < i ==> Span(columns, best) <= Span(columns, k)
    requires forall k :: 1 <= k < best ==> Span(columns, best) < Span(columns, k)
    ensures 1 <= index <= |columns| - 2
    ensures forall k :: 1 <= k <= |columns| - 2 ==> Span(columns, index) <= Span(columns, k)
    ensures forall k :: 1 <= k < index ==> Span(columns, index) < Span(columns, k)
    decreases |columns| - i
  {
    if i == |columns| - 1 then best
    else MinSpanFrom(columns, i + 1, if Span(columns, i) < Span(columns, best) then i else best)
  }

  /**
   * MergeTwoColumns: bucket `index` absorbs bucket `index + 1`; the absorbed
   * bucket is zeroed, unflagged and moved to the removed list.  Sides of
   * fewer than three buckets are left alone, so bucket 0 is never merged.
   */
  function Merge(s: Side): Side
  {
    var cs := s.columns;
    if |cs| < 3 then s
    else
      var i := MergeIndex(cs);
      Side(cs[..i] + [cs[i].(priceFinish := cs[i + 1].priceFinish, quantity := cs[i].quantity + cs[i + 1].quantity, isUpdated := true)] + cs[i + 2..],
           s.removed + [cs[i + 1].(quantity := 0.0, isUpdated := false)])
  }

  /**
   * What a merge does: nothing below three buckets; otherwise one bucket
   * fewer, bucket 0 and everything before the merge index untouched, the
   * total quantity kept, and the absorbed bucket appended to the removed
   * list with quantity 0.
   */
  lemma MergeEffect(s: Side)
    ensures |s.columns| < 3 ==> Merge(s) == s
    ensures 3 <= |s.columns| ==>
      var i := MergeIndex(s.columns);
      var r := Merge(s);
      |r.columns| == |s.columns| - 1
      && r.columns[..i] == s.columns[..i]
      && r.columns[0] == s.columns[0]
      && r.columns[i].priceStart == s.columns[i].priceStart
      && r.columns[i].priceFinish == s.columns[i + 1].priceFinish
      && r.columns[i].isUpdated
      && r.columns[i + 1..] == s.columns[i + 2..]
      && ColumnTotal(r.columns) == ColumnTotal(s.columns)
      && r.removed == s.removed + [s.columns[i + 1].(quantity := 0.0, isUpdated := false)]
  {
    var cs := s.columns;
    if 3 <= |cs| {
      var i := MergeIndex(cs);
      var m := cs[i].(priceFinish := cs[i + 1].priceFinish, quantity := cs[i].quantity + cs[i + 1].quantity, isUpdated := true);
      var r := Merge(s).columns;
      assert r == cs[..i] + [m] + cs[i + 2..];
      assert cs == cs[..i] + [cs[i], cs[i + 1]] + cs[i + 2..];
      assert [cs[i], cs[i + 1]] == [cs[i]] + [cs[i + 1]];
      ColumnTotalAppend(cs[..i] + [m], cs[i + 2..]);
      ColumnTotalAppend(cs[..i], [m]);
      ColumnTotalAppend(cs[..i] + [cs[i], cs[i + 1]], cs[i + 2..]);
      ColumnTotalAppend(cs[..i], [cs[i], cs[i + 1]]);
      ColumnTotalAppend([cs[i]], [cs[i + 1]]);
      ColumnTotalSingle(m);
      ColumnTotalSingle(cs[i]);
      ColumnTotalSingle(cs[i + 1]);
    }
  }

  /** A merge keeps the chain. */
  lemma MergeChain(s: Side, isBuy: bool)
    requires Chain(s.columns, isBuy)
    ensures Chain(Merge(s).columns, isBuy)
  {
    var cs := s.columns;
    if 3 <= |cs| {
      var i := MergeIndex(cs);
      var r := Merge(s).columns;
      assert forall k :: 0 <= k < |r| ==> r[k] == if k < i then cs[k] else if k == i then r[i] else cs[k + 1];
      assert Oriented(r[i], isBuy);
      forall k | 0 <= k < |r| - 1
        ensures r[k].priceFinish == r[k + 1].priceStart
      {
        if k + 1 == i {
          assert r[k] == cs[k];
        } else if k == i {
          assert r[k + 1] == cs[k + 2];
        }
      }
    }
  }

  /** A merge keeps every bound on the grid: it only drops a bound. */
  lemma MergeGrid(s: Side, d: nat)
    requires Grid(s.columns, d)
    ensures Grid(Merge(s).columns, d)
  {
    var cs := s.columns;
    if 3 <= |cs| {
      var i := MergeIndex(cs);
      var r := Merge(s).columns;
      assert forall k :: 0 <= k < |r| ==> r[k] == if k < i then cs[k] else if k == i then r[i] else cs[k + 1];
    }
  }

  /** `while (COLUMN_NUMBER < columns.Count) MergeTwoColumns(...)`. */
  function MergeDown(s: Side): (r: Side)
    ensures |s.columns| <= ColumnNumber ==> r == s
    ensures ColumnNumber < |s.columns| ==> |r.columns| == ColumnNumber
    decreases |s.columns|
  {
    if |s.columns| <= ColumnNumber then s
    else
      MergeEffect(s);
      MergeDown(Merge(s))
  }

  /** Merging down keeps the chain and the grid, and the total shown quantity. */
  lemma {:induction false} MergeDownKeeps(s: Side, isBuy: bool, d: nat)
    ensures Chain(s.columns, isBuy) ==> Chain(MergeDown(s).columns, isBuy)
    ensures Grid(s.columns, d) ==> Grid(MergeDown(s).columns, d)
    ensures ColumnTotal(MergeDown(s).columns) == ColumnTotal(s.columns)
    decreases |s.columns|
  {
    if ColumnNumber < |s.columns| {
      MergeEffect(s);
      if Chain(s.columns, isBuy) { MergeChain(s, isBuy); }
      if Grid(s.columns, d) { MergeGrid(s, d); }
      MergeDownKeeps(Merge(s), isBuy, d);
    }
  }

  /** The outcome of TrySplittingAColumn: the new side and whether the caller must stop trying. */
  datatype Attempt = Attempt(side: Side, done: bool)

  /**
   * TrySplittingAColumn at `index`, using the depth side to weigh the two
   * halves of the bucket cut at its rounded midpoint.
   */
  function TrySplit(s: Side, depth: seq<Level>, isBuy: bool, index: nat, d: nat): (r: Attempt)
    requires index < |s.columns|
    ensures !r.done ==> |r.side.columns| == |s.columns| && r.side.removed == s.removed
  {
    var cs := s.columns;
    var c := cs[index];
    var split := Midpoint(c, d);
    if split == c.priceStart || split == c.priceFinish then
      if D.RangeSum(depth, isBuy, c.priceStart, c.priceFinish) == 0.0 then Attempt(RemoveAt(s, index, d), true)
      else Attempt(s, true)
    else
      var quantityOne := D.RangeSum(depth, isBuy, c.priceStart, split);
      var quantityTwo := D.RangeSum(depth, isBuy, split, c.priceFinish);
      if quantityOne == 0.0 && quantityTwo == 0.0 then Attempt(RemoveAt(s, index, d), true)
      else if quantityOne == 0.0 && index == 0 then
        Attempt(s.(columns := cs[index := c.(priceStart := split, isUpdated := true)]), false)
      else if quantityTwo == 0.0 && index == |cs| - 1 then
        Attempt(s.(columns := cs[index := c.(priceFinish := split, isUpdated := true)]), false)
      else if quantityOne == 0.0 || quantityTwo == 0.0 then Attempt(s, false)
      else
        Attempt(s.(columns := cs[..index]
                    + [c.(priceFinish := split, quantity := quantityOne, isUpdated := true),
                       Column(split, c.priceFinish, quantityTwo, true)]
                    + cs[index + 1..]), true)
  }

  /** A non-zero depth sum over a bucket-shaped range means the range is not empty. */
  lemma NonZeroRangeIsProper(depth: seq<Level>, isBuy: bool, priceStart: real, priceFinish: real)
    requires D.RangeSum(depth, isBuy, priceStart, priceFinish) != 0.0
    ensures if isBuy then priceFinish < priceStart else priceStart < priceFinish
  {
    D.RangeSumNonZero(depth, isBuy, priceStart, priceFinish);
  }

  /**
   * A successful cut replaces the bucket by two that meet at the rounded
   * midpoint, strictly inside it, whose quantities are the depth sums of the
   * two halves and add up to the depth sum of the whole bucket.
   */
  lemma TrySplitCut(s: Side, depth: seq<Level>, isBuy: bool, index: nat, d: nat)
    requires index < |s.columns|
    requires var c := s.columns[index]; var split := Midpoint(c, d);
      split != c.priceStart && split != c.priceFinish
      && D.RangeSum(depth, isBuy, c.priceStart, split) != 0.0
      && D.RangeSum(depth, isBuy, split, c.priceFinish) != 0.0
    ensures var c := s.columns[index]; var split := Midpoint(c, d);
      var r := TrySplit(s, depth, isBuy, index, d);
      r.done
      && |r.side.columns| == |s.columns| + 1
      && r.side.columns[index] == c.(priceFinish := split, quantity := D.RangeSum(depth, isBuy, c.priceStart, split), isUpdated := true)
      && r.side.columns[index + 1] == Column(split, c.priceFinish, D.RangeSum(depth, isBuy, split, c.priceFinish), true)
      && Oriented(r.side.columns[index], isBuy) && Oriented(r.side.columns[index + 1], isBuy)
      && r.side.columns[index].quantity + r.side.columns[index + 1].quantity == D.RangeSum(depth, isBuy, c.priceStart, c.priceFinish)
  {
    var c := s.columns[index];
    var split := Midpoint(c, d);
    NonZeroRangeIsProper(depth, isBuy, c.priceStart, split);
    NonZeroRangeIsProper(depth, isBuy, split, c.priceFinish);
    D.RangeSumSplit(depth, isBuy, c.priceStart, split, c.priceFinish);
  }

  /** At an interior index, a cut with exactly one empty half is refused and changes nothing. */
  lemma TrySplitRefused(s: Side, depth: seq<Level>, isBuy: bool, index: nat, d: nat)
    requires 0 < index < |s.columns| - 1
    requires var c := s.columns[index]; var split := Midpoint(c, d);
      split != c.priceStart && split != c.priceFinish
      && (D.RangeSum(depth, isBuy, c.priceStart, split) == 0.0) != (D.RangeSum(depth, isBuy, split, c.priceFinish) == 0.0)
    ensures TrySplit(s, depth, isBuy, index, d) == Attempt(s, false)
  {
  }

  /**
   * Every outcome of a split attempt keeps the chain; only the removal of an
   * interior bucket with both halves empty needs its midpoint inside it.
   */
  lemma TrySplitChain(s: Side, depth: seq<Level>, isBuy: bool, index: nat, d: nat)
    requires index < |s.columns| && Chain(s.columns, isBuy)
    requires 0 < index < |s.columns| - 1 ==> StitchInside(s.columns[index], isBuy, d)
    ensures Chain(TrySplit(s, depth, isBuy, index, d).side.columns, isBuy)
  {
    var cs := s.columns;
    var c := cs[index];
    var split := Midpoint(c, d);
    var r := TrySplit(s, depth, isBuy, index, d).side.columns;
    var quantityOne := D.RangeSum(depth, isBuy, c.priceStart, split);
    var quantityTwo := D.RangeSum(depth, isBuy, split, c.priceFinish);
    if split == c.priceStart || split == c.priceFinish || (quantityOne == 0.0 && quantityTwo == 0.0) {
      if r != cs {
        RemoveAtChain(s, isBuy, index, d);
      }
    } else if quantityOne == 0.0 && index == 0 {
      NonZeroRangeIsProper(depth, isBuy, split, c.priceFinish);
      assert forall k :: 0 < k < |r| ==> r[k] == cs[k];
    } else if quantityTwo == 0.0 && index == |cs| - 1 {
      NonZeroRangeIsProper(depth, isBuy, c.priceStart, split);
      assert forall k :: 0 <= k < |r| - 1 ==> r[k] == cs[k];
    } else if quantityOne != 0.0 && quantityTwo != 0.0 {
      TrySplitCut(s, depth, isBuy, index, d);
      assert forall k :: 0 <= k < |r| ==> r[k] == if k < index then cs[k] else if k > index + 1 then cs[k - 1] else r[k];
      forall k | 0 <= k < |r| - 1
        ensures r[k].priceFinish == r[k + 1].priceStart
      {
        if k + 1 == index {
          assert r[k] == cs[k];
        } else if k == index + 1 {
          assert r[k + 1] == cs[k];
        }
      }
    }
  }

  /** Split attempts keep every bound on the grid: the cut price is rounded to d decimals. */
  lemma TrySplitGrid(s: Side, depth: seq<Level>, isBuy: bool, index: nat, d: nat)
    requires index < |s.columns| && Grid(s.columns, d)
    ensures Grid(TrySplit(s, depth, isBuy, index, d).side.columns, d)
  {
    var cs := s.columns;
    var c := cs[index];
    var r := TrySplit(s, depth, isBuy, index, d);
    RoundIsOnGrid((c.priceStart + c.priceFinish) / 2.0, d);
    RemoveAtGrid(s, index, d);
    if r.side != RemoveAt(s, index, d) && |r.side.columns| == |cs| + 1 {
      assert forall k :: 0 <= k < |r.side.columns| ==> r.side.columns[k] == if k < index then cs[k] else if k > index + 1 then cs[k - 1] else r.side.columns[k];
    } else if r.side != RemoveAt(s, index, d) {
      assert forall k :: 0 <= k < |cs| && k != index ==> r.side.columns[k] == cs[k];
    }
  }

  /** ColumnData: what SplitOneColumn sorts the buckets by. */
  datatype ColumnData = ColumnData(index: nat, range: real, quantity: real)

  /** ColumnDataComparer: larger quantity first, then wider range; 0 when both tie. */
  function DataCompare(one: ColumnData, two: ColumnData): int
  {
    if one.quantity < two.quantity then 1
    else if one.quantity > two.quantity then -1
    else if one.range < two.range then 1
    else if one.range > two.range then -1
    else 0
  }

  /** `one` comes no later than `two` in the comparer's order. */
  predicate Before(one: ColumnData, two: ColumnData)
  {
    DataCompare(one, two) <= 0
  }

  /** The comparer is a total preorder: antisymmetric in sign, total and transitive. */
  lemma ComparerIsOrder(a: ColumnData, b: ColumnData, c: ColumnData)
    ensures DataCompare(a, b) == -DataCompare(b, a)
    ensures Before(a, b) || Before(b, a)
    ensures Before(a, b) && Before(b, c) ==> Before(a, c)
    ensures DataCompare(a, b) == 0 <==> a.quantity == b.quantity && a.range == b.range
  {
  }

  predicate SortedData(ds: seq<ColumnData>)
  {
    forall i, j :: 0 <= i < j < |ds| ==> Before(ds[i], ds[j])
  }

  function InsertData(x: ColumnData, ds: seq<ColumnData>): (r: seq<ColumnData>)
    ensures multiset(r) == multiset(ds) + multiset{x}
    ensures |r| == |ds| + 1
  {
    if ds == [] then [x]
    else
      assert ds == [ds[0]] + ds[1..];
      if Before(x, ds[0]) then [x] + ds
    else [ds[0]] + InsertData(x, ds[1..])
  }

  /** Array.Sort with ColumnDataComparer, as an insertion sort. */
  function SortData(ds: seq<ColumnData>): (r: seq<ColumnData>)
    ensures multiset(r) == multiset(ds)
    ensures |r| == |ds|
  {
    if ds == [] then [] else
      assert ds == [ds[0]] + ds[1..];
      InsertData(ds[0], SortData(ds[1..]))
  }

  lemma {:induction false} InsertDataSorted(x: ColumnData, ds: seq<ColumnData>)
    requires SortedData(ds)
    ensures SortedData(InsertData(x, ds))
    decreases |ds|
  {
    if ds != [] && !Before(x, ds[0]) {
      InsertDataSorted(x, ds[1..]);
      var r := InsertData(x, ds);
      var tail := InsertData(x, ds[1..]);
      assert r == [ds[0]] + tail;
      forall j | 0 < j < |r|
        ensures Before(ds[0], r[j])
      {
        assert r[j] in multiset(tail);
        assert r[j] in multiset(ds[1..]) + multiset{x};
        if r[j] == x {
          ComparerIsOrder(x, ds[0], ds[0]);
        } else {
          assert r[j] in ds[1..];
        }
      }
    } else if ds != [] {
      forall j | 0 < j < |ds|
        ensures Before(x, ds[j])
      {
        ComparerIsOrder(x, ds[0], ds[j]);
      }
    }
  }

  /** The sort puts the buckets in the comparer's order and loses or adds none. */
  lemma {:induction false} SortDataSorted(ds: seq<ColumnData>)
    ensures SortedData(SortData(ds))
    ensures multiset(SortData(ds)) == multiset(ds)
    decreases |ds|
  {
    if ds != [] {
      SortDataSorted(ds[1..]);
      InsertDataSorted(ds[0], SortData(ds[1..]));
    }
  }

  /** The sort keys of the buckets: position, width and quantity. */
  function ColumnDatas(columns: seq<Column>): (r: seq<ColumnData>)
    ensures |r| == |columns|
    ensures forall i :: 0 <= i < |columns| ==>
      r[i] == ColumnData(i, Abs(columns[i].priceStart - columns[i].priceFinish), columns[i].quantity)
  {
    seq(|columns|, i requires 0 <= i < |columns| => ColumnData(i, Abs(columns[i].priceStart - columns[i].priceFinish), columns[i].quantity))
  }

  /** The indexes SplitOneColumn tries, in order: the first min(count, 5) of the sorted data. */
  function Candidates(columns: seq<Column>): (r: seq<nat>)
    ensures |r| == if |columns| < 5 then |columns| else 5
    ensures forall k :: 0 <= k < |r| ==> r[k] < |columns|
  {
    var sorted := SortData(ColumnDatas(columns));
    var number := if |columns| < 5 then |columns| else 5;
    SortDataSorted(ColumnDatas(columns));
    seq(number, k requires 0 <= k < number => CandidateIndex(columns, sorted, k))
  }

  function CandidateIndex(columns: seq<Column>, sorted: seq<ColumnData>, k: nat): (i: nat)
    requires multiset(sorted) == multiset(ColumnDatas(columns)) && k < |sorted|
    ensures i < |columns|
  {
    assert sorted[k] in multiset(ColumnDatas(columns));
    sorted[k].index
  }

  /**
   * The candidates are distinct buckets, heaviest first and, among equal
   * quantities, widest first; no untried bucket beats a tried one.
   */
  lemma CandidatesOrdered(columns: seq<Column>)
    ensures var r := Candidates(columns);
      (forall j, k :: 0 <= j < k < |r| ==> r[j] != r[k])
      && (forall j, k :: 0 <= j < k < |r| ==>
            columns[r[j]].quantity > columns[r[k]].quantity
            || (columns[r[j]].quantity == columns[r[k]].quantity
                && Abs(columns[r[j]].priceStart - columns[r[j]].priceFinish) >= Abs(columns[r[k]].priceStart - columns[r[k]].priceFinish)))
  {
    var ds := ColumnDatas(columns);
    var sorted := SortData(ds);
    SortDataSorted(ds);
    var r := Candidates(columns);
    forall k | 0 <= k < |r|
      ensures sorted[k] == ds[r[k]]
    {
      assert sorted[k] in multiset(ds);
    }
    forall j, k | 0 <= j < k < |r|
      ensures r[j] != r[k]
    {
      SortedDistinct(ds, sorted, j, k);
    }
  }

  /** Data whose every element sits at its own index holds each element once. */
  lemma IndexedOnce(ds: seq<ColumnData>, x: ColumnData)
    requires forall i :: 0 <= i < |ds| ==> ds[i].index == i
    requires x in ds
    ensures multiset(ds)[x] == 1
  {
    var m :| 0 <= m < |ds| && ds[m] == x;
    assert ds == ds[..m] + [ds[m]] + ds[m + 1..];
    assert forall n :: 0 <= n < m ==> ds[..m][n].index < m;
    assert forall y :: y in ds[m + 1..] ==> y.index > m;
    assert multiset(ds[..m])[x] == 0;
    assert multiset(ds[m + 1..])[x] == 0;
  }

  /** Two positions of a permutation of distinct-index data never hold the same element. */
  lemma SortedDistinct(ds: seq<ColumnData>, sorted: seq<ColumnData>, j: nat, k: nat)
    requires forall i :: 0 <= i < |ds| ==> ds[i].index == i
    requires multiset(sorted) == multiset(ds) && j < k < |sorted|
    ensures sorted[j] != sorted[k]
  {
    var x := sorted[j];
    assert x in multiset(ds);
    IndexedOnce(ds, x);
    assert sorted == sorted[..k] + [sorted[k]] + sorted[k + 1..];
    assert sorted[..k][j] == x;
    assert multiset(sorted)[sorted[k]] == multiset(sorted[..k])[sorted[k]] + 1 + multiset(sorted[k + 1..])[sorted[k]];
    assert multiset(sorted[..k])[x] >= 1;
  }

  /** The attempt loop of SplitOneColumn: stop at the first attempt that reports success. */
  function Attempts(s: Side, depth: seq<Level>, isBuy: bool, order: seq<nat>, d: nat): Side
    requires forall k :: 0 <= k < |order| ==> order[k] < |s.columns|
    decreases |order|
  {
    if order == [] then s
    else
      var r := TrySplit(s, depth, isBuy, order[0], d);
      if r.done then r.side else Attempts(r.side, depth, isBuy, order[1..], d)
  }

  /** One step of the attempt loop, from position i of the order. */
  lemma AttemptsFrom(s: Side, depth: seq<Level>, isBuy: bool, order: seq<nat>, i: nat, d: nat)
    requires i < |order| && forall k :: 0 <= k < |order| ==> order[k] < |s.columns|
    ensures var r := TrySplit(s, depth, isBuy, order[i], d);
      !r.done ==> forall k :: 0 <= k < |order| ==> order[k] < |r.side.columns|
    ensures var r := TrySplit(s, depth, isBuy, order[i], d);
      Attempts(s, depth, isBuy, order[i..], d) == if r.done then r.side else Attempts(r.side, depth, isBuy, order[i + 1..], d)
  {
    assert order[i..][0] == order[i] && order[i..][1..] == order[i + 1..];
  }

  /** SplitOneColumn. */
  function SplitOne(s: Side, depth: seq<Level>, isBuy: bool, d: nat): Side
  {
    if |s.columns| < 1 then s else Attempts(s, depth, isBuy, Candidates(s.columns), d)
  }

  lemma {:induction false} AttemptsKeep(s: Side, depth: seq<Level>, isBuy: bool, order: seq<nat>, d: nat)
    requires forall k :: 0 <= k < |order| ==> order[k] < |s.columns|
    requires Chain(s.columns, isBuy) && Grid(s.columns, d)
    ensures Chain(Attempts(s, depth, isBuy, order, d).columns, isBuy)
    ensures Grid(Attempts(s, depth, isBuy, order, d).columns, d)
    decreases |order|
  {
    if order != [] {
      GridStitchInside(s.columns[order[0]], isBuy, d);
      TrySplitChain(s, depth, isBuy, order[0], d);
      TrySplitGrid(s, depth, isBuy, order[0], d);
      var r := TrySplit(s, depth, isBuy, order[0], d);
      if !r.done {
        AttemptsKeep(r.side, depth, isBuy, order[1..], d);
      }
    }
  }

  /** SplitOneColumn keeps the chain and the grid. */
  lemma SplitOneKeeps(s: Side, depth: seq<Level>, isBuy: bool, d: nat)
    requires Chain(s.columns, isBuy) && Grid(s.columns, d)
    ensures Chain(SplitOne(s, depth, isBuy, d).columns, isBuy)
    ensures Grid(SplitOne(s, depth, isBuy, d).columns, d)
  {
    if 1 <= |s.columns| {
      AttemptsKeep(s, depth, isBuy, Candidates(s.columns), d);
    }
  }

  /** RemoveColumn: remove, then (when asked and the side is not over full) try one split. */
  function RemoveColumnSpec(s: Side, depth: seq<Level>, isBuy: bool, index: nat, isSplit: bool, d: nat): Side
    requires index < |s.columns|
  {
    var r := RemoveAt(s, index, d);
    if isSplit && |r.columns| <= ColumnNumber then SplitOne(r, depth, isBuy, d) else r
  }

  /** RemoveColumn keeps the chain and the grid of a side whose bounds are on the grid. */
  lemma RemoveColumnKeeps(s: Side, depth: seq<Level>, isBuy: bool, index: nat, isSplit: bool, d: nat)
    requires index < |s.columns| && Chain(s.columns, isBuy) && Grid(s.columns, d)
    ensures Chain(RemoveColumnSpec(s, depth, isBuy, index, isSplit, d).columns, isBuy)
    ensures Grid(RemoveColumnSpec(s, depth, isBuy, index, isSplit, d).columns, d)
  {
    GridStitchInside(s.columns[index], isBuy, d);
    RemoveAtChain(s, isBuy, index, d);
    RemoveAtGrid(s, index, d);
    var r := RemoveAt(s, index, d);
    if isSplit && |r.columns| <= ColumnNumber {
      SplitOneKeeps(r, depth, isBuy, d);
    }
  }

  /**
   * ComputeNewColumnPriceRange: the bounds of a new bucket for `price`, which
   * lies outside every bucket of the side; `other` is the opposite side.
   */
  function NewColumnRange(columns: seq<Column>, other: seq<Column>, isBuy: bool, price: real, d: nat): Result<(real, real)>
  {
    if columns == [] then
      var difference := Unit(d);
      var priceStart := price;
      var priceFinish := priceStart + (if isBuy then -difference else difference);
      if priceStart == priceFinish then Failure("priceStart == priceFinish")
      else Success((priceStart, priceFinish))
    else
      var last := columns[|columns| - 1];
      var priceMin := Min(if isBuy then last.priceFinish else columns[0].priceStart, price);
      var priceMax := Max(if isBuy then columns[0].priceStart else last.priceFinish, price);
      var step := Round((priceMax - priceMin) / (ColumnNumber - 1) as real, d);
      var bounds :=
        if isBuy then
          if columns[0].priceStart < price then
            var priceStart :=
              if other == [] then price + step / 2.0
              else if other[0].priceStart >= price + step / 2.0 then price + step / 2.0
              else if other[0].priceStart >= price then other[0].priceStart
              else price;
            var priceFinish := columns[0].priceStart;
            Success((if priceStart == priceFinish then priceStart + Unit(d) else priceStart, priceFinish))
          else if price <= last.priceFinish then
            var priceFinish := price - step / 2.0;
            Success((last.priceFinish,
                     if last.priceFinish == priceFinish || price == priceFinish then priceFinish - Unit(d) else priceFinish))
          else Failure("Price cannot be within the range of existing prices.")
        else
          if price < columns[0].priceStart then
            var priceStart :=
              if other == [] then price - step / 2.0
              else if other[0].priceStart <= price - step / 2.0 then price - step / 2.0
              else if other[0].priceStart <= price then other[0].priceStart
              else price;
            var priceFinish := columns[0].priceStart;
            Success((if priceStart == priceFinish then priceStart - Unit(d) else priceStart, priceFinish))
          else if last.priceFinish <= price then
            var priceFinish := price + step / 2.0;
            Success((last.priceFinish,
                     if last.priceFinish == priceFinish || price == priceFinish then priceFinish + Unit(d) else priceFinish))
          else Failure("Price cannot be within the range of existing prices.");
      if bounds.Failure? then bounds
      else if bounds.value.0 == bounds.value.1 then Failure("priceStart == priceFinish")
      else if price == bounds.value.1 then Failure("price == priceFinish")
      else bounds
  }

  /** On an empty side the bucket starts at the price and is one price unit wide. */
  lemma NewColumnRangeEmpty(other: seq<Column>, isBuy: bool, price: real, d: nat)
    ensures NewColumnRange([], other, isBuy, price, d) == Success((price, if isBuy then price - Unit(d) else price + Unit(d)))
  {
  }

  /**
   * The range computation raises for a price within the side's outer
   * bounds, and whatever it returns is a proper bucket that does not end
   * at the price.
   */
  lemma NewColumnRangeRaises(columns: seq<Column>, other: seq<Column>, isBuy: bool, price: real, d: nat)
    ensures columns != [] && (if isBuy then columns[|columns| - 1].priceFinish < price <= columns[0].priceStart
                              else columns[0].priceStart <= price < columns[|columns| - 1].priceFinish) ==>
      NewColumnRange(columns, other, isBuy, price, d).Failure?
    ensures var r := NewColumnRange(columns, other, isBuy, price, d);
      r.Success? ==> r.value.0 != r.value.1 && price != r.value.1
  {
  }

  /**
   * AddNewColumn: a positive quantity at a price no bucket holds gets a new
   * flagged bucket at the matching end of the side, after which the side is
   * merged down to COLUMN_NUMBER buckets.  A failure of the range
   * computation is passed on and leaves the side as it was.
   */
  function AddNewColumnSpec(s: Side, other: seq<Column>, isBuy: bool, price: real, quantity: real, d: nat): Result<Side>
  {
    if quantity <= 0.0 then Success(s)
    else
      var range := NewColumnRange(s.columns, other, isBuy, price, d);
      if range.Failure? then Failure(range.error)
      else
        var cs := s.columns;
        var newColumn := Column(range.value.0, range.value.1, quantity, true);
        if cs == [] then Success(s.(columns := [newColumn]))
        else
          var atEnd := AtEnd(cs, isBuy, range.value.0, range.value.1);
          Success(MergeDown(s.(columns := if atEnd then cs + [newColumn] else [newColumn] + cs)))
  }

  /** Whether AddNewColumn appends the new bucket (true) or puts it in front (false). */
  predicate AtEnd(columns: seq<Column>, isBuy: bool, priceStart: real, priceFinish: real)
    requires columns != []
  {
    if isBuy then priceFinish < columns[0].priceFinish else !(priceStart < columns[0].priceStart)
  }

  /**
   * The computed bounds fit the chain: the new bucket is oriented and either
   * starts where the last bucket finishes and is appended, or finishes where
   * the first bucket starts and is put in front.
   */
  lemma NewColumnFits(columns: seq<Column>, other: seq<Column>, isBuy: bool, price: real, d: nat)
    requires Chain(columns, isBuy) && columns != []
    requires NewColumnRange(columns, other, isBuy, price, d).Success?
    ensures var (priceStart, priceFinish) := NewColumnRange(columns, other, isBuy, price, d).value;
      Oriented(Column(priceStart, priceFinish, 0.0, true), isBuy)
      && (AtEnd(columns, isBuy, priceStart, priceFinish) ==> priceStart == columns[|columns| - 1].priceFinish)
      && (!AtEnd(columns, isBuy, priceStart, priceFinish) ==> priceFinish == columns[0].priceStart)
  {
    var last := columns[|columns| - 1];
    var priceMin := Min(if isBuy then last.priceFinish else columns[0].priceStart, price);
    var priceMax := Max(if isBuy then columns[0].priceStart else last.priceFinish, price);
    RoundNonNegative((priceMax - priceMin) / (ColumnNumber - 1) as real, d);
    ChainEnds(columns, isBuy);
    assert Oriented(columns[0], isBuy);
    if isBuy {
      NewBidFits(columns, other, price, d, Round((priceMax - priceMin) / (ColumnNumber - 1) as real, d));
    } else {
      NewAskFits(columns, other, price, d, Round((priceMax - priceMin) / (ColumnNumber - 1) as real, d));
    }
  }

  lemma NewBidFits(columns: seq<Column>, other: seq<Column>, price: real, d: nat, step: real)
    requires columns != [] && 0.0 <= step && Oriented(columns[0], true)
    requires columns[|columns| - 1].priceFinish <= columns[0].priceFinish
    requires step == Round((Max(columns[0].priceStart, price) - Min(columns[|columns| - 1].priceFinish, price)) / (ColumnNumber - 1) as real, d)
    requires NewColumnRange(columns, other, true, price, d).Success?
    ensures var (priceStart, priceFinish) := NewColumnRange(columns, other, true, price, d).value;
      priceFinish < priceStart
      && (AtEnd(columns, true, priceStart, priceFinish) ==> priceStart == columns[|columns| - 1].priceFinish)
      && (!AtEnd(columns, true, priceStart, priceFinish) ==> priceFinish == columns[0].priceStart)
  {
  }

  lemma NewAskFits(columns: seq<Column>, other: seq<Column>, price: real, d: nat, step: real)
    requires columns != [] && 0.0 <= step && Oriented(columns[0], false)
    requires columns[0].priceFinish <= columns[|columns| - 1].priceFinish
    requires step == Round((Max(columns[|columns| - 1].priceFinish, price) - Min(columns[0].priceStart, price)) / (ColumnNumber - 1) as real, d)
    requires NewColumnRange(columns, other, false, price, d).Success?
    ensures var (priceStart, priceFinish) := NewColumnRange(columns, other, false, price, d).value;
      priceStart < priceFinish
      && (AtEnd(columns, false, priceStart, priceFinish) ==> priceStart == columns[|columns| - 1].priceFinish)
      && (!AtEnd(columns, false, priceStart, priceFinish) ==> priceFinish == columns[0].priceStart)
  {
  }

  /** The bucket AddNewColumn creates holds the price it was created for. */
  lemma NewColumnHoldsPrice(columns: seq<Column>, other: seq<Column>, isBuy: bool, price: real, d: nat)
    requires NewColumnRange(columns, other, isBuy, price, d).Success?
    ensures var (priceStart, priceFinish) := NewColumnRange(columns, other, isBuy, price, d).value;
      Contains(Column(priceStart, priceFinish, 0.0, true), isBuy, price)
  {
    if columns != [] {
      var last := columns[|columns| - 1];
      var priceMin := Min(if isBuy then last.priceFinish else columns[0].priceStart, price);
      var priceMax := Max(if isBuy then columns[0].priceStart else last.priceFinish, price);
      RoundNonNegative((priceMax - priceMin) / (ColumnNumber - 1) as real, d);
      NewColumnHolds(columns, other, isBuy, price, d, Round((priceMax - priceMin) / (ColumnNumber - 1) as real, d));
    }
  }

  lemma NewColumnHolds(columns: seq<Column>, other: seq<Column>, isBuy: bool, price: real, d: nat, step: real)
    requires columns != [] && 0.0 <= step
    requires var last := columns[|columns| - 1];
      step == Round((Max(if isBuy then columns[0].priceStart else last.priceFinish, price)
                     - Min(if isBuy then last.priceFinish else columns[0].priceStart, price)) / (ColumnNumber - 1) as real, d)
    requires NewColumnRange(columns, other, isBuy, price, d).Success?
    ensures var (priceStart, priceFinish) := NewColumnRange(columns, other, isBuy, price, d).value;
      Contains(Column(priceStart, priceFinish, 0.0, true), isBuy, price)
  {
  }

  /** An oriented bucket that meets the chain at the end where it is placed extends the chain. */
  lemma PlacedChain(columns: seq<Column>, c: Column, isBuy: bool, atEnd: bool)
    requires Chain(columns, isBuy) && columns != [] && Oriented(c, isBuy)
    requires atEnd ==> c.priceStart == columns[|columns| - 1].priceFinish
    requires !atEnd ==> c.priceFinish == columns[0].priceStart
    ensures Chain(if atEnd then columns + [c] else [c] + columns, isBuy)
  {
    var placed := if atEnd then columns + [c] else [c] + columns;
    if atEnd {
      assert forall k :: 0 <= k < |columns| ==> placed[k] == columns[k];
    } else {
      assert forall k :: 0 < k < |placed| ==> placed[k] == columns[k - 1];
    }
  }

  /** The buckets a successful AddNewColumn produces keep the chain and number at most COLUMN_NUMBER. */
  lemma AddNewColumnKeeps(s: Side, other: seq<Column>, isBuy: bool, price: real, quantity: real, d: nat)
    requires Chain(s.columns, isBuy)
    requires AddNewColumnSpec(s, other, isBuy, price, quantity, d).Success?
    ensures Chain(AddNewColumnSpec(s, other, isBuy, price, quantity, d).value.columns, isBuy)
    ensures |s.columns| <= ColumnNumber ==> |AddNewColumnSpec(s, other, isBuy, price, quantity, d).value.columns| <= ColumnNumber
  {
    var cs := s.columns;
    if 0.0 < quantity {
      var range := NewColumnRange(cs, other, isBuy, price, d);
      var newColumn := Column(range.value.0, range.value.1, quantity, true);
      if cs == [] {
        assert Oriented(newColumn, isBuy);
      } else {
        NewColumnFits(cs, other, isBuy, price, d);
        var atEnd := AtEnd(cs, isBuy, range.value.0, range.value.1);
        PlacedChain(cs, newColumn, isBuy, atEnd);
        MergeDownKeeps(s.(columns := if atEnd then cs + [newColumn] else [newColumn] + cs), isBuy, d);
      }
    }
  }

  /** On a chain the first bucket holds the outermost start and the last the outermost finish. */
  lemma ChainEnds(columns: seq<Column>, isBuy: bool)
    requires Chain(columns, isBuy) && columns != []
    ensures var last := columns[|columns| - 1];
      if isBuy then last.priceFinish <= columns[0].priceFinish else columns[0].priceFinish <= last.priceFinish
  {
    var m := 0;
    while m < |columns| - 1
      invariant 0 <= m <= |columns| - 1
      invariant if isBuy then columns[m].priceFinish <= columns[0].priceFinish else columns[0].priceFinish <= columns[m].priceFinish
    {
      m := m + 1;
    }
  }
}
