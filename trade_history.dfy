/**
 * The recent trades tape of every tracked pair: new fills go to the head,
 * and a harvest hands out the fills added since the previous harvest and
 * trims the tape to MAX_TRADE_HISTORY_COUNT entries.
 */
module TradeHistory {
  import opened Wrappers
  import opened DataModels
  import opened Seqs

  /** MAX_TRADE_HISTORY_COUNT: the most fills a tape keeps after a harvest. */
  const MaxTradeHistoryCount: nat := 200

  predicate IsUpdatedFill(f: Fill)
  {
    f.isUpdated
  }

  function ClearFillFlags(fills: seq<Fill>): (r: seq<Fill>)
    ensures |r| == |fills|
    ensures forall k :: 0 <= k < |fills| ==> r[k] == fills[k].(isUpdated := false)
  {
    seq(|fills|, k requires 0 <= k < |fills| => fills[k].(isUpdated := false))
  }

  /** What GetUpdatedFills hands out: the flagged fills in tape order, flags cleared. */
  function UpdatedFills(tape: seq<Fill>): seq<Fill>
  {
    ClearFillFlags(Filter(IsUpdatedFill, tape))
  }

  /** RemoveRange(MAX, count - MAX) when the tape is longer than MAX. */
  function Trim(tape: seq<Fill>): (r: seq<Fill>)
    ensures |r| == if |tape| <= MaxTradeHistoryCount then |tape| else MaxTradeHistoryCount
    ensures r == tape[..|r|]
  {
    if MaxTradeHistoryCount < |tape| then tape[..MaxTradeHistoryCount] else tape
  }

  /** The tape after GetUpdatedFills: every flag cleared, then trimmed. */
  function KeptFills(tape: seq<Fill>): seq<Fill>
  {
    Trim(ClearFillFlags(tape))
  }

  /** The harvest hands out exactly the flagged fills, unflagged. */
  lemma UpdatedFillsExact(tape: seq<Fill>)
    ensures forall x :: x in UpdatedFills(tape) <==>
      exists k :: 0 <= k < |tape| && tape[k].isUpdated && x == tape[k].(isUpdated := false)
  {
    var f := Filter(IsUpdatedFill, tape);
    forall x | x in UpdatedFills(tape)
      ensures exists k :: 0 <= k < |tape| && tape[k].isUpdated && x == tape[k].(isUpdated := false)
    {
      var j :| 0 <= j < |f| && UpdatedFills(tape)[j] == x;
      assert f[j] in f;
      var k :| 0 <= k < |tape| && tape[k] == f[j];
    }
    forall k | 0 <= k < |tape| && tape[k].isUpdated
      ensures tape[k].(isUpdated := false) in UpdatedFills(tape)
    {
      assert IsUpdatedFill(tape[k]);
      var j :| 0 <= j < |f| && f[j] == tape[k];
      assert UpdatedFills(tape)[j] == tape[k].(isUpdated := false);
    }
  }

  /**
   * After a harvest the tape holds at most MAX entries, the first ones in
   * their order, all unflagged; a second harvest hands out nothing.
   */
  lemma HarvestKeeps(tape: seq<Fill>)
    ensures |KeptFills(tape)| <= MaxTradeHistoryCount
    ensures forall k :: 0 <= k < |KeptFills(tape)| ==> KeptFills(tape)[k] == tape[k].(isUpdated := false)
    ensures UpdatedFills(KeptFills(tape)) == []
  {
    var kept := KeptFills(tape);
    assert forall k :: 0 <= k < |kept| ==> !IsUpdatedFill(kept[k]);
    FilterDropsAll(IsUpdatedFill, kept);
  }

  /** A fill added at the head is handed out first by the next harvest. */
  lemma AddedFillFirst(f: Fill, tape: seq<Fill>)
    requires f.isUpdated
    ensures UpdatedFills([f] + tape) == [f.(isUpdated := false)] + UpdatedFills(tape)
  {
    FilterAppend(IsUpdatedFill, [f], tape);
    assert Filter(IsUpdatedFill, [f]) == [f] by {
      assert [f][..0] == [];
    }
    ClearFillFlagsAppend([f], Filter(IsUpdatedFill, tape));
  }

  lemma ClearFillFlagsAppend(a: seq<Fill>, b: seq<Fill>)
    ensures ClearFillFlags(a + b) == ClearFillFlags(a) + ClearFillFlags(b)
  {
    var l, r := ClearFillFlags(a + b), ClearFillFlags(a) + ClearFillFlags(b);
    assert |l| == |r|;
    forall k | 0 <= k < |l|
      ensures l[k] == r[k]
    {
      if k < |a| {
        assert (a + b)[k] == a[k];
      } else {
        assert (a + b)[k] == b[k - |a|];
      }
    }
  }

  /** The index of the first pair that repeats an earlier one, or |pairs| when they are distinct. */
  function FirstRepeat(pairs: seq<string>): (n: nat)
    ensures n <= |pairs|
    ensures forall i, j :: 0 <= i < j < n ==> pairs[i] != pairs[j]
    ensures n < |pairs| ==> pairs[n] in pairs[..n]
    decreases |pairs|
  {
    if pairs == [] then 0
    else
      var init := pairs[..|pairs| - 1];
      var m := FirstRepeat(init);
      if m < |init| then
        assert pairs[..m] == init[..m];
        m
      else if pairs[|pairs| - 1] in init then |init|
      else |pairs|
  }

  class TradeHistory {
    /** TradeFillData has been created by Initialize. */
    var initialized: bool
    /** TradeFillData: the tape of every tracked pair, newest first. */
    var tapes: map<string, seq<Fill>>

    constructor ()
      ensures !initialized && tapes == map[]
    {
      initialized := false;
      tapes := map[];
    }

    /**
     * Initialize: an empty tape for every tracked pair (read from the database by the source).
     * The dictionary exists from the start, so a repeated pair throws with the pairs before it added.
     */
    method Initialize(pairs: seq<string>) returns (r: Result<bool>)
      modifies this
      ensures initialized
      ensures tapes.Keys == set p | p in pairs[..FirstRepeat(pairs)]
      ensures forall p :: p in tapes ==> tapes[p] == []
      ensures r.Failure? <==> FirstRepeat(pairs) < |pairs|
    {
      tapes := map[];
      initialized := true;
      var i := 0;
      while i < |pairs|
        invariant 0 <= i <= |pairs|
        invariant i <= FirstRepeat(pairs)
        invariant initialized
        invariant tapes.Keys == set p | p in pairs[..i]
        invariant forall p :: p in tapes ==> tapes[p] == []
      {
        if pairs[i] in tapes {
          return Failure("An item with the same key has already been added.");
        }
        assert pairs[..i + 1] == pairs[..i] + [pairs[i]];
        tapes := tapes[pairs[i] := []];
        i := i + 1;
      }
      assert pairs[..i] == pairs;
      r := Success(true);
    }

    /** AddTradeFill: put the fill, flagged, at the head of its pair's tape. */
    method AddTradeFill(pair: string, price: real, quantity: real, timeExecuted: int)
      modifies this
      ensures initialized == old(initialized)
      ensures !old(initialized) || pair !in old(tapes) ==> tapes == old(tapes)
      ensures old(initialized) && pair in old(tapes) ==>
        tapes == old(tapes)[pair := [Fill(timeExecuted, quantity, price, true)] + old(tapes)[pair]]
    {
      if !initialized {
        return;
      }
      if pair !in tapes {
        return;
      }
      tapes := tapes[pair := [Fill(timeExecuted, quantity, price, true)] + tapes[pair]];
    }

    /**
     * GetUpdatedFills: hand out the flagged fills of a pair, clear the
     * flags and trim the tape; an unknown pair, or a call before
     * Initialize, throws.
     */
    method GetUpdatedFills(pair: string) returns (result: Result<seq<Fill>>)
      modifies this
      ensures initialized == old(initialized)
      ensures !old(initialized) || pair !in old(tapes) ==> result.Failure? && tapes == old(tapes)
      ensures old(initialized) && pair in old(tapes) ==>
        result == Success(UpdatedFills(old(tapes)[pair])) && tapes == old(tapes)[pair := KeptFills(old(tapes)[pair])]
    {
      if !initialized || pair !in tapes {
        return Failure("The pair is not tracked.");
      }
      var tape := tapes[pair];
      result := Success(ClearFillFlags(Filter(IsUpdatedFill, tape)));
      tape := ClearFillFlags(tape);
      if MaxTradeHistoryCount < |tape| {
        tape := tape[..MaxTradeHistoryCount];
      }
      tapes := tapes[pair := tape];
    }
  }
}
