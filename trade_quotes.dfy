/**
 * The 24-hour quotes of every pair: open, close, low, high and volume over
 * the newest 25 candles of the hourly trade chart, refreshed by every fill
 * and handed out, flags cleared, to the live feed.
 */
module TradeQuotes {
  import opened Wrappers
  import opened DataModels
  import Decimals
  import Chart = TradeHistoryChart

  /** The number of hourly candles a quote aggregates. */
  const QuoteWindow: nat := 25

  // -------------------------------------------------- hourly interval

  /** An interval type the quotes can be computed from: hourly, at least 24 long. */
  predicate IsHourly(interval: Chart.ChartInterval)
  {
    interval.step == 3600 && 24 <= interval.length
  }

  /** The first hourly interval type, if any. */
  function FirstHourly(types: seq<Chart.ChartInterval>): (r: Option<nat>)
    ensures r.Some? ==> r.value < |types| && IsHourly(types[r.value])
    ensures r.Some? ==> forall k :: 0 <= k < r.value ==> !IsHourly(types[k])
    ensures r.None? ==> forall k :: 0 <= k < |types| ==> !IsHourly(types[k])
  {
    if types == [] then None
    else if IsHourly(types[0]) then Some(0)
    else match FirstHourly(types[1..])
      case None => None
      case Some(i) => Some(i + 1)
  }

  /** Initialize's search for the hourly chart interval. */
  method SelectHourlyInterval(types: seq<Chart.ChartInterval>) returns (r: Option<nat>)
    ensures r == FirstHourly(types)
  {
    r := None;
    var i := 0;
    while i < |types|
      invariant 0 <= i <= |types|
      invariant forall k :: 0 <= k < i ==> !IsHourly(types[k])
    {
      if types[i].step == 3600 && 24 <= types[i].length {
        r := Some(i);
        return;
      }
      i := i + 1;
    }
  }

  /** The program's interval types always have the hourly one first. */
  lemma HourlyIntervalExists()
    ensures FirstHourly(Chart.IntervalTypes) == Some(0)
  {
    assert IsHourly(Chart.IntervalTypes[0]);
  }

  // ------------------------------------------------------ trading data

  function MinLow(candles: seq<Candle>): (r: real)
    requires 0 < |candles|
    ensures exists k :: 0 <= k < |candles| && r == candles[k].priceLow
    ensures forall k :: 0 <= k < |candles| ==> r <= candles[k].priceLow
  {
    if |candles| == 1 then candles[0].priceLow
    else
      var m := MinLow(candles[..|candles| - 1]);
      var c := candles[|candles| - 1];
      assert forall k :: 0 <= k < |candles| - 1 ==> candles[k] == candles[..|candles| - 1][k];
      if m > c.priceLow then c.priceLow else m
  }

  function MaxHigh(candles: seq<Candle>): (r: real)
    requires 0 < |candles|
    ensures exists k :: 0 <= k < |candles| && r == candles[k].priceHigh
    ensures forall k :: 0 <= k < |candles| ==> candles[k].priceHigh <= r
  {
    if |candles| == 1 then candles[0].priceHigh
    else
      var m := MaxHigh(candles[..|candles| - 1]);
      var c := candles[|candles| - 1];
      assert forall k :: 0 <= k < |candles| - 1 ==> candles[k] == candles[..|candles| - 1][k];
      if m < c.priceHigh then c.priceHigh else m
  }

  function SumVolume(candles: seq<Candle>): real
  {
    if candles == [] then 0.0 else SumVolume(candles[..|candles| - 1]) + candles[|candles| - 1].volume
  }

  /** The newest QuoteWindow candles of a series (all of them when fewer). */
  function QuoteCandles(candles: seq<Candle>): (r: seq<Candle>)
    ensures |r| == if |candles| <= QuoteWindow then |candles| else QuoteWindow
    ensures r == candles[|candles| - |r|..]
  {
    if QuoteWindow < |candles| then candles[|candles| - QuoteWindow..] else candles
  }

  /**
   * GetTradingData: the quote of a pair from its hourly series; none when
   * the pair has no series or it is empty.
   */
  function TradingData(hourly: map<string, seq<Candle>>, key: string): Option<Quote>
  {
    if key !in hourly || hourly[key] == [] then None
    else
      var w := QuoteCandles(hourly[key]);
      Some(Quote(key, w[0].priceStart, w[|w| - 1].priceFinish, MaxHigh(w), MinLow(w), SumVolume(w), false, false, false))
  }

  /**
   * When every candle of the series brackets its open and close by its low
   * and high, so does the quote, whose low and high are the extremes of
   * the window's candles.
   */
  lemma TradingDataBrackets(hourly: map<string, seq<Candle>>, key: string)
    requires key in hourly
    requires forall c :: c in hourly[key] ==>
      c.priceLow <= c.priceStart <= c.priceHigh && c.priceLow <= c.priceFinish <= c.priceHigh
    ensures TradingData(hourly, key).Some? <==> hourly[key] != []
    ensures TradingData(hourly, key).Some? ==> var q := TradingData(hourly, key).value;
      && q.priceLow <= q.priceStart <= q.priceHigh
      && q.priceLow <= q.priceFinish <= q.priceHigh
      && (forall c :: c in QuoteCandles(hourly[key]) ==> q.priceLow <= c.priceLow && c.priceHigh <= q.priceHigh)
  {
    if hourly[key] != [] {
      var cs := hourly[key];
      var w := QuoteCandles(cs);
      assert forall k :: 0 <= k < |w| ==> w[k] == cs[|cs| - |w| + k];
      assert w[0] in cs && w[|w| - 1] in cs;
      forall c | c in w
        ensures MinLow(w) <= c.priceLow && c.priceHigh <= MaxHigh(w)
      {
        var k :| 0 <= k < |w| && w[k] == c;
      }
    }
  }

  /** GetTradingData's accumulator loop: low, high and volume of a nonempty window. */
  method Aggregate(window: seq<Candle>) returns (priceLow: real, priceHigh: real, volume: real)
    requires 0 < |window|
    ensures priceLow == MinLow(window) && priceHigh == MaxHigh(window) && volume == SumVolume(window)
  {
    priceLow := window[0].priceLow;
    priceHigh := window[0].priceHigh;
    volume := window[0].volume;
    assert window[..1][..0] == [];
    var i := 1;
    while i < |window|
      invariant 1 <= i <= |window|
      invariant priceLow == MinLow(window[..i])
      invariant priceHigh == MaxHigh(window[..i])
      invariant volume == SumVolume(window[..i])
    {
      assert window[..i + 1][..i] == window[..i];
      if priceLow > window[i].priceLow {
        priceLow := window[i].priceLow;
      }
      if priceHigh < window[i].priceHigh {
        priceHigh := window[i].priceHigh;
      }
      volume := volume + window[i].volume;
      i := i + 1;
    }
    assert window[..i] == window;
  }

  /** GetTradingData: the quote over the newest QuoteWindow hourly candles of a pair. */
  method GetTradingData(hourly: map<string, seq<Candle>>, key: string) returns (r: Option<Quote>)
    ensures r == TradingData(hourly, key)
  {
    if key !in hourly || |hourly[key]| == 0 {
      return None;
    }
    var candles := hourly[key];
    var first := if 0 < |candles| - QuoteWindow then |candles| - QuoteWindow else 0;
    var last := |candles| - 1;
    var window := candles[first..];
    assert window == QuoteCandles(candles);
    var priceLow, priceHigh, volume := Aggregate(window);
    r := Some(Quote(key, candles[first].priceStart, candles[last].priceFinish, priceHigh, priceLow, volume, false, false, false));
  }

  /** AddTradeFill's field-by-field copy of a recomputed aggregate. */
  method RefreshQuote(q: Quote, d: Quote) returns (r: Quote)
    ensures r == Refreshed(q, d)
  {
    r := q;
    var isUpdated := false;
    if r.priceStart != d.priceStart {
      r := r.(priceStart := d.priceStart);
      isUpdated := true;
    }
    if r.priceFinish != d.priceFinish {
      r := r.(priceFinish := d.priceFinish);
      isUpdated := true;
    }
    if r.priceLow != d.priceLow {
      r := r.(priceLow := d.priceLow);
      isUpdated := true;
    }
    if r.priceHigh != d.priceHigh {
      r := r.(priceHigh := d.priceHigh);
      isUpdated := true;
    }
    if r.volume != d.volume {
      r := r.(volume := d.volume);
      isUpdated := true;
    }
    r := r.(isUpdated := isUpdated);
  }

  // --------------------------------------------------------- fill update

  /** The quote a fill creates for a pair not yet quoted: only the close is known. */
  function HiddenQuote(key: string, price: real): Quote
  {
    Quote(key, 0.0, price, 0.0, 0.0, 0.0, false, false, true)
  }

  /**
   * A recompute copies the five aggregate fields and flags the quote when
   * any of them differed.
   */
  function Refreshed(q: Quote, data: Quote): Quote
  {
    q.(priceStart := data.priceStart, priceFinish := data.priceFinish, priceLow := data.priceLow,
       priceHigh := data.priceHigh, volume := data.volume,
       isUpdated := q.priceStart != data.priceStart || q.priceFinish != data.priceFinish
         || q.priceLow != data.priceLow || q.priceHigh != data.priceHigh || q.volume != data.volume)
  }

  /**
   * The refreshed quote carries the aggregate and keeps the pair and its
   * show and book flags; it is flagged exactly when something changed, so
   * recomputing it from the same data again clears a pending flag.
   */
  lemma RefreshedEffect(q: Quote, data: Quote)
    ensures var r := Refreshed(q, data);
      && r.priceStart == data.priceStart && r.priceFinish == data.priceFinish
      && r.priceLow == data.priceLow && r.priceHigh == data.priceHigh && r.volume == data.volume
      && r.pairString == q.pairString && r.isBook == q.isBook && r.isShow == q.isShow
      && (r.isUpdated <==> r.(isUpdated := q.isUpdated) != q)
      && Refreshed(r, data) == r.(isUpdated := false)
  {
    var r := Refreshed(q, data);
    if r.(isUpdated := q.isUpdated) == q {
      assert r.priceStart == q.priceStart && r.priceFinish == q.priceFinish && r.priceLow == q.priceLow;
      assert r.priceHigh == q.priceHigh && r.volume == q.volume;
    }
  }

  /** AddTradeFill's effect on the quote of the pair (price already rounded). */
  function QuoteAfterFill(data: map<string, Quote>, hourly: map<string, seq<Candle>>, key: string, price: real): Quote
  {
    if key !in data then HiddenQuote(key, price)
    else match TradingData(hourly, key)
      case None => data[key].(priceFinish := price, isUpdated := true)
      case Some(d) => Refreshed(data[key], d)
  }

  // ---------------------------------------------------------- harvest

  predicate Distinct(keys: seq<string>)
  {
    forall i, j :: 0 <= i < j < |keys| ==> keys[i] != keys[j]
  }

  /** What GetUpdatedQuotes hands out: the flagged quotes shown on the site, in key order, unflagged. */
  function ShownUpdated(keys: seq<string>, data: map<string, Quote>): seq<Quote>
    requires forall k :: k in keys ==> k in data
  {
    if keys == [] then []
    else
      var q := data[keys[|keys| - 1]];
      ShownUpdated(keys[..|keys| - 1], data) + (if q.isUpdated && q.isShow then [q.(isUpdated := false)] else [])
  }

  /** The quotes after a harvest: every flag cleared. */
  function AllCleared(data: map<string, Quote>): (r: map<string, Quote>)
    ensures r.Keys == data.Keys
  {
    map k | k in data :: data[k].(isUpdated := false)
  }

  /**
   * The harvest hands out exactly the flagged shown quotes, unflagged, and
   * hides nothing it should hand out; a second harvest hands out nothing.
   */
  lemma {:induction false} ShownUpdatedExact(keys: seq<string>, data: map<string, Quote>)
    requires forall k :: k in keys ==> k in data
    ensures forall x :: x in ShownUpdated(keys, data) <==>
      exists k :: k in keys && data[k].isUpdated && data[k].isShow && x == data[k].(isUpdated := false)
  {
    if keys != [] {
      var init := keys[..|keys| - 1];
      var k := keys[|keys| - 1];
      ShownUpdatedExact(init, data);
      assert forall j :: j in keys <==> j in init || j == k;
    }
  }

  /** One more key of the harvest loop: it is new, and it is handed out when flagged and shown. */
  lemma HarvestStep(data: map<string, Quote>, keys: seq<string>, i: nat)
    requires i < |keys| && Distinct(keys) && (forall k :: k in keys ==> k in data)
    ensures keys[i] !in keys[..i]
    ensures forall k :: k in keys[..i + 1] <==> k in keys[..i] || k == keys[i]
    ensures ShownUpdated(keys[..i + 1], data) == ShownUpdated(keys[..i], data)
      + (if data[keys[i]].isUpdated && data[keys[i]].isShow then [data[keys[i]].(isUpdated := false)] else [])
  {
    assert keys[..i + 1][..i] == keys[..i];
  }

  /** The quotes of the first i keys have their flag cleared, the others are untouched. */
  ghost predicate ClearedUpTo(cleared: map<string, Quote>, data: map<string, Quote>, keys: seq<string>, i: nat)
    requires i <= |keys|
  {
    cleared.Keys == data.Keys
    && forall k :: k in cleared ==> cleared[k] == if k in keys[..i] then data[k].(isUpdated := false) else data[k]
  }

  /** One more key of the harvest loop clears that key's flag, which is a no-op when it is not set. */
  lemma ClearStep(cleared: map<string, Quote>, data: map<string, Quote>, keys: seq<string>, i: nat)
    requires i < |keys| && Distinct(keys) && (forall k :: k in keys ==> k in data)
    requires ClearedUpTo(cleared, data, keys, i)
    ensures cleared[keys[i]] == data[keys[i]]
    ensures ClearedUpTo(cleared[keys[i] := data[keys[i]].(isUpdated := false)], data, keys, i + 1)
    ensures !data[keys[i]].isUpdated ==> ClearedUpTo(cleared, data, keys, i + 1)
  {
    HarvestStep(data, keys, i);
  }

  /** GetUpdatedQuotes' loop over the quotes in key order. */
  method HarvestQuotes(data: map<string, Quote>, keys: seq<string>) returns (result: seq<Quote>, cleared: map<string, Quote>)
    requires Distinct(keys) && (forall k :: k in keys <==> k in data)
    ensures result == ShownUpdated(keys, data) && cleared == AllCleared(data)
  {
    result := [];
    cleared := data;
    var i := 0;
    while i < |keys|
      invariant 0 <= i <= |keys|
      invariant ClearedUpTo(cleared, data, keys, i)
      invariant result == ShownUpdated(keys[..i], data)
    {
      var key := keys[i];
      HarvestStep(data, keys, i);
      ClearStep(cleared, data, keys, i);
      var quote := cleared[key];
      if quote.isUpdated {
        cleared := cleared[key := quote.(isUpdated := false)];
        if quote.isShow {
          result := result + [quote.(isUpdated := false)];
        }
      }
      i := i + 1;
    }
    assert keys[..i] == keys;
    assert cleared.Keys == data.Keys;
    assert forall k :: k in cleared ==> cleared[k] == AllCleared(data)[k];
  }

  lemma {:induction false} HarvestQuotesTwice(keys: seq<string>, data: map<string, Quote>)
    requires forall k :: k in keys ==> k in data
    ensures ShownUpdated(keys, AllCleared(data)) == []
  {
    if keys != [] {
      HarvestQuotesTwice(keys[..|keys| - 1], data);
    }
  }

  // ---------------------------------------------------------- loading

  /**
   * InitializeAssetPair's derivation: the quote from the hourly series,
   * or a bare quote at the pair price when there is none; shown when both
   * assets are shown, a book when internal or on a book exchange, never
   * flagged.  A missing price (without a series) or a missing exchange of
   * an external pair throws.
   */
  function PairQuote(pair: AssetPair, hourly: map<string, seq<Candle>>): Result<Quote>
  {
    var key := PairString(pair);
    var isShow := pair.showOne && pair.showTwo;
    var data := TradingData(hourly, key);
    if data.None? && pair.price.None? then Failure("Price not set for the asset pair.")
    else if !pair.isInternal && pair.exchangeIsBook.None? then Failure("Exchange not set for the asset pair.")
    else
      var isBook := pair.isInternal || pair.exchangeIsBook.value;
      match data
      case None => Success(Quote(key, 0.0, pair.price.value, 0.0, 0.0, 0.0, isBook, isShow, false))
      case Some(q) => Success(q.(isBook := isBook, isShow := isShow, isUpdated := false))
  }

  /** The derivation fails exactly in the two cases above, and a derived quote has the stated flags. */
  lemma PairQuoteFields(pair: AssetPair, hourly: map<string, seq<Candle>>)
    ensures var r := PairQuote(pair, hourly);
      && (r.Failure? <==> (TradingData(hourly, PairString(pair)).None? && pair.price.None?)
                           || (!pair.isInternal && pair.exchangeIsBook.None?))
      && (r.Success? ==>
            && r.value.pairString == PairString(pair)
            && r.value.isShow == (pair.showOne && pair.showTwo)
            && r.value.isBook == (pair.isInternal || pair.exchangeIsBook == Some(true))
            && !r.value.isUpdated
            && (TradingData(hourly, PairString(pair)).None? ==> r.value.priceFinish == pair.price.value))
  {
    var data := TradingData(hourly, PairString(pair));
    if data.Some? {
      assert data.value.pairString == PairString(pair);
    }
  }

  /** The derivation steps of InitializeAssetPair, before the quote is stored. */
  method DeriveQuote(pair: AssetPair, hourly: map<string, seq<Candle>>) returns (r: Result<Quote>)
    ensures r == PairQuote(pair, hourly)
  {
    var key := PairString(pair);
    var quote := GetTradingData(hourly, key);
    assert quote == TradingData(hourly, key);
    if quote.None? {
      if pair.price.None? {
        return Failure("Price not set for the asset pair.");
      }
      if !pair.isInternal && pair.exchangeIsBook.None? {
        return Failure("Exchange not set for the asset pair.");
      }
      quote := Some(Quote(key, 0.0, pair.price.value, 0.0, 0.0, 0.0,
        pair.isInternal || pair.exchangeIsBook.value, pair.showOne && pair.showTwo, false));
    } else {
      if !pair.isInternal && pair.exchangeIsBook.None? {
        return Failure("Exchange not set for the asset pair.");
      }
      quote := Some(quote.value.(isBook := pair.isInternal || pair.exchangeIsBook.value,
        isShow := pair.showOne && pair.showTwo));
    }
    return Success(quote.value.(isUpdated := false));
  }

  /** The quotes loaded so far and the failure that stopped the load, if any. */
  datatype Loaded = Loaded(data: map<string, Quote>, keys: seq<string>, error: Option<string>)

  /** Initialize's loop: add the quote of every pair in turn, stopping at the first exception. */
  function LoadQuotes(pairs: seq<AssetPair>, hourly: map<string, seq<Candle>>, data: map<string, Quote>, keys: seq<string>): Loaded
  {
    if pairs == [] then Loaded(data, keys, None)
    else
      var key := PairString(pairs[0]);
      match PairQuote(pairs[0], hourly)
      case Failure(e) => Loaded(data, keys, Some(e))
      case Success(q) =>
        if key in data then Loaded(data, keys, Some("The pair is already quoted."))
        else LoadQuotes(pairs[1..], hourly, data[key := q], keys + [key])
  }

  /** Loading keeps the key order a list of the quoted pairs, each once. */
  lemma {:induction false} LoadQuotesKeys(pairs: seq<AssetPair>, hourly: map<string, seq<Candle>>, data: map<string, Quote>, keys: seq<string>)
    requires Distinct(keys) && (forall k :: k in keys <==> k in data)
    ensures var l := LoadQuotes(pairs, hourly, data, keys);
      Distinct(l.keys) && (forall k :: k in l.keys <==> k in l.data)
    decreases |pairs|
  {
    if pairs != [] {
      var key := PairString(pairs[0]);
      var r := PairQuote(pairs[0], hourly);
      if r.Success? && key !in data {
        LoadQuotesKeys(pairs[1..], hourly, data[key := r.value], keys + [key]);
      }
    }
  }

  class TradeQuotes {
    /** Initialize completed. */
    var initialized: bool
    /** QuoteData: the quote of every pair. */
    var quoteData: map<string, Quote>
    /** The keys of QuoteData in the order they were added, the order it is enumerated in. */
    var keys: seq<string>
    /** The index of the hourly interval whose series ChartInterval shares. */
    var hourly: nat
    /** The trade chart whose hourly series the quotes are computed from. */
    const chart: Chart.TradeHistoryChart

    ghost predicate Valid()
      reads this, chart
    {
      && chart.Valid() && hourly < |Chart.IntervalTypes|
      && Distinct(keys) && (forall k :: k in keys <==> k in quoteData)
    }

    /** ChartInterval: the hourly series of every pair, as the chart holds them now. */
    function Hourly(): map<string, seq<Candle>>
      requires Valid()
      reads this, chart
    {
      chart.intervalData[hourly]
    }

    constructor (chart: Chart.TradeHistoryChart)
      requires chart.Valid()
      ensures Valid() && this.chart == chart && !initialized && quoteData == map[] && keys == []
    {
      this.chart := chart;
      initialized := false;
      quoteData := map[];
      keys := [];
      hourly := 0;
    }

    /**
     * InitializeAssetPair: add the derived quote of one pair; a failed
     * derivation or an already quoted pair throws and adds nothing.
     */
    method InitializeAssetPair(pair: AssetPair) returns (r: Result<Quote>)
      requires Valid()
      modifies this
      ensures Valid() && initialized == old(initialized) && hourly == old(hourly)
      ensures var key := PairString(pair);
        var l := LoadQuotes([pair], Hourly(), old(quoteData), old(keys));
        quoteData == l.data && keys == l.keys && (r.Failure? <==> l.error.Some?)
    {
      var key := PairString(pair);
      r := DeriveQuote(pair, Hourly());
      assert [pair][1..] == [];
      if r.Failure? {
        return;
      }
      var q := r.value;
      if key in quoteData {
        return Failure("The pair is already quoted.");
      }
      quoteData := quoteData[key := q];
      keys := keys + [key];
      r := Success(q);
    }

    /**
     * Initialize: share the hourly chart series and load the quote of every
     * pair; the first exception stops the load with the quotes loaded so far.
     */
    method Initialize(pairs: seq<AssetPair>) returns (r: Result<bool>)
      requires Valid()
      modifies this
      ensures Valid() && hourly == 0
      ensures var l := LoadQuotes(pairs, Hourly(), map[], []);
        && quoteData == l.data && keys == l.keys
        && (l.error.None? ==> initialized && r.Success?)
        && (l.error.Some? ==> initialized == old(initialized) && r.Failure?)
    {
      var h := SelectHourlyInterval(Chart.IntervalTypes);
      HourlyIntervalExists();
      hourly := h.value;
      quoteData := map[];
      keys := [];
      var i := 0;
      while i < |pairs|
        invariant 0 <= i <= |pairs| && Valid() && hourly == 0 && initialized == old(initialized)
        invariant LoadQuotes(pairs, Hourly(), map[], []) == LoadQuotes(pairs[i..], Hourly(), quoteData, keys)
      {
        assert pairs[i..][1..] == pairs[i + 1..];
        var added := InitializeAssetPair(pairs[i]);
        if added.Failure? {
          return Failure(added.error);
        }
        i := i + 1;
      }
      initialized := true;
      r := Success(true);
    }

    /**
     * AddTradeFill: round the price to the quote decimals; a pair not yet
     * quoted gets a hidden quote at that close, a pair without an hourly
     * series only its close, and any other pair the recomputed aggregate,
     * flagged when it changed.  Nothing happens before Initialize.
     */
    method AddTradeFill(pair: AssetPair, price: real, quantity: real, timeExecuted: int)
      requires Valid()
      modifies this
      ensures Valid() && initialized == old(initialized) && hourly == old(hourly)
      ensures !old(initialized) ==> quoteData == old(quoteData) && keys == old(keys)
      ensures old(initialized) ==>
        var key := PairString(pair);
        && quoteData == old(quoteData)[key := QuoteAfterFill(old(quoteData), Hourly(), key, Decimals.Round(price, pair.decimals))]
        && keys == if key in old(quoteData) then old(keys) else old(keys) + [key]
    {
      if !initialized {
        return;
      }
      var key := PairString(pair);
      var p := Decimals.Round(price, pair.decimals);
      if key !in quoteData {
        quoteData := quoteData[key := Quote(key, 0.0, p, 0.0, 0.0, 0.0, false, false, true)];
        keys := keys + [key];
        return;
      }
      var data := GetTradingData(Hourly(), key);
      if data.None? {
        quoteData := quoteData[key := quoteData[key].(priceFinish := p, isUpdated := true)];
        return;
      }
      var q := RefreshQuote(quoteData[key], data.value);
      quoteData := quoteData[key := q];
    }

    /**
     * GetUpdatedQuotes: clear the flag of every flagged quote and hand out
     * the ones shown on the site; nothing before Initialize.
     */
    method GetUpdatedQuotes() returns (result: seq<Quote>)
      requires Valid()
      modifies this
      ensures Valid() && initialized == old(initialized) && hourly == old(hourly) && keys == old(keys)
      ensures !old(initialized) ==> result == [] && quoteData == old(quoteData)
      ensures old(initialized) ==> result == ShownUpdated(keys, old(quoteData)) && quoteData == AllCleared(old(quoteData))
    {
      result := [];
      if !initialized {
        return;
      }
      result, quoteData := HarvestQuotes(quoteData, keys);
    }
  }
}
