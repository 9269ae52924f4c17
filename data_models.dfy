/**
 * The records the market-data engine keeps in memory, one datatype per record
 * class.  DateTime values are counted in ticks of 100 ns, decimals are reals.
 */
module DataModels {
  import opened Wrappers

  /** OrderBookItem: one price level of an order book side. */
  datatype Level = Level(price: real, quantity: real, isUpdated: bool, updateId: int)

  /** OrderBookChartColumn: one display bucket of the order book chart. */
  datatype Column = Column(priceStart: real, priceFinish: real, quantity: real, isUpdated: bool)

  /** TradeHistoryItem: one fill on the trade tape. */
  datatype Fill = Fill(timeExecuted: int, quantity: real, price: real, isUpdated: bool)

  /** TradeHistoryCandleItem: one candle of a trade history chart. */
  datatype Candle = Candle(
    timeStart: int, timeFinish: int,
    priceStart: real, priceFinish: real, priceHigh: real, priceLow: real,
    volume: real, isUpdated: bool)

  /** QuoteHistoryItem: the 24-hour quote of one pair. */
  datatype Quote = Quote(
    pairString: string,
    priceStart: real, priceFinish: real, priceHigh: real, priceLow: real,
    volume: real, isBook: bool, isShow: bool, isUpdated: bool)

  /**
   * The fields of an asset pair, its two assets and its exchange that the
   * engine reads; `exchangeIsBook` is None when the pair has no exchange and
   * `price` is None when the pair price is unset.  `decimals` is the
   * number of decimals of asset two, the quote asset, which every price of
   * the pair is rounded to.
   */
  datatype AssetPair = AssetPair(
    codeOne: string, codeTwo: string, decimals: nat, isInternal: bool,
    exchangeIsBook: Option<bool>, price: Option<real>,
    showOne: bool, showTwo: bool)

  /** The "ONE-TWO" key under which every per-pair structure is stored. */
  function PairString(pair: AssetPair): (r: string)
    ensures r == pair.codeOne + ['-'] + pair.codeTwo
  {
    pair.codeOne + "-" + pair.codeTwo
  }

  const TicksPerSecond: int := 10_000_000
}
