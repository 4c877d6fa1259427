/** The price download of services/price_fetchers.py, reduced to what the
    rest of the system relies on: a download either yields daily bars or
    fails, and an empty download is a failure too. The provider itself is
    a parameter of the model. */
module PriceFetchers {
  import opened DbModels

  /** One row of the downloaded frame. `Adj Close` may be missing. */
  datatype Bar = Bar(date: Date, open: real, high: real, low: real, close: real,
                     adjClose: Option<real>, volume: int)

  /** What the provider answers for one symbol and start date. */
  datatype Download = Frame(bars: seq<Bar>) | DownloadError(message: string)

  /** `yahoo_fetch_prices(symbol, start_date)` given the provider's answer:
      the bars when there are any; the provider's own error, re-raised; or
      the "no data" error for an empty frame. */
  function YahooFetchPrices(symbol: string, response: Download): (r: Result<seq<Bar>, string>)
    ensures r.Ok? <==> response.Frame? && response.bars != []
    ensures r.Ok? ==> r.value == response.bars
    ensures response.DownloadError? ==> r == Err(response.message)
    ensures response == Frame([]) ==> r == Err("No se obtuvieron datos para " + symbol)
  {
    match response
    case DownloadError(m) => Err(m)
    case Frame(bars) =>
      if bars == [] then Err("No se obtuvieron datos para " + symbol) else Ok(bars)
  }
}
