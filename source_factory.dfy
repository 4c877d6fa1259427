/** The adapter registry of services/sources/factory.py: a fixed table from
    upper-case source codes to adapter kinds, looked up case-insensitively,
    and the three placeholder adapters that cannot download anything. */
module SourceFactory {
  import opened DbModels
  import opened Text
  import opened PriceFetchers

  /** The adapter classes the registry can instantiate. */
  datatype Adapter = YahooFinanceSource | AlphaVantageSource | FinnhubSource | PolygonSource

  /** `SOURCES_MAP`. */
  const SourcesMap: map<string, Adapter> := map[
    "YAHOO" := YahooFinanceSource,
    "ALPHAVANTAGE" := AlphaVantageSource,
    "FINNHUB" := FinnhubSource,
    "POLYGON" := PolygonSource]

  /** `get_source_adapter(code, **kwargs)`, given the names of the keyword
      arguments passed: the adapter registered under the upper-cased code,
      or `ValueError` naming the code as given. No adapter's constructor
      takes a keyword argument, so a registered code with any keyword
      raises `TypeError`. */
  function GetSourceAdapter(code: string, keywords: seq<string> := []): (r: Result<Adapter, string>)
    ensures r.Ok? <==> Upper(code) in {"YAHOO", "ALPHAVANTAGE", "FINNHUB", "POLYGON"} && keywords == []
    ensures keywords == [] && Upper(code) == "YAHOO" ==> r == Ok(YahooFinanceSource)
    ensures keywords == [] && Upper(code) == "ALPHAVANTAGE" ==> r == Ok(AlphaVantageSource)
    ensures keywords == [] && Upper(code) == "FINNHUB" ==> r == Ok(FinnhubSource)
    ensures keywords == [] && Upper(code) == "POLYGON" ==> r == Ok(PolygonSource)
    ensures Upper(code) !in {"YAHOO", "ALPHAVANTAGE", "FINNHUB", "POLYGON"} ==> r == Err("Unknown source code: " + code)
    ensures Upper(code) in {"YAHOO", "ALPHAVANTAGE", "FINNHUB", "POLYGON"} && keywords != [] ==> r == Err("TypeError")
  {
    var key := Upper(code);
    if key !in SourcesMap then Err("Unknown source code: " + code)
    else if keywords != [] then Err("TypeError")
    else Ok(SourcesMap[key])
  }

  /** Two codes that differ only in the case of their letters, passed the
      same keyword arguments, select the same adapter, or are both
      rejected. */
  lemma {:induction false} LookupIgnoresCase(a: string, b: string, keywords: seq<string>)
    requires Upper(a) == Upper(b)
    ensures GetSourceAdapter(a, keywords).Ok? == GetSourceAdapter(b, keywords).Ok?
    ensures GetSourceAdapter(a, keywords).Ok? ==> GetSourceAdapter(a, keywords) == GetSourceAdapter(b, keywords)
  {
  }

  predicate IsPlaceholder(a: Adapter) {
    a != YahooFinanceSource
  }

  /** `adapter.download_daily_prices(symbol, start, end)` given the
      provider's answer: the placeholders always raise
      `NotImplementedError`; the Yahoo adapter passes the provider's rows
      through, an empty frame included, and lets its errors propagate. */
  function DownloadDailyPrices(a: Adapter, response: Download): (r: Result<seq<Bar>, string>)
    ensures IsPlaceholder(a) ==> r == Err("NotImplementedError")
    ensures !IsPlaceholder(a) ==> (r.Ok? <==> response.Frame?)
    ensures !IsPlaceholder(a) && response.Frame? ==> r == Ok(response.bars)
  {
    if IsPlaceholder(a) then Err("NotImplementedError")
    else match response
      case Frame(bars) => Ok(bars)
      case DownloadError(m) => Err(m)
  }

  /** The metadata keys the Yahoo adapter reports. */
  const MetadataKeys: set<string> := {"longName", "sector", "industry", "currency", "exchange"}

  /** `adapter.get_metadata(symbol)` given the provider's ticker info (None
      when fetching it raises): empty for the placeholders and on error,
      otherwise the five keys, each with the info's value or None. */
  function GetMetadata(a: Adapter, info: Option<map<string, string>>): (r: map<string, Option<string>>)
    ensures IsPlaceholder(a) || info.None? ==> r == map[]
    ensures !IsPlaceholder(a) && info.Some? ==> r.Keys == MetadataKeys
    ensures !IsPlaceholder(a) && info.Some? ==>
      forall k :: k in r ==> (r[k].Some? <==> k in info.value) && (r[k].Some? ==> r[k].value == info.value[k])
  {
    if IsPlaceholder(a) || info.None? then map[]
    else map k | k in MetadataKeys :: if k in info.value then Some(info.value[k]) else None
  }
}
