/** The price refresh of services/price_updater.py. A run loads every asset
    joined to its source and refreshes each one in turn; one asset's
    refresh downloads from the day before its latest stored price (or from
    2000-01-01), writes one price row per downloaded bar, and on failure
    records the failure and re-raises, so that the run records it again
    and carries on with the next asset. */
module PriceUpdater {
  import opened DbModels
  import opened Text
  import opened Store
  import opened PriceFetchers
  import opened FailedUpdates

  /** The price provider: what a download of a symbol from a start date answers. */
  type Provider = (string, Date) -> Download

  /** What a call ends with: normal return, or an exception with its text. */
  datatype Outcome = Done | Raised(message: string)

  /** The dates stored for one asset. */
  function DatesOf(prices: map<Id, HistoricalPrice>, assetId: Id): set<Date>
  {
    set p | p in prices && prices[p].assetId == assetId :: prices[p].date
  }

  /** The first day to download: the day before the latest stored date, so
      that the last stored day is fetched again, or 2000-01-01 when the
      asset has no prices yet. */
  function StartDate(prices: map<Id, HistoricalPrice>, assetId: Id): (d: Date)
    ensures DatesOf(prices, assetId) == {} ==> d == Jan1st2000
    ensures DatesOf(prices, assetId) != {} ==>
      d + 1 in DatesOf(prices, assetId) && forall x :: x in DatesOf(prices, assetId) ==> x <= d + 1
  {
    var dates := DatesOf(prices, assetId);
    if dates == {} then Jan1st2000 else Greatest(dates) - 1
  }

  /** The start date is one day before some stored row of the asset, and no
      stored row of the asset is dated after the day that follows it. */
  lemma {:induction false} StartDateOverlapsLatest(prices: map<Id, HistoricalPrice>, assetId: Id, p: Id)
    requires p in prices && prices[p].assetId == assetId
    ensures prices[p].date <= StartDate(prices, assetId) + 1
    ensures exists q :: q in prices && prices[q].assetId == assetId && prices[q].date == StartDate(prices, assetId) + 1
  {
    assert prices[p].date in DatesOf(prices, assetId);
  }

  /** The columns and relationships a `HistoricalPrice` has. */
  const HistoricalPriceAttributes: set<string> := {
    "id", "asset_id", "source_id", "date", "open", "high", "low", "close",
    "adj_close", "volume", "recorded_at", "asset", "source"}

  /** The latest-price query ordered by the named attribute: an
      `AttributeError` when the class has no such attribute, otherwise the
      latest date of the asset's rows, if any. */
  function LatestPriceQuery(prices: map<Id, HistoricalPrice>, assetId: Id, attribute: string): (r: Result<Option<Date>, string>)
    ensures r.Err? <==> attribute !in HistoricalPriceAttributes
    ensures r.Ok? && r.value.Some? ==> r.value.value in DatesOf(prices, assetId)
    ensures r.Ok? ==> (r.value.None? <==> DatesOf(prices, assetId) == {})
  {
    if attribute !in HistoricalPriceAttributes then
      Err("type object 'HistoricalPrice' has no attribute '" + attribute + "'")
    else
      var dates := DatesOf(prices, assetId);
      if dates == {} then Ok(None) else Ok(Some(Greatest(dates)))
  }

  /** The start date as the source computes it, ordering by `trade_date`. */
  function StartDateAsWritten(prices: map<Id, HistoricalPrice>, assetId: Id): (r: Result<Date, string>)
    ensures r.Ok? ==> r.value == StartDate(prices, assetId)
  {
    match LatestPriceQuery(prices, assetId, "trade_date")
    case Err(e) => Err(e)
    case Ok(None) => Ok(Jan1st2000)
    case Ok(Some(d)) => Ok(d - 1)
  }

  /** As written, the start-date query raises for every asset, stored
      prices or not, so every refresh fails before downloading. */
  lemma StartDateAsWrittenAlwaysFails(prices: map<Id, HistoricalPrice>, assetId: Id)
    ensures StartDateAsWritten(prices, assetId) ==
      Err("type object 'HistoricalPrice' has no attribute 'trade_date'")
  {
    assert "trade_date" !in HistoricalPriceAttributes by {
      assert "trade_date"[0] == 't';
    }
    assert "type object 'HistoricalPrice' has no attribute '" + "trade_date" + "'"
      == "type object 'HistoricalPrice' has no attribute 'trade_date'";
  }

  /** Ordering by the `date` column, as intended, gives `StartDate`. */
  lemma {:induction false} StartDateByDateColumn(prices: map<Id, HistoricalPrice>, assetId: Id)
    ensures LatestPriceQuery(prices, assetId, "date").Ok?
    ensures match LatestPriceQuery(prices, assetId, "date").value
      case None => StartDate(prices, assetId) == Jan1st2000
      case Some(d) => StartDate(prices, assetId) == d - 1
  {
    var dates := DatesOf(prices, assetId);
    if dates != {} {
      var g := Greatest(dates);
      var d := StartDate(prices, assetId);
      assert d + 1 <= g && g <= d + 1;
    }
  }

  /** The fetcher chosen by the asset's source code, called from the start
      date: only `"YAHOO"` has one; any other code raises. */
  function FetchBars(code: string, sourceSymbol: string, start: Date, provider: Provider): (r: Result<seq<Bar>, string>)
    ensures r.Ok? ==> code == "YAHOO" && r.value != []
    ensures code != "YAHOO" ==> r == Err("Fuente de precios '" + code + "' no implementada")
    ensures code == "YAHOO" ==> r == YahooFetchPrices(sourceSymbol, provider(sourceSymbol, start))
  {
    if code == "YAHOO" then YahooFetchPrices(sourceSymbol, provider(sourceSymbol, start))
    else Err("Fuente de precios '" + code + "' no implementada")
  }

  /** What the refresh of one asset downloads in a given state of the tables. */
  function FetchFor(t: Tables, assetId: Id, provider: Provider): Result<seq<Bar>, string>
    requires assetId in t.assets && t.assets[assetId].sourceId in t.sources
  {
    var a := t.assets[assetId];
    FetchBars(t.sources[a.sourceId].code, a.sourceSymbol, StartDate(t.prices, assetId), provider)
  }

  /** The error of a lazy load on an instance whose session is closed. */
  const DetachedLoadText: string :=
    "Parent instance <Asset> is not bound to a Session; lazy load operation of attribute 'source' cannot proceed"

  /** `asset.source.code` as the refresh reads it (lines 76 and 79). The
      run's query joins the sources but does not load the relationship,
      so it is loaded lazily through the asset's session: that works while
      the session is open (`attached`, as in update_single_asset) and
      raises on a detached asset, whose session is closed (as in
      update_all_assets, line 31). */
  function SourceCodeOf(t: Tables, assetId: Id, attached: bool): (r: Result<string, string>)
    requires assetId in t.assets && t.assets[assetId].sourceId in t.sources
    ensures r.Ok? <==> attached
    ensures r.Ok? ==> r.value == t.sources[t.assets[assetId].sourceId].code
    ensures r.Err? ==> r.error == DetachedLoadText
  {
    if attached then Ok(t.sources[t.assets[assetId].sourceId].code) else Err(DetachedLoadText)
  }

  /** The download of one asset's refresh, its source read through
      `SourceCodeOf`. */
  function FetchVia(t: Tables, assetId: Id, provider: Provider, attached: bool): Result<seq<Bar>, string>
    requires assetId in t.assets && t.assets[assetId].sourceId in t.sources
  {
    match SourceCodeOf(t, assetId, attached)
    case Err(e) => Err(e)
    case Ok(code) => FetchBars(code, t.assets[assetId].sourceSymbol, StartDate(t.prices, assetId), provider)
  }

  /** As written, update_all_assets refreshes detached assets, so every
      loaded asset's refresh raises before it downloads, and the run
      counts no success. With the relationship loaded, the refresh
      downloads exactly what `FetchFor` says, which is what
      `UpdateAllAssets` is proved against. */
  lemma DetachedRefreshFails(t: Tables, provider: Provider)
    ensures forall a :: a in Loaded(t.assets, t.sources) ==> FetchVia(t, a, provider, false) == Err(DetachedLoadText)
    ensures (set a | a in Loaded(t.assets, t.sources) && FetchVia(t, a, provider, false).Ok?) == {}
    ensures forall a :: a in Loaded(t.assets, t.sources) ==> FetchVia(t, a, provider, true) == FetchFor(t, a, provider)
  {
  }

  /** The row written for one bar; a missing `Adj Close` takes the close. */
  function PriceRow(a: Asset, assetId: Id, bar: Bar, now: Timestamp): (p: HistoricalPrice)
    ensures p.assetId == assetId && p.sourceId == a.sourceId && p.date == bar.date
    ensures p.quote.close == bar.close
    ensures p.quote.adjClose == if bar.adjClose.Some? then bar.adjClose.value else bar.close
  {
    HistoricalPrice(assetId, a.sourceId, bar.date,
      Quote(bar.open, bar.high, bar.low, bar.close,
            if bar.adjClose.Some? then bar.adjClose.value else bar.close, bar.volume),
      now)
  }

  /** Every row of `m0` is still in `m1`, unchanged. */
  ghost predicate Extends<T>(m1: map<Id, T>, m0: map<Id, T>) {
    forall k :: k in m0 ==> k in m1 && m1[k] == m0[k]
  }

  /** Adding rows of other assets leaves an asset's dates as they were. */
  lemma DatesKept(m0: map<Id, HistoricalPrice>, m1: map<Id, HistoricalPrice>, b: Id)
    requires Extends(m1, m0)
    requires forall p :: p in m1 && p !in m0 ==> m1[p].assetId != b
    ensures DatesOf(m1, b) == DatesOf(m0, b)
  {
  }

  /** Rows stored twice for one (asset, date) pair are allowed: nothing in
      the tables' constraints rules them out, and the one-day overlap of
      the start date produces them on every refresh. */
  lemma DuplicateDatesAllowed(t: Tables, p: Id, q: Id, now: Timestamp)
    requires Consistent(t) && p in t.prices && q !in t.prices
    ensures Consistent(t.(prices := t.prices[q := t.prices[p].(recordedAt := now)]))
  {
  }

  /** The failure records of one asset. */
  function RecordsFor(failures: map<Id, FailedUpdate>, assetId: Id): set<Id> {
    set k | k in failures && failures[k].assetId == Some(assetId)
  }

  /** Adding one record adds it to its asset's records and to no other's. */
  lemma RecordsAfterAdd(m: map<Id, FailedUpdate>, k: Id, f: FailedUpdate, a: Id)
    requires k !in m
    ensures |RecordsFor(m[k := f], a)| == |RecordsFor(m, a)| + (if f.assetId == Some(a) then 1 else 0)
  {
    if f.assetId == Some(a) {
      assert RecordsFor(m[k := f], a) == RecordsFor(m, a) + {k};
    } else {
      assert RecordsFor(m[k := f], a) == RecordsFor(m, a);
    }
  }

  /** `update_asset_prices(asset, run_type)`. On a failed download, or a
      source with no fetcher, no price is written, one failure record
      carries the asset, its source, the message and the run type, and the
      exception propagates. Otherwise one row per bar is added, in order,
      under fresh ids, and nothing else changes. */
  method UpdateAssetPrices(db: Database, assetId: Id, provider: Provider, now: Timestamp,
                           runType: RunType := Manual)
    returns (outcome: Outcome, ghost newIds: seq<Id>, ghost failureId: Id)
    requires db.Valid() && assetId in db.assets
    modifies db
    ensures db.Valid()
    ensures db.users == old(db.users) && db.sources == old(db.sources) && db.assets == old(db.assets)
    ensures Extends(db.prices, old(db.prices)) && Extends(db.failures, old(db.failures))
    ensures var fetched := FetchFor(old(db.Snapshot()), assetId, provider);
      && (outcome.Done? <==> fetched.Ok?)
      && (fetched.Err? ==>
            && outcome == Raised(fetched.error)
            && db.prices == old(db.prices)
            && failureId !in old(db.failures)
            && db.failures == old(db.failures)[failureId := NewFailedUpdate(Some(assetId),
                 Some(old(db.assets[assetId]).sourceId), fetched.error, runType, now)])
      && (fetched.Ok? ==>
            && db.failures == old(db.failures)
            && |newIds| == |fetched.value|
            && (forall i :: 0 <= i < |newIds| ==>
                  newIds[i] !in old(db.prices) && newIds[i] in db.prices
                  && db.prices[newIds[i]] == PriceRow(old(db.assets[assetId]), assetId, fetched.value[i], now))
            && (forall i, j :: 0 <= i < j < |newIds| ==> newIds[i] != newIds[j])
            && (forall p :: p in db.prices ==> p in old(db.prices) || p in newIds))
    ensures forall p :: p in db.prices && p !in old(db.prices) ==> db.prices[p].assetId == assetId
  {
    var a := db.assets[assetId];
    var start := StartDate(db.prices, assetId);
    var fetched := FetchBars(db.sources[a.sourceId].code, a.sourceSymbol, start, provider);
    newIds, failureId := [], 0;
    match fetched {
      case Err(e) =>
        failureId := RegisterFailedUpdate(db, Some(assetId), Some(a.sourceId), e, runType, now);
        outcome := Raised(e);
      case Ok(bars) =>
        newIds := WriteRows(db, a, assetId, bars, now);
        outcome := Done;
    }
  }

  /** The row loop: one `session.merge` per bar, each an insert under a
      fresh id, in the order of the bars. */
  method WriteRows(db: Database, a: Asset, assetId: Id, bars: seq<Bar>, now: Timestamp)
    returns (ghost newIds: seq<Id>)
    requires db.Valid() && assetId in db.assets && db.assets[assetId] == a
    modifies db
    ensures db.Valid()
    ensures db.users == old(db.users) && db.sources == old(db.sources) && db.assets == old(db.assets)
    ensures db.failures == old(db.failures)
    ensures Extends(db.prices, old(db.prices))
    ensures |newIds| == |bars|
    ensures forall i :: 0 <= i < |newIds| ==>
      newIds[i] !in old(db.prices) && newIds[i] in db.prices && db.prices[newIds[i]] == PriceRow(a, assetId, bars[i], now)
    ensures forall i, j :: 0 <= i < j < |newIds| ==> newIds[i] != newIds[j]
    ensures forall p :: p in db.prices ==> p in old(db.prices) || p in newIds
    ensures forall p :: p in db.prices && p !in old(db.prices) ==> db.prices[p].assetId == assetId
  {
    newIds := [];
    var i := 0;
    while i < |bars|
      invariant 0 <= i <= |bars| && |newIds| == i
      invariant db.Valid()
      invariant db.users == old(db.users) && db.sources == old(db.sources) && db.assets == old(db.assets)
      invariant db.failures == old(db.failures)
      invariant Written(old(db.prices), db.prices, newIds, a, assetId, bars, now)
    {
      ghost var before := db.prices;
      var k := db.AddPrice(PriceRow(a, assetId, bars[i], now));
      WrittenStep(old(db.prices), before, newIds, k, a, assetId, bars, now);
      newIds := newIds + [k];
      i := i + 1;
    }
  }

  /** The price rows after the first `|newIds|` bars: the old rows kept,
      one new row per bar under its own fresh id, and nothing else. */
  ghost predicate Written(p0: map<Id, HistoricalPrice>, prices: map<Id, HistoricalPrice>, newIds: seq<Id>,
                          a: Asset, assetId: Id, bars: seq<Bar>, now: Timestamp) {
    && |newIds| <= |bars|
    && Extends(prices, p0)
    && (forall j :: 0 <= j < |newIds| ==>
          newIds[j] !in p0 && newIds[j] in prices && prices[newIds[j]] == PriceRow(a, assetId, bars[j], now))
    && (forall j, l :: 0 <= j < l < |newIds| ==> newIds[j] != newIds[l])
    && (forall p :: p in prices ==> p in p0 || p in newIds)
    && (forall p :: p in prices && p !in p0 ==> prices[p].assetId == assetId)
  }

  /** Inserting the next bar's row under an unused id extends the rows written. */
  lemma WrittenStep(p0: map<Id, HistoricalPrice>, prices: map<Id, HistoricalPrice>, newIds: seq<Id>, k: Id,
                    a: Asset, assetId: Id, bars: seq<Bar>, now: Timestamp)
    requires Written(p0, prices, newIds, a, assetId, bars, now) && |newIds| < |bars| && k !in prices
    ensures Written(p0, prices[k := PriceRow(a, assetId, bars[|newIds|], now)], newIds + [k], a, assetId, bars, now)
  {
  }

  /** The assets the run loads: those joined to a price source, active or not. */
  function Loaded(assets: map<Id, Asset>, sources: map<Id, PriceSource>): (r: set<Id>)
    ensures forall a :: a in r <==> a in assets && assets[a].sourceId in sources
  {
    set a | a in assets && assets[a].sourceId in sources
  }

  /** Since every asset references an existing source, the run loads every
      asset, whatever the `is_active` flags of the sources say. */
  lemma LoadedIsEveryAsset(t: Tables)
    requires Consistent(t)
    ensures Loaded(t.assets, t.sources) == t.assets.Keys
  {
    assert forall a :: a in t.assets ==> a in Loaded(t.assets, t.sources);
  }

  /** Deactivating a source does not change which assets the run loads. */
  lemma LoadedIgnoresActiveFlag(t: Tables, s: Id, flag: bool)
    requires s in t.sources
    ensures Loaded(t.assets, t.sources[s := t.sources[s].(isActive := flag)]) == Loaded(t.assets, t.sources)
  {
  }

  /** The loaded assets whose download succeeds in the state `t`. */
  ghost function Succeeding(t: Tables, provider: Provider): (r: set<Id>)
    ensures r <= Loaded(t.assets, t.sources)
  {
    set a | a in Loaded(t.assets, t.sources) && FetchFor(t, a, provider).Ok?
  }

  /** Adding rows of other assets leaves what an asset downloads as it was. */
  lemma FetchKept(t0: Tables, t: Tables, id: Id, provider: Provider)
    requires id in t0.assets && t0.assets[id].sourceId in t0.sources
    requires t.assets == t0.assets && t.sources == t0.sources
    requires Extends(t.prices, t0.prices)
    requires forall p :: p in t.prices && p !in t0.prices ==> t.prices[p].assetId != id
    ensures FetchFor(t, id, provider) == FetchFor(t0, id, provider)
  {
    DatesKept(t0.prices, t.prices, id);
  }

  /** The rows of `bars` are stored: one row per bar, in the order of the
      bars, each under its own id that was not used in `p0`. */
  ghost predicate BarsStored(p0: map<Id, HistoricalPrice>, prices: map<Id, HistoricalPrice>, ids: seq<Id>,
                             a: Asset, assetId: Id, bars: seq<Bar>, now: Timestamp) {
    && |ids| == |bars|
    && (forall i :: 0 <= i < |ids| ==>
          ids[i] !in p0 && ids[i] in prices && prices[ids[i]] == PriceRow(a, assetId, bars[i], now))
    && (forall i, j :: 0 <= i < j < |ids| ==> ids[i] != ids[j])
  }

  /** Stored rows stay stored when rows are only added, and stay fresh
      with respect to any older state. */
  lemma BarsStoredKept(p0: map<Id, HistoricalPrice>, q0: map<Id, HistoricalPrice>,
                       prices: map<Id, HistoricalPrice>, later: map<Id, HistoricalPrice>, ids: seq<Id>,
                       a: Asset, assetId: Id, bars: seq<Bar>, now: Timestamp)
    requires BarsStored(p0, prices, ids, a, assetId, bars, now)
    requires Extends(p0, q0) && Extends(later, prices)
    ensures BarsStored(q0, later, ids, a, assetId, bars, now)
  {
    forall i | 0 <= i < |ids|
      ensures ids[i] !in q0 && ids[i] in later && later[ids[i]] == PriceRow(a, assetId, bars[i], now)
    {
      var k := ids[i];
      assert k !in p0 && k in prices && prices[k] == PriceRow(a, assetId, bars[i], now);
      assert k in later && later[k] == prices[k];
    }
  }

  /** `update_asset_prices` as both of its callers call it: on an
      exception the caller's handler records the failure a second time,
      with the same asset, source and message. Returns whether the refresh
      succeeded. */
  method RefreshAndRecord(db: Database, assetId: Id, provider: Provider, now: Timestamp, runType: RunType)
    returns (ok: bool, ghost newIds: seq<Id>)
    requires db.Valid() && assetId in db.assets
    modifies db
    ensures db.Valid()
    ensures db.users == old(db.users) && db.sources == old(db.sources) && db.assets == old(db.assets)
    ensures Extends(db.prices, old(db.prices)) && Extends(db.failures, old(db.failures))
    ensures ok <==> FetchFor(old(db.Snapshot()), assetId, provider).Ok?
    ensures ok ==> db.failures == old(db.failures)
    ensures ok ==> BarsStored(old(db.prices), db.prices, newIds, old(db.assets[assetId]), assetId,
                              FetchFor(old(db.Snapshot()), assetId, provider).value, now)
    ensures forall p :: p in db.prices ==> p in old(db.prices) || p in newIds
    ensures !ok ==> db.prices == old(db.prices) && |db.failures| == |old(db.failures)| + 2
    ensures forall b ::
      |RecordsFor(db.failures, b)| == |RecordsFor(old(db.failures), b)| + (if b == assetId && !ok then 2 else 0)
    ensures forall p :: p in db.prices && p !in old(db.prices) ==> db.prices[p].assetId == assetId
    ensures forall k :: k in db.failures && k !in old(db.failures) ==>
      db.failures[k] == NewFailedUpdate(Some(assetId), Some(old(db.assets[assetId]).sourceId),
                                        FetchFor(old(db.Snapshot()), assetId, provider).error, runType, now)
  {
    ghost var m0 := db.failures;
    var outcome, written, first := UpdateAssetPrices(db, assetId, provider, now, runType);
    ok := outcome.Done?;
    newIds := written;
    if !ok {
      ghost var m1 := db.failures;
      var second := RegisterFailedUpdate(db, Some(assetId), Some(db.assets[assetId].sourceId), outcome.message, runType, now);
      forall b
        ensures |RecordsFor(db.failures, b)| == |RecordsFor(m0, b)| + (if b == assetId then 2 else 0)
      {
        RecordsAfterAdd(m0, first, m1[first], b);
        RecordsAfterAdd(m1, second, db.failures[second], b);
      }
    }
  }

  /** `update_all_assets(run_type)`: every loaded asset is refreshed once,
      in the order the query returns them, which the model leaves open. A
      failure is counted, recorded a second time by the loop, and does not
      stop the run. Returns the two counters. */
  method UpdateAllAssets(db: Database, provider: Provider, now: Timestamp, runType: RunType := Manual)
    returns (success: nat, failures: nat, ghost rowsOf: map<Id, seq<Id>>)
    requires db.Valid()
    modifies db
    ensures db.Valid()
    ensures db.users == old(db.users) && db.sources == old(db.sources) && db.assets == old(db.assets)
    ensures Extends(db.prices, old(db.prices)) && Extends(db.failures, old(db.failures))
    ensures success + failures == |Loaded(old(db.assets), old(db.sources))|
    ensures success == |Succeeding(old(db.Snapshot()), provider)|
    ensures |db.failures| == |old(db.failures)| + 2 * failures
    ensures forall a :: a in Loaded(old(db.assets), old(db.sources)) ==>
      |RecordsFor(db.failures, a)| == |RecordsFor(old(db.failures), a)| +
        (if a in Succeeding(old(db.Snapshot()), provider) then 0 else 2)
    ensures forall p :: p in db.prices && p !in old(db.prices) ==>
      db.prices[p].assetId in Succeeding(old(db.Snapshot()), provider)
    ensures rowsOf.Keys == Succeeding(old(db.Snapshot()), provider)
    ensures AllStored(old(db.Snapshot()), db.prices, rowsOf, provider, now)
    ensures db.prices.Keys == old(db.prices).Keys + RowIds(rowsOf)
    ensures FailuresRecorded(old(db.Snapshot()), db.failures, Loaded(old(db.assets), old(db.sources)),
                             Succeeding(old(db.Snapshot()), provider), provider, runType, now)
  {
    ghost var t0 := db.Snapshot();
    ghost var loaded := Loaded(db.assets, db.sources);
    ghost var okSet := Succeeding(t0, provider);
    ghost var done: set<Id> := {};
    var remaining := Loaded(db.assets, db.sources);
    success, failures := 0, 0;
    rowsOf := map[];
    while remaining != {}
      invariant db.Valid()
      invariant remaining !! done && remaining + done == loaded
      invariant Progress(t0, db.Snapshot(), done, okSet, success, failures)
      invariant rowsOf.Keys == done * okSet && AllStored(t0, db.prices, rowsOf, provider, now)
      invariant OnlyStored(t0.prices, db.prices, rowsOf)
      invariant FailuresRecorded(t0, db.failures, done, okSet, provider, runType, now)
      decreases remaining
    {
      if forall y :: y !in remaining {
        assert false;
      }
      var id :| id in remaining;
      MoveOne(remaining, done, loaded, id);
      success, failures, rowsOf := RunStep(db, id, provider, now, runType, t0, done, okSet, success, failures, rowsOf);
      done := done + {id};
      remaining := remaining - {id};
    }
    DoneAll(done, loaded, okSet);
    assert rowsOf.Keys == okSet;
    PricesWritten(t0, db.prices, rowsOf, provider, now);
  }

  /** For every asset of `rowsOf`, a loaded asset whose download in `t0`
      succeeds, the rows of the bars it downloaded are stored in `prices`
      under the ids `rowsOf` gives it, none of them used in `t0`. */
  ghost predicate AllStored(t0: Tables, prices: map<Id, HistoricalPrice>, rowsOf: map<Id, seq<Id>>,
                            provider: Provider, now: Timestamp) {
    forall a :: a in rowsOf ==>
      && a in Loaded(t0.assets, t0.sources)
      && FetchFor(t0, a, provider).Ok?
      && BarsStored(t0.prices, prices, rowsOf[a], t0.assets[a], a, FetchFor(t0, a, provider).value, now)
  }

  /** The price ids `rowsOf` gives its assets. */
  ghost function RowIds(rowsOf: map<Id, seq<Id>>): set<Id> {
    set a, p | a in rowsOf && p in rowsOf[a] :: p
  }

  /** Every price row added to `p0` is one of the rows `rowsOf` gives. */
  ghost predicate OnlyStored(p0: map<Id, HistoricalPrice>, prices: map<Id, HistoricalPrice>, rowsOf: map<Id, seq<Id>>) {
    forall p :: p in prices && p !in p0 ==> p in RowIds(rowsOf)
  }

  /** Every failure record added since `t0` is one the refresh of an asset
      of `done - okSet` wrote, or the loop's handler wrote after it: the
      asset, its source, the message of the failed download, the run type
      and the time. */
  ghost predicate FailuresRecorded(t0: Tables, failures: map<Id, FailedUpdate>, done: set<Id>, okSet: set<Id>,
                                   provider: Provider, runType: RunType, now: Timestamp) {
    forall k :: k in failures && k !in t0.failures ==>
      && failures[k].assetId.Some?
      && var a := failures[k].assetId.value;
         && a in done - okSet && a in Loaded(t0.assets, t0.sources)
         && FetchFor(t0, a, provider).Err?
         && failures[k] == NewFailedUpdate(Some(a), Some(t0.assets[a].sourceId), FetchFor(t0, a, provider).error,
                                           runType, now)
  }

  /** Once the rows of `rowsOf` are stored and no other row was added, the
      new price ids are exactly those of `rowsOf`. */
  lemma PricesWritten(t0: Tables, prices: map<Id, HistoricalPrice>, rowsOf: map<Id, seq<Id>>,
                      provider: Provider, now: Timestamp)
    requires AllStored(t0, prices, rowsOf, provider, now) && OnlyStored(t0.prices, prices, rowsOf)
    requires Extends(prices, t0.prices)
    ensures prices.Keys == t0.prices.Keys + RowIds(rowsOf)
  {
    forall p | p in RowIds(rowsOf)
      ensures p in prices
    {
      var a :| a in rowsOf && p in rowsOf[a];
      var i :| 0 <= i < |rowsOf[a]| && rowsOf[a][i] == p;
      assert BarsStored(t0.prices, prices, rowsOf[a], t0.assets[a], a, FetchFor(t0, a, provider).value, now);
      assert rowsOf[a][i] in prices;
    }
    assert forall p :: p in prices.Keys <==> p in t0.prices.Keys + RowIds(rowsOf);
  }

  /** What the run has done once the assets of `done` are refreshed, from
      the tables `t0` it started with, `okSet` being the assets whose
      download succeeds. */
  ghost predicate Progress(t0: Tables, t: Tables, done: set<Id>, okSet: set<Id>, success: nat, failures: nat) {
    && t.users == t0.users && t.sources == t0.sources && t.assets == t0.assets
    && Extends(t.prices, t0.prices) && Extends(t.failures, t0.failures)
    && success == |done * okSet| && failures == |done - okSet|
    && |t.failures| == |t0.failures| + 2 * failures
    && (forall p :: p in t.prices && p !in t0.prices ==> t.prices[p].assetId in done * okSet)
    && (forall a :: a in Loaded(t0.assets, t0.sources) ==>
          |RecordsFor(t.failures, a)| == |RecordsFor(t0.failures, a)| + (if a in done - okSet then 2 else 0))
  }

  /** One iteration of the run's loop, with the counters it updates. */
  method RunStep(db: Database, id: Id, provider: Provider, now: Timestamp, runType: RunType,
                 ghost t0: Tables, ghost done: set<Id>, ghost okSet: set<Id>, success: nat, failures: nat,
                 ghost rowsOf: map<Id, seq<Id>>)
    returns (success': nat, failures': nat, ghost rowsOf': map<Id, seq<Id>>)
    requires db.Valid() && Consistent(t0)
    requires id in Loaded(t0.assets, t0.sources) && id !in done
    requires okSet == Succeeding(t0, provider)
    requires Progress(t0, db.Snapshot(), done, okSet, success, failures)
    requires rowsOf.Keys == done * okSet && AllStored(t0, db.prices, rowsOf, provider, now)
    requires OnlyStored(t0.prices, db.prices, rowsOf)
    requires FailuresRecorded(t0, db.failures, done, okSet, provider, runType, now)
    modifies db
    ensures db.Valid()
    ensures Progress(t0, db.Snapshot(), done + {id}, okSet, success', failures')
    ensures rowsOf'.Keys == (done + {id}) * okSet && AllStored(t0, db.prices, rowsOf', provider, now)
    ensures OnlyStored(t0.prices, db.prices, rowsOf')
    ensures FailuresRecorded(t0, db.failures, done + {id}, okSet, provider, runType, now)
  {
    FetchKept(t0, db.Snapshot(), id, provider);
    ghost var before := db.Snapshot();
    var ok, newIds := RefreshAndRecord(db, id, provider, now, runType);
    assert ok <==> id in okSet;
    StoredStep(t0, before.prices, db.prices, rowsOf, id, newIds, provider, now, ok);
    StoredKeysStep(rowsOf, done, okSet, id, newIds, ok);
    OnlyStoredStep(t0.prices, before.prices, db.prices, rowsOf, id, newIds, ok);
    FailuresStep(t0, before.failures, db.failures, done, okSet, id, provider, runType, now, ok);
    if ok {
      success', failures' := success + 1, failures;
      rowsOf' := rowsOf[id := newIds];
    } else {
      success', failures' := success, failures + 1;
      rowsOf' := rowsOf;
    }
    ProgressStep(t0, before, db.Snapshot(), done, okSet, success, failures, id, ok);
  }

  /** After one more refresh the rows of every succeeding asset done so
      far are stored, this asset's included when its refresh succeeded. */
  lemma StoredStep(t0: Tables, p1: map<Id, HistoricalPrice>, p2: map<Id, HistoricalPrice>,
                   rowsOf: map<Id, seq<Id>>, id: Id, newIds: seq<Id>, provider: Provider, now: Timestamp, ok: bool)
    requires AllStored(t0, p1, rowsOf, provider, now) && Extends(p2, p1) && Extends(p1, t0.prices)
    requires id in Loaded(t0.assets, t0.sources)
    requires ok ==> (FetchFor(t0, id, provider).Ok? &&
                     BarsStored(p1, p2, newIds, t0.assets[id], id, FetchFor(t0, id, provider).value, now))
    ensures AllStored(t0, p2, if ok then rowsOf[id := newIds] else rowsOf, provider, now)
  {
    AllStoredKept(t0, p1, p2, rowsOf, provider, now);
    if ok {
      BarsStoredKept(p1, t0.prices, p2, p2, newIds, t0.assets[id], id, FetchFor(t0, id, provider).value, now);
    }
  }

  /** After one more refresh every new price row is still one of the
      stored rows, this asset's included when its refresh succeeded. */
  lemma OnlyStoredStep(p0: map<Id, HistoricalPrice>, p1: map<Id, HistoricalPrice>, p2: map<Id, HistoricalPrice>,
                       rowsOf: map<Id, seq<Id>>, id: Id, newIds: seq<Id>, ok: bool)
    requires OnlyStored(p0, p1, rowsOf) && id !in rowsOf
    requires forall p :: p in p2 ==> p in p1 || p in newIds
    requires !ok ==> p2 == p1
    ensures OnlyStored(p0, p2, if ok then rowsOf[id := newIds] else rowsOf)
  {
    var rows := if ok then rowsOf[id := newIds] else rowsOf;
    forall p | p in p2 && p !in p0
      ensures p in RowIds(rows)
    {
      if p in p1 {
        var a :| a in rowsOf && p in rowsOf[a];
        assert a in rows && rows[a] == rowsOf[a];
      } else {
        assert id in rows && rows[id] == newIds;
      }
    }
  }

  /** After one more refresh every new failure record is still one the
      refresh of a failing asset wrote, this asset's included when its
      refresh failed. */
  lemma FailuresStep(t0: Tables, f1: map<Id, FailedUpdate>, f2: map<Id, FailedUpdate>, done: set<Id>, okSet: set<Id>,
                     id: Id, provider: Provider, runType: RunType, now: Timestamp, ok: bool)
    requires FailuresRecorded(t0, f1, done, okSet, provider, runType, now)
    requires Extends(f1, t0.failures) && Extends(f2, f1)
    requires id in Loaded(t0.assets, t0.sources) && (ok <==> FetchFor(t0, id, provider).Ok?) && (ok <==> id in okSet)
    requires ok ==> f2 == f1
    requires forall k :: k in f2 && k !in f1 ==>
      f2[k] == NewFailedUpdate(Some(id), Some(t0.assets[id].sourceId), FetchFor(t0, id, provider).error, runType, now)
    ensures FailuresRecorded(t0, f2, done + {id}, okSet, provider, runType, now)
  {
    forall k | k in f2 && k !in t0.failures
      ensures f2[k].assetId.Some? && f2[k].assetId.value in (done + {id}) - okSet
    {
      if k in f1 {
        assert f2[k] == f1[k];
      }
    }
  }

  /** The assets with stored rows are the succeeding assets done so far. */
  lemma StoredKeysStep(rowsOf: map<Id, seq<Id>>, done: set<Id>, okSet: set<Id>, id: Id, newIds: seq<Id>, ok: bool)
    requires rowsOf.Keys == done * okSet && (ok <==> id in okSet)
    ensures (if ok then rowsOf[id := newIds] else rowsOf).Keys == (done + {id}) * okSet
  {
  }

  /** The rows stored so far stay stored when the refresh of another asset
      only adds rows. */
  lemma AllStoredKept(t0: Tables, prices: map<Id, HistoricalPrice>, later: map<Id, HistoricalPrice>,
                      rowsOf: map<Id, seq<Id>>, provider: Provider, now: Timestamp)
    requires AllStored(t0, prices, rowsOf, provider, now) && Extends(later, prices)
    ensures AllStored(t0, later, rowsOf, provider, now)
  {
    forall a | a in rowsOf
      ensures BarsStored(t0.prices, later, rowsOf[a], t0.assets[a], a, FetchFor(t0, a, provider).value, now)
    {
      BarsStoredKept(t0.prices, t0.prices, prices, later, rowsOf[a], t0.assets[a], a, FetchFor(t0, a, provider).value, now);
    }
  }

  /** What one refresh does to the tables keeps the run's progress, with
      one more asset done and the matching counter raised. */
  lemma ProgressStep(t0: Tables, t1: Tables, t2: Tables, done: set<Id>, okSet: set<Id>,
                     success: nat, failures: nat, id: Id, ok: bool)
    requires Progress(t0, t1, done, okSet, success, failures)
    requires id !in done && (ok <==> id in okSet)
    requires t2.users == t1.users && t2.sources == t1.sources && t2.assets == t1.assets
    requires Extends(t2.prices, t1.prices) && Extends(t2.failures, t1.failures)
    requires ok ==> t2.failures == t1.failures
    requires !ok ==> t2.prices == t1.prices && |t2.failures| == |t1.failures| + 2
    requires forall b ::
      |RecordsFor(t2.failures, b)| == |RecordsFor(t1.failures, b)| + (if b == id && !ok then 2 else 0)
    requires forall p :: p in t2.prices && p !in t1.prices ==> t2.prices[p].assetId == id
    ensures Progress(t0, t2, done + {id}, okSet,
                     if ok then success + 1 else success, if ok then failures else failures + 1)
  {
    DoneCounts(done, okSet, id);
    RecordsStep(t0.failures, t1.failures, t2.failures, Loaded(t0.assets, t0.sources), done, okSet, id, ok);
  }

  /** The per-asset record counts after one more asset is done. */
  lemma RecordsStep(m0: map<Id, FailedUpdate>, before: map<Id, FailedUpdate>, after: map<Id, FailedUpdate>,
                    loaded: set<Id>, done: set<Id>, okSet: set<Id>, id: Id, ok: bool)
    requires forall a :: a in loaded ==>
      |RecordsFor(before, a)| == |RecordsFor(m0, a)| + (if a in done - okSet then 2 else 0)
    requires forall b ::
      |RecordsFor(after, b)| == |RecordsFor(before, b)| + (if b == id && !ok then 2 else 0)
    requires id !in done && (ok <==> id in okSet)
    ensures forall a :: a in loaded ==>
      |RecordsFor(after, a)| == |RecordsFor(m0, a)| + (if a in (done + {id}) - okSet then 2 else 0)
  {
  }

  /** Moving one asset from the remaining set to the done set keeps the
      two a partition of the loaded assets. */
  lemma MoveOne(remaining: set<Id>, done: set<Id>, loaded: set<Id>, id: Id)
    requires remaining !! done && remaining + done == loaded && id in remaining
    ensures (remaining - {id}) !! (done + {id}) && (remaining - {id}) + (done + {id}) == loaded
  {
  }

  /** The counters after one more asset is done. */
  lemma DoneCounts(done: set<Id>, okSet: set<Id>, id: Id)
    requires id !in done
    ensures id in okSet ==> |(done + {id}) * okSet| == |done * okSet| + 1 && (done + {id}) - okSet == done - okSet
    ensures id !in okSet ==> (done + {id}) * okSet == done * okSet && |(done + {id}) - okSet| == |done - okSet| + 1
  {
    if id in okSet {
      assert (done + {id}) * okSet == done * okSet + {id};
    } else {
      assert (done + {id}) - okSet == (done - okSet) + {id};
    }
  }

  /** Once every loaded asset is done, the counters split the loaded set. */
  lemma DoneAll(done: set<Id>, loaded: set<Id>, okSet: set<Id>)
    requires done == loaded && okSet <= loaded
    ensures done * okSet == okSet && |done * okSet| + |done - okSet| == |loaded|
  {
    assert done * okSet == okSet;
    assert loaded == okSet + (done - okSet);
  }

  /** `update_single_asset(symbol, run_type)`: true exactly when the symbol
      names an asset whose refresh succeeds. An unknown symbol gives one
      failure record with no asset and no source; a failed refresh gives
      two records for the asset. */
  method UpdateSingleAsset(db: Database, symbol: string, provider: Provider, now: Timestamp,
                           runType: RunType := Manual) returns (ok: bool, ghost newIds: seq<Id>)
    requires db.Valid()
    modifies db
    ensures db.Valid()
    ensures db.users == old(db.users) && db.sources == old(db.sources) && db.assets == old(db.assets)
    ensures Extends(db.prices, old(db.prices)) && Extends(db.failures, old(db.failures))
    ensures var found := FindBySymbol(old(db.assets), symbol);
      && (ok <==> found.Some? && FetchFor(old(db.Snapshot()), found.value, provider).Ok?)
      && (found.None? ==>
            && db.prices == old(db.prices)
            && |db.failures| == |old(db.failures)| + 1
            && forall k :: k in db.failures && k !in old(db.failures) ==>
                 db.failures[k] == NewFailedUpdate(None, None,
                   "Activo '" + symbol + "' no encontrado en la base de datos", runType, now))
      && (found.Some? && !ok ==>
            && db.prices == old(db.prices)
            && |db.failures| == |old(db.failures)| + 2
            && |RecordsFor(db.failures, found.value)| == |RecordsFor(old(db.failures), found.value)| + 2
            && forall k :: k in db.failures && k !in old(db.failures) ==>
                 db.failures[k] == NewFailedUpdate(Some(found.value), Some(old(db.assets)[found.value].sourceId),
                   FetchFor(old(db.Snapshot()), found.value, provider).error, runType, now))
      && (ok ==> db.failures == old(db.failures))
      && (ok ==> BarsStored(old(db.prices), db.prices, newIds, old(db.assets)[found.value], found.value,
                            FetchFor(old(db.Snapshot()), found.value, provider).value, now))
      && (forall p :: p in db.prices && p !in old(db.prices) ==> found.Some? && db.prices[p].assetId == found.value)
      && (forall p :: p in db.prices && p !in old(db.prices) ==> p in newIds)
  {
    var found := FindBySymbol(db.assets, symbol);
    match found {
      case None =>
        var k := RegisterFailedUpdate(db, None, None,
          "Activo '" + symbol + "' no encontrado en la base de datos", runType, now);
        ok, newIds := false, [];
      case Some(id) =>
        ok, newIds := RefreshAndRecord(db, id, provider, now, runType);
    }
  }
}
