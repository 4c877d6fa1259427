/** The failure ledger of services/failed_updates.py: recording a failed
    refresh, the newest-first listing, and marking a record resolved. */
module FailedUpdates {
  import opened DbModels
  import opened Store

  /** `register_failed_update(asset_id, source_id, error_message, run_type)`:
      one new record with the column defaults, stamped with the clock. */
  method RegisterFailedUpdate(db: Database, assetId: Option<Id>, sourceId: Option<Id>,
                              message: string, runType: RunType, now: Timestamp) returns (id: Id)
    requires db.Valid()
    requires RefersTo(assetId, db.assets.Keys) && RefersTo(sourceId, db.sources.Keys)
    modifies db
    ensures db.Valid()
    ensures id !in old(db.failures)
    ensures db.Snapshot() == old(db.Snapshot()).(failures := old(db.failures)[id := NewFailedUpdate(assetId, sourceId, message, runType, now)])
  {
    id := db.AddFailure(NewFailedUpdate(assetId, sourceId, message, runType, now));
  }

  /** Record `a` is listed before record `b`: it ran later, or at the same
      instant with a larger id. */
  predicate Before(failures: map<Id, FailedUpdate>, a: Id, b: Id)
    requires a in failures && b in failures
  {
    var ta, tb := failures[a].runTimestamp, failures[b].runTimestamp;
    ta > tb || (ta == tb && a > b)
  }

  /** A non-empty set of records has one that comes before all others. */
  lemma {:induction false} FirstExists(failures: map<Id, FailedUpdate>, keys: set<Id>)
    requires keys != {} && keys <= failures.Keys
    ensures exists m :: m in keys && forall k :: k in keys && k != m ==> Before(failures, m, k)
    decreases keys
  {
    if forall y :: y !in keys {
      assert false;
    }
    var x :| x in keys;
    if keys == {x} {
      assert forall k :: k in keys && k != x ==> Before(failures, x, k);
    } else {
      var rest := keys - {x};
      FirstExists(failures, rest);
      var m :| m in rest && forall k :: k in rest && k != m ==> Before(failures, m, k);
      var first := if Before(failures, x, m) then x else m;
      forall k | k in keys && k != first
        ensures Before(failures, first, k)
      {
        if k != x && k != m {
          assert k in rest;
        }
      }
      assert first in keys;
    }
  }

  /** The record of `keys` that the listing shows first. */
  function First(failures: map<Id, FailedUpdate>, keys: set<Id>): (m: Id)
    requires keys != {} && keys <= failures.Keys
    ensures m in keys && forall k :: k in keys && k != m ==> Before(failures, m, k)
  {
    FirstExists(failures, keys);
    var m :| m in keys && forall k :: k in keys && k != m ==> Before(failures, m, k);
    m
  }

  /** `ORDER BY run_timestamp DESC`: every key of `keys` once, each record
      before every record that follows it. */
  function NewestFirst(failures: map<Id, FailedUpdate>, keys: set<Id>): (r: seq<Id>)
    requires keys <= failures.Keys
    ensures |r| == |keys|
    ensures forall i :: 0 <= i < |r| ==> r[i] in keys
    ensures forall k :: k in keys ==> k in r
    ensures forall i, j :: 0 <= i < j < |r| ==> Before(failures, r[i], r[j])
    decreases keys
  {
    if keys == {} then []
    else
      var m := First(failures, keys);
      var rest := NewestFirst(failures, keys - {m});
      assert forall k :: k in keys ==> k == m || k in keys - {m};
      [m] + rest
  }

  /** One entry of the listing. */
  datatype FailureView = FailureView(
    asset: Option<string>,
    source: Option<string>,
    timestamp: Timestamp,
    error: Option<string>,
    resolved: bool)

  /** The entry for one record; a reference to a row that is gone, or that
      was never set, shows as None. */
  function View(f: FailedUpdate, assets: map<Id, Asset>, sources: map<Id, PriceSource>): (v: FailureView)
    ensures v.asset.Some? <==> f.assetId.Some? && f.assetId.value in assets
    ensures v.asset.Some? ==> v.asset.value == assets[f.assetId.value].symbol
    ensures v.source.Some? <==> f.sourceId.Some? && f.sourceId.value in sources
    ensures v.source.Some? ==> v.source.value == sources[f.sourceId.value].name
    ensures v.timestamp == f.runTimestamp && v.error == f.errorMessage && v.resolved == f.resolved
  {
    FailureView(
      if f.assetId.Some? && f.assetId.value in assets then Some(assets[f.assetId.value].symbol) else None,
      if f.sourceId.Some? && f.sourceId.value in sources then Some(sources[f.sourceId.value].name) else None,
      f.runTimestamp, f.errorMessage, f.resolved)
  }

  function Min(a: int, b: int): int {
    if a < b then a else b
  }

  /** The ids `list_failed_updates(limit)` shows, in order. */
  function ListedIds(failures: map<Id, FailedUpdate>, limit: nat): (r: seq<Id>)
    ensures |r| == Min(limit, |failures|)
    ensures forall i :: 0 <= i < |r| ==> r[i] in failures
    ensures forall i, j :: 0 <= i < j < |r| ==> Before(failures, r[i], r[j])
    ensures limit >= |failures| ==> forall k :: k in failures ==> k in r
  {
    var all := NewestFirst(failures, failures.Keys);
    all[..Min(limit, |all|)]
  }

  /** `list_failed_updates(limit)`: the `limit` newest records, resolved or
      not, newest first. */
  function ListFailedUpdates(failures: map<Id, FailedUpdate>, assets: map<Id, Asset>,
                             sources: map<Id, PriceSource>, limit: nat := 100): (rows: seq<FailureView>)
    ensures |rows| == Min(limit, |failures|)
    ensures forall i, j :: 0 <= i < j < |rows| ==> rows[i].timestamp >= rows[j].timestamp
    ensures forall i :: 0 <= i < |rows| ==> exists k :: k in failures && rows[i] == View(failures[k], assets, sources)
    ensures forall i :: 0 <= i < |rows| ==> rows[i] == View(failures[ListedIds(failures, limit)[i]], assets, sources)
  {
    var ids := ListedIds(failures, limit);
    var rows := seq(|ids|, i requires 0 <= i < |ids| => View(failures[ids[i]], assets, sources));
    assert forall i :: 0 <= i < |rows| ==> ids[i] in failures && rows[i] == View(failures[ids[i]], assets, sources);
    rows
  }

  /** A record left out of the listing ran no later than any record shown:
      the listing holds the newest ones. */
  lemma {:induction false} ListingHoldsNewest(failures: map<Id, FailedUpdate>, limit: nat, k: Id, i: int)
    requires k in failures && k !in ListedIds(failures, limit)
    requires 0 <= i < |ListedIds(failures, limit)|
    ensures failures[k].runTimestamp <= failures[ListedIds(failures, limit)[i]].runTimestamp
  {
    var all := NewestFirst(failures, failures.Keys);
    var n := Min(limit, |all|);
    assert ListedIds(failures, limit) == all[..n];
    assert forall m :: 0 <= m < n ==> all[..n][m] == all[m];
    var j :| 0 <= j < |all| && all[j] == k;
    assert j >= n;
    assert Before(failures, all[i], all[j]);
  }

  /** The update `resolved = True WHERE id = fail_id`; nothing else moves and
      `resolved_at` is left as it was. */
  function MarkResolved(failures: map<Id, FailedUpdate>, id: Id): (r: map<Id, FailedUpdate>)
    ensures r.Keys == failures.Keys
    ensures id in r ==> r[id] == failures[id].(resolved := true)
    ensures forall k :: k in r && k != id ==> r[k] == failures[k]
  {
    if id in failures then failures[id := failures[id].(resolved := true)] else failures
  }

  /** Marking twice is marking once; marking an already resolved record or
      an unknown id changes nothing. */
  lemma MarkResolvedIdempotent(failures: map<Id, FailedUpdate>, id: Id)
    ensures MarkResolved(MarkResolved(failures, id), id) == MarkResolved(failures, id)
    ensures id !in failures || failures[id].resolved ==> MarkResolved(failures, id) == failures
  {
    if id in failures && failures[id].resolved {
      assert failures[id].(resolved := true) == failures[id];
    }
  }

  /** `mark_failed_update_resolved(fail_id)`. The statement cannot fail in
      the model, so the swallowed-error path leaves nothing to return. */
  method MarkFailedUpdateResolved(db: Database, id: Id)
    requires db.Valid()
    modifies db
    ensures db.Valid()
    ensures db.Snapshot() == old(db.Snapshot()).(failures := MarkResolved(old(db.failures), id))
  {
    db.SetFailures(MarkResolved(db.failures, id));
  }
}
