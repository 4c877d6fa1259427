/** The database the services share, as one object whose five tables the
    services change in place. Each primitive below is one committed
    transaction: it either applies its change in full or, when the caller
    has found a reason to roll back, is not called at all. New primary keys
    come from one auto-increment counter per table. */
module Store {
  import opened DbModels

  class Database {
    var users: map<Id, User>
    var sources: map<Id, PriceSource>
    var assets: map<Id, Asset>
    var prices: map<Id, HistoricalPrice>
    var failures: map<Id, FailedUpdate>
    var nextUserId: Id
    var nextAssetId: Id
    var nextPriceId: Id
    var nextFailureId: Id

    /** The five tables as one value. */
    function Snapshot(): Tables
      reads this
    {
      Tables(users, sources, assets, prices, failures)
    }

    /** The schema's constraints hold, and every auto-increment counter is
        above every key already used in its table. */
    ghost predicate Valid()
      reads this
    {
      && Consistent(Snapshot())
      && (forall k :: k in users ==> k < nextUserId)
      && (forall k :: k in assets ==> k < nextAssetId)
      && (forall k :: k in prices ==> k < nextPriceId)
      && (forall k :: k in failures ==> k < nextFailureId)
    }

    /** A database whose only rows are the configured price sources. */
    constructor (seed: map<Id, PriceSource>)
      requires SourcesUnique(seed)
      ensures Valid()
      ensures Snapshot() == Tables(map[], seed, map[], map[], map[])
    {
      users, sources, assets, prices, failures := map[], seed, map[], map[], map[];
      nextUserId, nextAssetId, nextPriceId, nextFailureId := 1, 1, 1, 1;
    }

    /** `session.add(user); session.commit()`. */
    method AddUser(u: User) returns (id: Id)
      requires Valid()
      requires forall k :: k in users ==> users[k].username != u.username
      modifies this
      ensures Valid()
      ensures id !in old(users)
      ensures Snapshot() == old(Snapshot()).(users := old(users)[id := u])
    {
      id := nextUserId;
      users := users[id := u];
      nextUserId := nextUserId + 1;
    }

    /** `session.add(asset); session.commit()`. */
    method AddAsset(a: Asset) returns (id: Id)
      requires Valid()
      requires SymbolFree(assets, a.symbol) && a.sourceId in sources
      modifies this
      ensures Valid()
      ensures id !in old(assets)
      ensures Snapshot() == old(Snapshot()).(assets := old(assets)[id := a])
    {
      id := nextAssetId;
      assets := assets[id := a];
      nextAssetId := nextAssetId + 1;
    }

    /** Attribute updates on a loaded asset, then `session.commit()`. */
    method ReplaceAsset(id: Id, a: Asset)
      requires Valid()
      requires id in assets && a.sourceId in sources
      requires forall k :: k in assets && k != id ==> assets[k].symbol != a.symbol
      modifies this
      ensures Valid()
      ensures Snapshot() == old(Snapshot()).(assets := old(assets)[id := a])
    {
      assets := assets[id := a];
    }

    /** `session.delete(asset); session.commit()`, cascades included. */
    method RemoveAsset(id: Id)
      requires Valid()
      requires id in assets
      modifies this
      ensures Valid()
      ensures Snapshot() == DeleteAssetCascade(old(Snapshot()), id)
    {
      DeleteAssetKeepsConsistency(Snapshot(), id);
      var t := DeleteAssetCascade(Snapshot(), id);
      assets, prices, failures := t.assets, t.prices, t.failures;
    }

    /** `session.merge(price)` of a row with no primary key: an insert. */
    method AddPrice(p: HistoricalPrice) returns (id: Id)
      requires Valid()
      requires p.assetId in assets && p.sourceId in sources
      modifies this
      ensures Valid()
      ensures id !in old(prices)
      ensures Snapshot() == old(Snapshot()).(prices := old(prices)[id := p])
    {
      id := nextPriceId;
      prices := prices[id := p];
      nextPriceId := nextPriceId + 1;
    }

    /** `session.add(failure); session.commit()`. */
    method AddFailure(f: FailedUpdate) returns (id: Id)
      requires Valid()
      requires RefersTo(f.assetId, assets.Keys) && RefersTo(f.sourceId, sources.Keys)
      modifies this
      ensures Valid()
      ensures id !in old(failures)
      ensures Snapshot() == old(Snapshot()).(failures := old(failures)[id := f])
    {
      id := nextFailureId;
      failures := failures[id := f];
      nextFailureId := nextFailureId + 1;
    }

    /** A bulk `UPDATE failed_updates ...`, then `session.commit()`. */
    method SetFailures(m: map<Id, FailedUpdate>)
      requires Valid()
      requires m.Keys == failures.Keys
      requires forall k :: k in m ==> RefersTo(m[k].assetId, assets.Keys) && RefersTo(m[k].sourceId, sources.Keys)
      modifies this
      ensures Valid()
      ensures Snapshot() == old(Snapshot()).(failures := m)
    {
      failures := m;
    }
  }
}
