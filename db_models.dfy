/** The ORM tables of models/db_models.py as records, the five tables as
    maps keyed by primary key, and the integrity constraints the schema
    declares on them (unique columns, non-null foreign keys, cascades). */
module DbModels {

  datatype Option<+T> = None | Some(value: T)

  datatype Result<+T, +E> = Ok(value: T) | Err(error: E)

  /** A `BigInteger` primary key. */
  type Id = int

  /** A calendar day, as Python's `date.toordinal()` numbers it. */
  type Date = int

  /** A `DateTime` value; the model only compares them. */
  type Timestamp = int

  /** `date(2000, 1, 1).toordinal()`. */
  const Jan1st2000: Date := 730120

  /** The `user_roles` enum. */
  datatype Role = Admin | Analyst

  /** The `run_type_enum` enum. */
  datatype RunType = Scheduled | Manual

  function RoleName(r: Role): string {
    match r
    case Admin => "admin"
    case Analyst => "analyst"
  }

  /** What the `user_roles` column accepts: exactly the two enum labels. */
  function ParseRole(s: string): (r: Option<Role>)
    ensures r.Some? <==> s == "admin" || s == "analyst"
    ensures r.Some? ==> RoleName(r.value) == s
  {
    if s == "admin" then Some(Admin)
    else if s == "analyst" then Some(Analyst)
    else None
  }

  /** The `role` default. */
  const DefaultRole: string := "analyst"

  datatype User = User(
    username: string,
    email: Option<string>,
    passwordHash: string,
    role: Role,
    isActive: bool,
    createdAt: Timestamp,
    updatedAt: Option<Timestamp>)

  datatype PriceSource = PriceSource(
    name: string,
    code: string,
    apiType: Option<string>,
    baseUrl: Option<string>,
    notes: Option<string>,
    isActive: bool,
    createdAt: Timestamp)

  datatype Asset = Asset(
    symbol: string,
    name: Option<string>,
    sector: Option<string>,
    industry: Option<string>,
    country: Option<string>,
    currency: Option<string>,
    sourceId: Id,
    sourceSymbol: string,
    createdAt: Timestamp,
    updatedAt: Option<Timestamp>)

  /** The price columns; the model treats them as payload. */
  datatype Quote = Quote(open: real, high: real, low: real, close: real, adjClose: real, volume: int)

  datatype HistoricalPrice = HistoricalPrice(
    assetId: Id,
    sourceId: Id,
    date: Date,
    quote: Quote,
    recordedAt: Timestamp)

  datatype FailedUpdate = FailedUpdate(
    assetId: Option<Id>,
    sourceId: Option<Id>,
    runTimestamp: Timestamp,
    runType: RunType,
    attemptedFrom: Option<Date>,
    attemptedTo: Option<Date>,
    errorMessage: Option<string>,
    attemptCount: int,
    resolved: bool,
    resolvedAt: Option<Timestamp>)

  /** A price source row as inserted with only its required columns given. */
  function NewPriceSource(name: string, code: string, now: Timestamp): (s: PriceSource)
    ensures s.isActive && s.name == name && s.code == code
  {
    PriceSource(name, code, None, None, None, true, now)
  }

  /** A failure row as inserted with the four columns callers give and the
      column defaults for the rest. */
  function NewFailedUpdate(assetId: Option<Id>, sourceId: Option<Id>, message: string,
                           runType: RunType, now: Timestamp): (f: FailedUpdate)
    ensures !f.resolved && f.resolvedAt.None? && f.attemptCount == 1
    ensures f.assetId == assetId && f.sourceId == sourceId && f.errorMessage == Some(message)
    ensures f.runType == runType && f.runTimestamp == now
  {
    FailedUpdate(assetId, sourceId, now, runType, None, None, Some(message), 1, false, None)
  }

  /** The whole database: one map per table, keyed by primary key. */
  datatype Tables = Tables(
    users: map<Id, User>,
    sources: map<Id, PriceSource>,
    assets: map<Id, Asset>,
    prices: map<Id, HistoricalPrice>,
    failures: map<Id, FailedUpdate>)

  /** `users.username` is unique. */
  ghost predicate UsernamesUnique(users: map<Id, User>) {
    forall a, b :: a in users && b in users && users[a].username == users[b].username ==> a == b
  }

  /** `price_sources.name` and `price_sources.code` are each unique. */
  ghost predicate SourcesUnique(sources: map<Id, PriceSource>) {
    && (forall a, b :: a in sources && b in sources && sources[a].name == sources[b].name ==> a == b)
    && (forall a, b :: a in sources && b in sources && sources[a].code == sources[b].code ==> a == b)
  }

  /** `assets.symbol` is unique. */
  ghost predicate SymbolsUnique(assets: map<Id, Asset>) {
    forall a, b :: a in assets && b in assets && assets[a].symbol == assets[b].symbol ==> a == b
  }

  /** No asset of the table has this symbol. */
  ghost predicate SymbolFree(assets: map<Id, Asset>, symbol: string) {
    forall a :: a in assets ==> assets[a].symbol != symbol
  }

  /** `select(Asset).where(Asset.symbol == symbol).scalar_one_or_none()`. */
  function FindBySymbol(assets: map<Id, Asset>, symbol: string): (r: Option<Id>)
    requires SymbolsUnique(assets)
    ensures r.Some? ==> r.value in assets && assets[r.value].symbol == symbol
    ensures r.None? ==> SymbolFree(assets, symbol)
  {
    if exists a :: a in assets && assets[a].symbol == symbol then
      var a :| a in assets && assets[a].symbol == symbol;
      Some(a)
    else None
  }

  /** A nullable foreign key: null, or the key of a row of the target table. */
  predicate RefersTo(key: Option<Id>, keys: set<Id>) {
    key.None? || key.value in keys
  }

  /** Every integrity constraint the schema declares. */
  ghost predicate Consistent(t: Tables) {
    && UsernamesUnique(t.users)
    && SourcesUnique(t.sources)
    && SymbolsUnique(t.assets)
    && (forall a :: a in t.assets ==> t.assets[a].sourceId in t.sources)
    && (forall p :: p in t.prices ==> t.prices[p].assetId in t.assets && t.prices[p].sourceId in t.sources)
    && (forall f :: f in t.failures ==>
          RefersTo(t.failures[f].assetId, t.assets.Keys) && RefersTo(t.failures[f].sourceId, t.sources.Keys))
  }

  /** `session.delete(asset)`: the asset goes, and with it, through the
      `all, delete-orphan` cascades, its prices and its failure records. */
  function DeleteAssetCascade(t: Tables, id: Id): (r: Tables)
    ensures r.users == t.users && r.sources == t.sources
    ensures r.assets.Keys == t.assets.Keys - {id}
    ensures forall a :: a in r.assets ==> r.assets[a] == t.assets[a]
    ensures forall p :: p in r.prices ==> p in t.prices && r.prices[p] == t.prices[p] && r.prices[p].assetId != id
    ensures forall p :: p in t.prices && t.prices[p].assetId != id ==> p in r.prices
    ensures forall f :: f in r.failures ==> f in t.failures && r.failures[f] == t.failures[f] && r.failures[f].assetId != Some(id)
    ensures forall f :: f in t.failures && t.failures[f].assetId != Some(id) ==> f in r.failures
  {
    t.(assets := t.assets - {id},
       prices := map p | p in t.prices && t.prices[p].assetId != id :: t.prices[p],
       failures := map f | f in t.failures && t.failures[f].assetId != Some(id) :: t.failures[f])
  }

  /** The cascade leaves no row pointing at the deleted asset, so every
      constraint still holds afterwards. */
  lemma DeleteAssetKeepsConsistency(t: Tables, id: Id)
    requires Consistent(t)
    ensures Consistent(DeleteAssetCascade(t, id))
  {
  }

  /** A finite non-empty set of integers has a least element. */
  lemma {:induction false} MinExists(s: set<int>)
    requires s != {}
    ensures exists m :: m in s && forall k :: k in s ==> m <= k
    decreases s
  {
    if forall y :: y !in s {
      assert false;
    }
    var x :| x in s;
    if s == {x} {
      assert forall k :: k in s ==> x <= k;
    } else {
      var rest := s - {x};
      MinExists(rest);
      var m :| m in rest && forall k :: k in rest ==> m <= k;
      var least := if x < m then x else m;
      forall k | k in s
        ensures least <= k
      {
        if k != x {
          assert k in rest;
        }
      }
      assert least in s;
    }
  }

  /** A finite non-empty set of integers has a greatest element. */
  lemma {:induction false} MaxExists(s: set<int>)
    requires s != {}
    ensures exists m :: m in s && forall k :: k in s ==> k <= m
    decreases s
  {
    if forall y :: y !in s {
      assert false;
    }
    var x :| x in s;
    if s == {x} {
      assert forall k :: k in s ==> k <= x;
    } else {
      var rest := s - {x};
      MaxExists(rest);
      var m :| m in rest && forall k :: k in rest ==> k <= m;
      var most := if m < x then x else m;
      forall k | k in s
        ensures k <= most
      {
        if k != x {
          assert k in rest;
        }
      }
      assert most in s;
    }
  }

  /** The least key of a non-empty table. */
  function Least(keys: set<Id>): (m: Id)
    requires keys != {}
    ensures m in keys && forall k :: k in keys ==> m <= k
  {
    MinExists(keys);
    var m :| m in keys && forall k :: k in keys ==> m <= k;
    m
  }

  /** The greatest key of a non-empty table. */
  function Greatest(keys: set<Id>): (m: Id)
    requires keys != {}
    ensures m in keys && forall k :: k in keys ==> k <= m
  {
    MaxExists(keys);
    var m :| m in keys && forall k :: k in keys ==> k <= m;
    m
  }

  /** The keys of a table in ascending order: each key once, nothing else. */
  function Ascending(keys: set<Id>): (r: seq<Id>)
    ensures |r| == |keys|
    ensures forall i :: 0 <= i < |r| ==> r[i] in keys
    ensures forall k :: k in keys ==> k in r
    ensures forall i, j :: 0 <= i < j < |r| ==> r[i] < r[j]
    decreases keys
  {
    if keys == {} then []
    else
      var m := Least(keys);
      var rest := Ascending(keys - {m});
      PrependLeast(keys, m, rest);
      [m] + rest
  }

  /** Putting the least key in front of the others in ascending order
      gives all the keys in ascending order. */
  lemma PrependLeast(keys: set<Id>, m: Id, rest: seq<Id>)
    requires m in keys && forall k :: k in keys ==> m <= k
    requires |rest| == |keys - {m}|
    requires forall i :: 0 <= i < |rest| ==> rest[i] in keys - {m}
    requires forall k :: k in keys - {m} ==> k in rest
    requires forall i, j :: 0 <= i < j < |rest| ==> rest[i] < rest[j]
    ensures |[m] + rest| == |keys|
    ensures forall i :: 0 <= i < |[m] + rest| ==> ([m] + rest)[i] in keys
    ensures forall k :: k in keys ==> k in [m] + rest
    ensures forall i, j :: 0 <= i < j < |[m] + rest| ==> ([m] + rest)[i] < ([m] + rest)[j]
  {
    PrependMembers(keys, m, rest);
    PrependSorted(keys, m, rest);
  }

  /** `[m] + rest` holds the keys when `rest` holds all of them but `m`. */
  lemma PrependMembers(keys: set<Id>, m: Id, rest: seq<Id>)
    requires m in keys && |rest| == |keys - {m}|
    requires forall i :: 0 <= i < |rest| ==> rest[i] in keys - {m}
    requires forall k :: k in keys - {m} ==> k in rest
    ensures |[m] + rest| == |keys|
    ensures forall i :: 0 <= i < |[m] + rest| ==> ([m] + rest)[i] in keys
    ensures forall k :: k in keys ==> k in [m] + rest
  {
    var r := [m] + rest;
    assert forall i :: 1 <= i < |r| ==> r[i] == rest[i - 1];
    forall k | k in keys
      ensures k in r
    {
      if k != m {
        assert k in keys - {m};
      }
    }
  }

  /** `[m] + rest` is ascending when `rest` is and `m` is below all of it. */
  lemma PrependSorted(keys: set<Id>, m: Id, rest: seq<Id>)
    requires forall k :: k in keys ==> m <= k
    requires forall i :: 0 <= i < |rest| ==> rest[i] in keys - {m}
    requires forall i, j :: 0 <= i < j < |rest| ==> rest[i] < rest[j]
    ensures forall i, j :: 0 <= i < j < |[m] + rest| ==> ([m] + rest)[i] < ([m] + rest)[j]
  {
    var r := [m] + rest;
    forall i, j | 0 <= i < j < |r|
      ensures r[i] < r[j]
    {
      assert r[j] == rest[j - 1];
      if i > 0 {
        assert r[i] == rest[i - 1];
      }
    }
  }
}
