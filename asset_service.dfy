/** services/asset_service.py: creating and deleting assets through the
    shared database, and the three read-only listings the admin screens use
    (assets with their source code, sources as dropdown options, a source's
    id by its code). Every operation catches its own errors: a refused
    commit rolls back and comes back as a message, a failed query as an
    empty answer. */
module AssetService {
  import opened DbModels
  import opened Text
  import opened Store

  /** The symbol `create_asset` stores: stripped, then upper-cased. */
  function NormalizedSymbol(symbol: string): (r: string)
    ensures |r| <= |symbol|
    ensures Stripped(r)
    ensures forall i :: 0 <= i < |r| ==> !('a' <= r[i] <= 'z')
  {
    UpperKeepsStripped(Strip(symbol));
    UpperHasNoLower(Strip(symbol));
    Upper(Strip(symbol))
  }

  /** Normalizing an already stored symbol changes nothing. */
  lemma NormalizedSymbolIdempotent(symbol: string)
    ensures NormalizedSymbol(NormalizedSymbol(symbol)) == NormalizedSymbol(symbol)
  {
    var n := NormalizedSymbol(symbol);
    StripOfStripped(n);
    assert Upper(n) == Upper(Upper(Strip(symbol)));
    UpperIdempotent(Strip(symbol));
  }

  /** The row `create_asset` builds: only symbol, name, source and source
      symbol are given, the other columns keep their defaults. */
  function NewAsset(symbol: string, name: string, sourceId: Id, sourceSymbol: string, now: Timestamp): (a: Asset)
    ensures a.symbol == NormalizedSymbol(symbol)
    ensures a.name == Some(Strip(name)) && a.sourceSymbol == Strip(sourceSymbol) && a.sourceId == sourceId
    ensures a.sector.None? && a.industry.None? && a.country.None? && a.currency.None?
    ensures a.createdAt == now && a.updatedAt.None?
  {
    Asset(NormalizedSymbol(symbol), Some(Strip(name)), None, None, None, None, sourceId, Strip(sourceSymbol), now, None)
  }

  /** Why an insert of an asset is refused. */
  datatype CreateRefusal =
    | AlreadyExists          // the exact input symbol is stored
    | DuplicateSymbol        // the normalized symbol clashes with the unique column
    | UnknownSource          // the foreign key to price_sources fails

  /** The outcome of `create_asset` on the given tables: None when the
      asset is inserted, otherwise the first reason it is refused. */
  function CreateCheck(assets: map<Id, Asset>, sources: map<Id, PriceSource>, symbol: string, sourceId: Id): (r: Option<CreateRefusal>)
    requires SymbolsUnique(assets)
    ensures r.None? <==>
      SymbolFree(assets, symbol) && SymbolFree(assets, NormalizedSymbol(symbol)) && sourceId in sources
    ensures r == Some(AlreadyExists) <==> !SymbolFree(assets, symbol)
    ensures r == Some(DuplicateSymbol) ==> !SymbolFree(assets, NormalizedSymbol(symbol))
    ensures r == Some(UnknownSource) ==> sourceId !in sources
  {
    if FindBySymbol(assets, symbol).Some? then Some(AlreadyExists)
    else if FindBySymbol(assets, NormalizedSymbol(symbol)).Some? then Some(DuplicateSymbol)
    else if sourceId !in sources then Some(UnknownSource)
    else None
  }

  /** A fixed description standing for the driver's text of a refused
      commit. */
  function ViolationText(v: CreateRefusal): string {
    match v
    case AlreadyExists => ""
    case DuplicateSymbol => "(IntegrityError) Duplicate entry for key 'symbol'"
    case UnknownSource => "(IntegrityError) foreign key constraint fails on 'source_id'"
  }

  /** The `(message, ok)` pair `create_asset` returns, given the check. */
  function CreateMessage(symbol: string, refusal: Option<CreateRefusal>): (r: (string, bool))
    ensures r.1 <==> refusal.None?
  {
    match refusal
    case None => ("Activo '" + symbol + "' creado exitosamente.", true)
    case Some(AlreadyExists) => ("El activo '" + symbol + "' ya existe.", false)
    case Some(v) => ("Error SQL al crear asset '" + symbol + "': " + ViolationText(v), false)
  }

  /** `create_asset(symbol, name, source_id, source_symbol)`: refuses an
      exact duplicate before touching the table; otherwise inserts the
      normalized row, and a commit the schema refuses is rolled back. */
  method CreateAsset(db: Database, symbol: string, name: string, sourceId: Id, sourceSymbol: string, now: Timestamp)
    returns (msg: string, ok: bool, ghost id: Id)
    requires db.Valid()
    modifies db
    ensures db.Valid()
    ensures ok <==> CreateCheck(old(db.assets), old(db.sources), symbol, sourceId).None?
    ensures (msg, ok) == CreateMessage(symbol, CreateCheck(old(db.assets), old(db.sources), symbol, sourceId))
    ensures ok ==>
      id !in old(db.assets) &&
      db.Snapshot() == old(db.Snapshot()).(assets := old(db.assets)[id := NewAsset(symbol, name, sourceId, sourceSymbol, now)])
    ensures !ok ==> db.Snapshot() == old(db.Snapshot())
  {
    var check := CreateCheck(db.assets, db.sources, symbol, sourceId);
    msg, ok := CreateMessage(symbol, check).0, CreateMessage(symbol, check).1;
    id := 0;
    if check.None? {
      id := db.AddAsset(NewAsset(symbol, name, sourceId, sourceSymbol, now));
    }
  }

  /** Once an asset is created, no later `create_asset` whose input
      normalizes to the same symbol can succeed: the input stored verbatim
      is an exact duplicate, and any other spelling clashes on the unique
      column. */
  lemma CreatedSymbolBlocksVariants(assets: map<Id, Asset>, sources: map<Id, PriceSource>, id: Id, a: Asset,
                                    first: string, second: string, sourceId: Id)
    requires SymbolsUnique(assets) && id in assets && assets[id] == a
    requires a.symbol == NormalizedSymbol(first)
    requires NormalizedSymbol(second) == NormalizedSymbol(first)
    ensures CreateCheck(assets, sources, second, sourceId).Some?
    ensures second == a.symbol ==> CreateCheck(assets, sources, second, sourceId) == Some(AlreadyExists)
  {
    assert !SymbolFree(assets, NormalizedSymbol(second));
  }

  /** The stored symbol is itself refused as an exact duplicate, because
      normalizing it again gives the same text. */
  lemma StoredSymbolIsDuplicate(assets: map<Id, Asset>, sources: map<Id, PriceSource>, id: Id,
                                symbol: string, sourceId: Id)
    requires SymbolsUnique(assets) && id in assets && assets[id].symbol == NormalizedSymbol(symbol)
    ensures CreateCheck(assets, sources, NormalizedSymbol(symbol), sourceId) == Some(AlreadyExists)
  {
    NormalizedSymbolIdempotent(symbol);
    CreatedSymbolBlocksVariants(assets, sources, id, assets[id], symbol, NormalizedSymbol(symbol), sourceId);
  }

  /** `delete_asset(asset_id)`: a missing id is reported and nothing
      changes; otherwise the asset and, by cascade, its prices and failure
      records are deleted. */
  method DeleteAsset(db: Database, assetId: Id) returns (msg: string, ok: bool)
    requires db.Valid()
    modifies db
    ensures db.Valid()
    ensures ok <==> assetId in old(db.assets)
    ensures !ok ==> msg == "Activo ID " + IntToString(assetId) + " no encontrado." && db.Snapshot() == old(db.Snapshot())
    ensures ok ==> msg == "Activo '" + old(db.assets)[assetId].symbol + "' eliminado correctamente."
    ensures ok ==> db.Snapshot() == DeleteAssetCascade(old(db.Snapshot()), assetId)
  {
    if assetId !in db.assets {
      return "Activo ID " + IntToString(assetId) + " no encontrado.", false;
    }
    var symbol := db.assets[assetId].symbol;
    db.RemoveAsset(assetId);
    msg, ok := "Activo '" + symbol + "' eliminado correctamente.", true;
  }

  /** Deleting removes exactly the one asset: every other asset, every
      user and every source is still there, unchanged. */
  lemma DeleteRemovesExactlyOne(t: Tables, id: Id)
    requires id in t.assets
    ensures var r := DeleteAssetCascade(t, id);
      && id !in r.assets
      && |r.assets| == |t.assets| - 1
      && (forall a :: a in t.assets && a != id ==> a in r.assets && r.assets[a] == t.assets[a])
  {
    var r := DeleteAssetCascade(t, id);
    assert r.assets.Keys == t.assets.Keys - {id};
  }

  /** One mapping of `list_assets`, with the joined source code under
      `source`. */
  datatype AssetRow = AssetRow(
    id: Id,
    symbol: string,
    name: Option<string>,
    sourceSymbol: string,
    country: Option<string>,
    currency: Option<string>,
    source: string)

  /** The row for one asset, joined with its source. */
  function RowOf(id: Id, a: Asset, s: PriceSource): (r: AssetRow)
    ensures r.id == id && r.symbol == a.symbol && r.source == s.code
  {
    AssetRow(id, a.symbol, a.name, a.sourceSymbol, a.country, a.currency, s.code)
  }

  /** The assets whose source row exists: those the inner join keeps. */
  function Joinable(assets: map<Id, Asset>, sources: map<Id, PriceSource>): set<Id> {
    set k | k in assets && assets[k].sourceId in sources
  }

  /** `list_assets()`: the assets joined with their price source, in
      ascending id order. */
  function ListAssets(assets: map<Id, Asset>, sources: map<Id, PriceSource>): (rows: seq<AssetRow>)
    ensures |rows| <= |assets|
    ensures forall i :: 0 <= i < |rows| ==>
      && rows[i].id in assets && assets[rows[i].id].sourceId in sources
      && rows[i] == RowOf(rows[i].id, assets[rows[i].id], sources[assets[rows[i].id].sourceId])
    ensures |rows| == |Joinable(assets, sources)|
    ensures forall i, j :: 0 <= i < j < |rows| ==> rows[i].id < rows[j].id
  {
    var keys := Joinable(assets, sources);
    var ids := Ascending(keys);
    assert keys <= assets.Keys;
    CardOfSubset(keys, assets.Keys);
    var rows := seq(|ids|, i requires 0 <= i < |ids| =>
      var a := assets[ids[i]]; RowOf(ids[i], a, sources[a.sourceId]));
    rows
  }

  /** Every asset whose source exists has its row in the listing. */
  lemma ListAssetsCoversJoinable(assets: map<Id, Asset>, sources: map<Id, PriceSource>, k: Id)
    requires k in assets && assets[k].sourceId in sources
    ensures exists i :: 0 <= i < |ListAssets(assets, sources)| && ListAssets(assets, sources)[i].id == k
  {
    var rows := ListAssets(assets, sources);
    var ids := Ascending(Joinable(assets, sources));
    assert k in Joinable(assets, sources);
    var i :| 0 <= i < |ids| && ids[i] == k;
    assert rows[i].id == k;
  }

  /** A subset is no larger than its superset. */
  lemma CardOfSubset(a: set<Id>, b: set<Id>)
    requires a <= b
    ensures |a| <= |b|
  {
    assert b == a + (b - a);
  }

  /** Under the schema's foreign key every asset has its source, so the
      listing holds one row per asset. */
  lemma ListAssetsCoversEveryAsset(t: Tables)
    requires Consistent(t)
    ensures |ListAssets(t.assets, t.sources)| == |t.assets|
    ensures forall id :: id in t.assets ==>
      exists i :: 0 <= i < |ListAssets(t.assets, t.sources)| && ListAssets(t.assets, t.sources)[i].id == id
  {
    forall k | k in t.assets
      ensures k in Joinable(t.assets, t.sources)
    {
    }
    assert Joinable(t.assets, t.sources) == t.assets.Keys;
    forall id | id in t.assets
      ensures exists i :: 0 <= i < |ListAssets(t.assets, t.sources)| && ListAssets(t.assets, t.sources)[i].id == id
    {
      ListAssetsCoversJoinable(t.assets, t.sources, id);
    }
  }

  /** One dropdown option of `list_sources`: the `label` key (a reserved
      word in Dafny, hence `labelText`) and the `value` key. */
  datatype SourceOption = SourceOption(labelText: string, value: Id)

  /** `list_sources()`: one `{label: name, value: id}` per source, in
      ascending id order. */
  function ListSources(sources: map<Id, PriceSource>): (r: seq<SourceOption>)
    ensures |r| == |sources|
    ensures forall i :: 0 <= i < |r| ==> r[i].value in sources && r[i].labelText == sources[r[i].value].name
    ensures forall id :: id in sources ==> SourceOption(sources[id].name, id) in r
    ensures forall i, j :: 0 <= i < j < |r| ==> r[i].value < r[j].value
  {
    var ids := Ascending(sources.Keys);
    var r := Options(sources, ids);
    OptionsCover(sources, ids);
    r
  }

  /** One option per id of `ids`, in the same order. */
  function Options(sources: map<Id, PriceSource>, ids: seq<Id>): (r: seq<SourceOption>)
    requires forall i :: 0 <= i < |ids| ==> ids[i] in sources
    ensures |r| == |ids|
    ensures forall i :: 0 <= i < |r| ==> r[i] == SourceOption(sources[ids[i]].name, ids[i])
    ensures forall i :: 0 <= i < |r| ==> r[i].value in sources && r[i].labelText == sources[r[i].value].name
  {
    seq(|ids|, i requires 0 <= i < |ids| => SourceOption(sources[ids[i]].name, ids[i]))
  }

  /** Every source whose id is listed has its option. */
  lemma OptionsCover(sources: map<Id, PriceSource>, ids: seq<Id>)
    requires forall i :: 0 <= i < |ids| ==> ids[i] in sources
    requires forall k :: k in sources ==> k in ids
    ensures forall id :: id in sources ==> SourceOption(sources[id].name, id) in Options(sources, ids)
  {
    var r := Options(sources, ids);
    forall id | id in sources
      ensures SourceOption(sources[id].name, id) in r
    {
      var i :| 0 <= i < |ids| && ids[i] == id;
      assert r[i] == SourceOption(sources[id].name, id);
    }
  }

  /** The ids of the sources with this code. */
  function CodeMatches(sources: map<Id, PriceSource>, code: string): set<Id> {
    set k | k in sources && sources[k].code == code
  }

  /** `get_source_id_by_code(code)`: the id of the one source with this
      code; None when none matches, and also when several do, because
      `scalar_one_or_none` then raises and the error is swallowed. */
  function GetSourceIdByCode(sources: map<Id, PriceSource>, code: string): (r: Option<Id>)
    ensures r.Some? ==> r.value in sources && sources[r.value].code == code
    ensures r.Some? ==> forall k :: k in sources && sources[k].code == code ==> k == r.value
    ensures r.None? ==> |CodeMatches(sources, code)| != 1
  {
    var ids := CodeMatches(sources, code);
    if |ids| == 1 then
      if forall y :: y !in ids then assert false; None
      else
        var k :| k in ids;
        SingletonMember(ids, k);
        assert forall j :: j in sources && sources[j].code == code ==> j in ids;
        Some(k)
    else None
  }

  /** A set of one element holds nothing but that element. */
  lemma SingletonMember(s: set<Id>, k: Id)
    requires |s| == 1 && k in s
    ensures s == {k}
  {
    var rest := s - {k};
    assert s == rest + {k};
    assert |rest| == 0;
  }

  /** The code column is unique, so the lookup fails only when no source
      has the code. */
  lemma SourceLookupUnderUniqueCodes(sources: map<Id, PriceSource>, code: string)
    requires SourcesUnique(sources)
    ensures GetSourceIdByCode(sources, code).None? <==> forall k :: k in sources ==> sources[k].code != code
  {
    var ids := CodeMatches(sources, code);
    if k :| k in sources && sources[k].code == code {
      assert forall j :: j in ids ==> j == k;
      assert ids == {k};
    } else {
      assert forall j :: j !in ids;
      assert ids == {};
    }
  }
}
