/** services/asset_importer.py: `import_asset` upserts one asset described
    by a dictionary of column values. The price source is looked up by
    `source_code`; an asset with the given symbol is updated attribute by
    attribute (or left alone when nothing differs), and otherwise a new
    asset is inserted. The result dictionary reports what happened. */
module AssetImporter {
  import opened DbModels
  import opened Text
  import opened Store
  import AssetService

  /** A value of the input dictionary: `None`, a string or an integer. */
  datatype Value = Null | Str(s: string) | Int(n: int)

  /** The input dictionary, as its items in insertion order. */
  type AssetData = seq<(string, Value)>

  /** A dictionary holds each key once. */
  predicate KeysDistinct(data: AssetData) {
    forall i, j :: 0 <= i < j < |data| ==> data[i].0 != data[j].0
  }

  /** `key in asset_data`. */
  predicate Has(data: AssetData, key: string) {
    exists i :: 0 <= i < |data| && data[i].0 == key
  }

  /** `asset_data.get(key)`: the value under `key`, `None` when absent. */
  function Get(data: AssetData, key: string): (v: Value)
    ensures v != Null ==> Has(data, key)
  {
    if data == [] then Null
    else if data[0].0 == key then data[0].1
    else
      var v := Get(data[1..], key);
      assert v != Null ==> data[1 + IndexOfKey(data[1..], key)].0 == key;
      v
  }

  /** The position of the first item with this key. */
  function IndexOfKey(data: AssetData, key: string): (i: nat)
    requires Has(data, key)
    ensures i < |data| && data[i].0 == key
  {
    if data[0].0 == key then 0
    else
      assert Has(data[1..], key) by {
        var j :| 0 <= j < |data| && data[j].0 == key;
        assert data[1..][j - 1].0 == key;
      }
      1 + IndexOfKey(data[1..], key)
  }

  /** In a dictionary, `get` of an item's key gives that item's value. */
  lemma {:induction false} GetFinds(data: AssetData, i: nat)
    requires KeysDistinct(data) && i < |data|
    ensures Get(data, data[i].0) == data[i].1
  {
    if i > 0 {
      assert data[0].0 != data[i].0;
      assert KeysDistinct(data[1..]) by {
        forall p, q | 0 <= p < q < |data[1..]|
          ensures data[1..][p].0 != data[1..][q].0
        {
          assert data[1..][p] == data[p + 1] && data[1..][q] == data[q + 1];
        }
      }
      GetFinds(data[1..], i - 1);
    }
  }

  /** `f"{value}"`. */
  function Show(v: Value): string {
    match v
    case Null => "None"
    case Str(s) => s
    case Int(n) => IntToString(n)
  }

  /** The columns of the `assets` table. */
  datatype Column =
    | IdCol | SymbolCol | NameCol | SectorCol | IndustryCol | CountryCol | CurrencyCol
    | SourceIdCol | SourceSymbolCol | CreatedAtCol | UpdatedAtCol

  function ColumnName(c: Column): string {
    match c
    case IdCol => "id"
    case SymbolCol => "symbol"
    case NameCol => "name"
    case SectorCol => "sector"
    case IndustryCol => "industry"
    case CountryCol => "country"
    case CurrencyCol => "currency"
    case SourceIdCol => "source_id"
    case SourceSymbolCol => "source_symbol"
    case CreatedAtCol => "created_at"
    case UpdatedAtCol => "updated_at"
  }

  /** The column a dictionary key names, if it names one. */
  function ColumnOf(key: string): (r: Option<Column>)
    ensures r.Some? ==> ColumnName(r.value) == key
  {
    if key == "id" then Some(IdCol)
    else if key == "symbol" then Some(SymbolCol)
    else if key == "name" then Some(NameCol)
    else if key == "sector" then Some(SectorCol)
    else if key == "industry" then Some(IndustryCol)
    else if key == "country" then Some(CountryCol)
    else if key == "currency" then Some(CurrencyCol)
    else if key == "source_id" then Some(SourceIdCol)
    else if key == "source_symbol" then Some(SourceSymbolCol)
    else if key == "created_at" then Some(CreatedAtCol)
    else if key == "updated_at" then Some(UpdatedAtCol)
    else None
  }

  /** The relationship attributes of `Asset`. */
  predicate IsRelationship(key: string) {
    key == "source" || key == "historical_prices" || key == "failed_updates"
  }

  /** `hasattr(Asset, key)`, for the attributes the model knows. */
  predicate IsAttribute(key: string) {
    ColumnOf(key).Some? || IsRelationship(key)
  }

  function OptStr(o: Option<string>): Value {
    if o.None? then Null else Str(o.value)
  }

  function OptInt(o: Option<int>): Value {
    if o.None? then Null else Int(o.value)
  }

  /** `getattr(asset, column)` for the asset stored under `id`. */
  function GetAttr(a: Asset, id: Id, c: Column): Value {
    match c
    case IdCol => Int(id)
    case SymbolCol => Str(a.symbol)
    case NameCol => OptStr(a.name)
    case SectorCol => OptStr(a.sector)
    case IndustryCol => OptStr(a.industry)
    case CountryCol => OptStr(a.country)
    case CurrencyCol => OptStr(a.currency)
    case SourceIdCol => Int(a.sourceId)
    case SourceSymbolCol => Str(a.sourceSymbol)
    case CreatedAtCol => Int(a.createdAt)
    case UpdatedAtCol => OptInt(a.updatedAt)
  }

  /** Fixed descriptions standing for the texts of the errors the driver
      and the ORM raise. */
  function NotNullText(c: Column): string {
    "(IntegrityError) Column '" + ColumnName(c) + "' cannot be null"
  }

  function InvalidValueText(c: Column): string {
    "(DataError) Incorrect value for column '" + ColumnName(c) + "'"
  }

  const DuplicateSymbolText: string := "(IntegrityError) Duplicate entry for key 'assets.symbol'"

  const UnknownSourceText: string := "(IntegrityError) foreign key constraint fails on 'source_id'"

  const KeyChangeText: string := "(IntegrityError) the primary key of an asset cannot change"

  function RelationshipText(key: string): string {
    "cannot assign a plain value to relationship '" + key + "'"
  }

  /** SQLAlchemy's text for a constructor keyword that is not an attribute. */
  function InvalidKeywordText(key: string): string {
    "'" + key + "' is an invalid keyword argument for Asset"
  }

  /** Whether an asset other than `id` has this symbol. */
  predicate SymbolTakenByOther(assets: map<Id, Asset>, id: Id, s: string) {
    exists k :: k in assets && k != id && assets[k].symbol == s
  }

  /** `setattr(asset, column, value)` followed by the commit: the new row,
      or the error the commit raises for it. */
  function Assign(a: Asset, id: Id, c: Column, v: Value, assets: map<Id, Asset>, sources: map<Id, PriceSource>): (r: Result<Asset, string>)
    ensures r.Ok? ==> GetAttr(r.value, id, c) == v
    ensures r.Ok? ==> forall d :: d != c ==> GetAttr(r.value, id, d) == GetAttr(a, id, d)
    ensures r.Ok? && c == SymbolCol ==> !SymbolTakenByOther(assets, id, r.value.symbol)
    ensures r.Ok? && c == SourceIdCol ==> r.value.sourceId in sources
  {
    match c
    case IdCol => if v == Int(id) then Ok(a) else Err(KeyChangeText)
    case SymbolCol =>
      (match v
       case Str(s) => if SymbolTakenByOther(assets, id, s) then Err(DuplicateSymbolText) else Ok(a.(symbol := s))
       case Null => Err(NotNullText(c))
       case Int(_) => Err(InvalidValueText(c)))
    case SourceSymbolCol =>
      (match v
       case Str(s) => Ok(a.(sourceSymbol := s))
       case Null => Err(NotNullText(c))
       case Int(_) => Err(InvalidValueText(c)))
    case SourceIdCol =>
      (match v
       case Int(n) => if n in sources then Ok(a.(sourceId := n)) else Err(UnknownSourceText)
       case Null => Err(NotNullText(c))
       case Str(_) => Err(InvalidValueText(c)))
    case CreatedAtCol =>
      (match v
       case Int(n) => Ok(a.(createdAt := n))
       case Null => Err(NotNullText(c))
       case Str(_) => Err(InvalidValueText(c)))
    case UpdatedAtCol =>
      (match v
       case Int(n) => Ok(a.(updatedAt := Some(n)))
       case Null => Ok(a.(updatedAt := None))
       case Str(_) => Err(InvalidValueText(c)))
    case _ =>
      (match v
       case Int(_) => Err(InvalidValueText(c))
       case Null => Ok(SetText(a, c, None))
       case Str(s) => Ok(SetText(a, c, Some(s))))
  }

  /** Sets one of the nullable text columns. */
  function SetText(a: Asset, c: Column, o: Option<string>): Asset {
    match c
    case NameCol => a.(name := o)
    case SectorCol => a.(sector := o)
    case IndustryCol => a.(industry := o)
    case CountryCol => a.(country := o)
    case _ => a.(currency := o)
  }

  /** One pass of the update loop: keys that are not attributes are
      skipped, an equal column value is left alone, a different one is
      assigned, and a relationship cannot take a plain value. The flag says
      whether an assignment happened. */
  function Step(a: Asset, id: Id, item: (string, Value), assets: map<Id, Asset>, sources: map<Id, PriceSource>): Result<(Asset, bool), string> {
    match ColumnOf(item.0)
    case Some(c) =>
      if GetAttr(a, id, c) == item.1 then Ok((a, false))
      else
        (match Assign(a, id, c, item.1, assets, sources)
         case Ok(b) => Ok((b, true))
         case Err(e) => Err(e))
    case None =>
      if IsRelationship(item.0) then Err(RelationshipText(item.0)) else Ok((a, false))
  }

  /** The update loop over the items, in order: the updated row and the
      `changed` flag, or the first error. */
  function Applied(a: Asset, id: Id, data: AssetData, assets: map<Id, Asset>, sources: map<Id, PriceSource>): Result<(Asset, bool), string>
    decreases |data|
  {
    if data == [] then Ok((a, false))
    else
      match Applied(a, id, data[..|data| - 1], assets, sources)
      case Err(e) => Err(e)
      case Ok(p) =>
        (match Step(p.0, id, data[|data| - 1], assets, sources)
         case Err(e) => Err(e)
         case Ok(q) => Ok((q.0, p.1 || q.1)))
  }

  /** The loop of lines 43-47: walks the items with a `changed` flag,
      assigning every attribute whose value differs. */
  method ApplyAttributes(existing: Asset, id: Id, data: AssetData, assets: map<Id, Asset>, sources: map<Id, PriceSource>)
    returns (r: Result<Asset, string>, changed: bool)
    ensures r.Ok? <==> Applied(existing, id, data, assets, sources).Ok?
    ensures r.Ok? ==> Applied(existing, id, data, assets, sources).value == (r.value, changed)
    ensures r.Err? ==> r.error == Applied(existing, id, data, assets, sources).error
  {
    var a := existing;
    changed := false;
    var i := 0;
    while i < |data|
      invariant 0 <= i <= |data|
      invariant Applied(existing, id, data[..i], assets, sources) == Ok((a, changed))
    {
      ApplyPrefixStep(existing, id, data, assets, sources, i);
      var key, value := data[i].0, data[i].1;
      var c := ColumnOf(key);
      if c.Some? {
        if GetAttr(a, id, c.value) != value {
          var outcome := Assign(a, id, c.value, value, assets, sources);
          if outcome.Err? {
            ApplyErrSticks(existing, id, data, assets, sources, i + 1);
            return Err(outcome.error), changed;
          }
          a, changed := outcome.value, true;
        }
      } else if IsRelationship(key) {
        ApplyErrSticks(existing, id, data, assets, sources, i + 1);
        return Err(RelationshipText(key)), changed;
      }
      i := i + 1;
    }
    assert data[..i] == data;
    r := Ok(a);
  }

  /** The loop over one more item is the loop so far followed by one pass. */
  lemma ApplyPrefixStep(a: Asset, id: Id, data: AssetData, assets: map<Id, Asset>, sources: map<Id, PriceSource>, i: nat)
    requires i < |data|
    ensures Applied(a, id, data[..i + 1], assets, sources) ==
      match Applied(a, id, data[..i], assets, sources)
      case Err(e) => Err(e)
      case Ok(p) =>
        (match Step(p.0, id, data[i], assets, sources)
         case Err(e) => Err(e)
         case Ok(q) => Ok((q.0, p.1 || q.1)))
  {
    assert data[..i + 1][..i] == data[..i];
  }

  /** Once the loop has failed on a prefix, it fails the same way on the
      whole input. */
  lemma {:induction false} ApplyErrSticks(a: Asset, id: Id, data: AssetData, assets: map<Id, Asset>,
                                          sources: map<Id, PriceSource>, n: nat)
    requires n <= |data|
    requires Applied(a, id, data[..n], assets, sources).Err?
    ensures Applied(a, id, data, assets, sources) == Applied(a, id, data[..n], assets, sources)
    decreases |data| - n
  {
    if n < |data| {
      assert data[..n + 1][..n] == data[..n];
      ApplyErrSticks(a, id, data, assets, sources, n + 1);
    } else {
      assert data[..n] == data;
    }
  }

  /** Some item of the input names column `c`. */
  ghost predicate NamesColumn(data: AssetData, c: Column) {
    exists i :: 0 <= i < |data| && ColumnOf(data[i].0) == Some(c)
  }

  /** Some item of the input names a column whose stored value differs. */
  ghost predicate Differs(a: Asset, id: Id, data: AssetData) {
    exists i :: 0 <= i < |data| && ItemDiffers(a, id, data[i])
  }

  /** The item names a column whose stored value differs from the item's. */
  predicate ItemDiffers(a: Asset, id: Id, item: (string, Value)) {
    ColumnOf(item.0).Some? && GetAttr(a, id, ColumnOf(item.0).value) != item.1
  }

  /** Every column the input names holds that value in `b`. */
  ghost predicate Holds(b: Asset, id: Id, data: AssetData) {
    forall i :: 0 <= i < |data| ==> ItemHolds(b, id, data[i])
  }

  /** The column the item names, if any, holds the item's value in `b`. */
  predicate ItemHolds(b: Asset, id: Id, item: (string, Value)) {
    ColumnOf(item.0).Some? ==> GetAttr(b, id, ColumnOf(item.0).value) == item.1
  }

  /** The input names no relationship. */
  predicate NoRelationship(data: AssetData) {
    forall i :: 0 <= i < |data| ==> !IsRelationship(data[i].0)
  }

  /** What one successful pass does: a named column ends up holding the
      value, the other columns are untouched, and the flag says whether the
      column differed; any other key leaves the row alone. */
  lemma StepEffect(b: Asset, id: Id, item: (string, Value), assets: map<Id, Asset>, sources: map<Id, PriceSource>)
    requires Step(b, id, item, assets, sources).Ok?
    ensures var q := Step(b, id, item, assets, sources).value;
      match ColumnOf(item.0)
      case Some(c) =>
        && GetAttr(q.0, id, c) == item.1
        && (forall d :: d != c ==> GetAttr(q.0, id, d) == GetAttr(b, id, d))
        && (q.1 <==> GetAttr(b, id, c) != item.1)
      case None => q == (b, false) && !IsRelationship(item.0)
  {
  }

  /** A successful loop is a successful loop over all but the last item
      followed by a successful last pass. */
  lemma ApplyLast(a: Asset, id: Id, data: AssetData, assets: map<Id, Asset>, sources: map<Id, PriceSource>)
    requires data != [] && Applied(a, id, data, assets, sources).Ok?
    ensures var init := data[..|data| - 1];
      && Applied(a, id, init, assets, sources).Ok?
      && var p := Applied(a, id, init, assets, sources).value;
      && Step(p.0, id, data[|data| - 1], assets, sources).Ok?
      && var q := Step(p.0, id, data[|data| - 1], assets, sources).value;
      Applied(a, id, data, assets, sources).value == (q.0, p.1 || q.1)
  {
  }

  /** In a dictionary the last key names no column an earlier key names. */
  lemma LastKeyFresh(data: AssetData)
    requires KeysDistinct(data) && data != []
    ensures var col := ColumnOf(data[|data| - 1].0);
      col.Some? ==> !NamesColumn(data[..|data| - 1], col.value)
  {
  }

  /** Taking the last item off a dictionary leaves a dictionary. */
  lemma InitDistinct(data: AssetData)
    requires KeysDistinct(data) && data != []
    ensures KeysDistinct(data[..|data| - 1])
  {
  }

  /** The input names no relationship when the loop succeeds. */
  lemma {:induction false} ApplyNoRelationship(a: Asset, id: Id, data: AssetData, assets: map<Id, Asset>, sources: map<Id, PriceSource>)
    requires Applied(a, id, data, assets, sources).Ok?
    ensures NoRelationship(data)
    decreases |data|
  {
    if data != [] {
      var init := data[..|data| - 1];
      ApplyLast(a, id, data, assets, sources);
      ApplyNoRelationship(a, id, init, assets, sources);
      var p := Applied(a, id, init, assets, sources).value;
      StepEffect(p.0, id, data[|data| - 1], assets, sources);
      assert forall i :: 0 <= i < |init| ==> data[i] == init[i];
    }
  }

  /** After a successful loop every named column holds its value and every
      other column is unchanged. */
  lemma {:induction false} ApplyColumns(a: Asset, id: Id, data: AssetData, assets: map<Id, Asset>, sources: map<Id, PriceSource>)
    requires KeysDistinct(data)
    requires Applied(a, id, data, assets, sources).Ok?
    ensures var b := Applied(a, id, data, assets, sources).value.0;
      && Holds(b, id, data)
      && (forall c :: !NamesColumn(data, c) ==> GetAttr(b, id, c) == GetAttr(a, id, c))
    decreases |data|
  {
    if data != [] {
      var init, last := data[..|data| - 1], data[|data| - 1];
      InitDistinct(data);
      ApplyLast(a, id, data, assets, sources);
      ApplyColumns(a, id, init, assets, sources);
      LastKeyFresh(data);
      var p := Applied(a, id, init, assets, sources).value;
      StepEffect(p.0, id, last, assets, sources);
      ColumnsStep(a, p.0, Applied(a, id, data, assets, sources).value.0, id, data);
    }
  }

  /** The column facts after all but the last item, and the effect of the
      last pass, give the column facts after all the items. */
  lemma ColumnsStep(a: Asset, p: Asset, b: Asset, id: Id, data: AssetData)
    requires data != []
    requires Holds(p, id, data[..|data| - 1])
    requires forall c :: !NamesColumn(data[..|data| - 1], c) ==> GetAttr(p, id, c) == GetAttr(a, id, c)
    requires var col := ColumnOf(data[|data| - 1].0);
      if col.Some? then
        && GetAttr(b, id, col.value) == data[|data| - 1].1
        && (forall d :: d != col.value ==> GetAttr(b, id, d) == GetAttr(p, id, d))
        && !NamesColumn(data[..|data| - 1], col.value)
      else b == p
    ensures Holds(b, id, data)
    ensures forall c :: !NamesColumn(data, c) ==> GetAttr(b, id, c) == GetAttr(a, id, c)
  {
    var init := data[..|data| - 1];
    forall i | 0 <= i < |data|
      ensures ItemHolds(b, id, data[i])
    {
      if i < |init| && ColumnOf(data[i].0).Some? {
        assert init[i] == data[i];
        assert NamesColumn(init, ColumnOf(data[i].0).value);
      }
    }
    forall c | NamesColumn(init, c)
      ensures NamesColumn(data, c)
    {
      var i :| 0 <= i < |init| && ColumnOf(init[i].0) == Some(c);
      assert init[i] == data[i];
    }
  }

  /** The loop's `changed` flag is set exactly when some named column
      differed from the stored row. */
  lemma {:induction false} ApplyChanged(a: Asset, id: Id, data: AssetData, assets: map<Id, Asset>, sources: map<Id, PriceSource>)
    requires KeysDistinct(data)
    requires Applied(a, id, data, assets, sources).Ok?
    ensures Applied(a, id, data, assets, sources).value.1 <==> Differs(a, id, data)
    decreases |data|
  {
    if data != [] {
      var init, last := data[..|data| - 1], data[|data| - 1];
      InitDistinct(data);
      ApplyLast(a, id, data, assets, sources);
      ApplyChanged(a, id, init, assets, sources);
      ApplyColumns(a, id, init, assets, sources);
      LastKeyFresh(data);
      var p := Applied(a, id, init, assets, sources).value;
      StepEffect(p.0, id, last, assets, sources);
      var col := ColumnOf(last.0);
      if col.Some? {
        assert GetAttr(p.0, id, col.value) == GetAttr(a, id, col.value);
      }
      DiffersLast(a, id, data);
    }
  }

  /** Some named column of the input differs exactly when one of all but
      the last item differs or the last item's does. */
  lemma DiffersLast(a: Asset, id: Id, data: AssetData)
    requires data != []
    ensures Differs(a, id, data) <==> Differs(a, id, data[..|data| - 1]) || ItemDiffers(a, id, data[|data| - 1])
  {
    var init := data[..|data| - 1];
    if Differs(a, id, data) {
      var i :| 0 <= i < |data| && ItemDiffers(a, id, data[i]);
      if i < |init| {
        assert init[i] == data[i];
      }
    }
    if Differs(a, id, init) {
      var i :| 0 <= i < |init| && ItemDiffers(a, id, init[i]);
      assert init[i] == data[i];
    }
  }

  /** What a successful update loop did: every named column now holds its
      value, every other column is unchanged, no relationship was named,
      and `changed` says exactly whether some named column differed. */
  lemma ApplyEffect(a: Asset, id: Id, data: AssetData, assets: map<Id, Asset>, sources: map<Id, PriceSource>)
    requires KeysDistinct(data)
    requires Applied(a, id, data, assets, sources).Ok?
    ensures var b := Applied(a, id, data, assets, sources).value.0;
      && Holds(b, id, data)
      && (forall c :: !NamesColumn(data, c) ==> GetAttr(b, id, c) == GetAttr(a, id, c))
    ensures NoRelationship(data)
    ensures Applied(a, id, data, assets, sources).value.1 <==> Differs(a, id, data)
  {
    ApplyNoRelationship(a, id, data, assets, sources);
    ApplyColumns(a, id, data, assets, sources);
    ApplyChanged(a, id, data, assets, sources);
  }

  /** When every named column already holds its value and no relationship
      is named, the loop changes nothing. */
  lemma {:induction false} ApplyIdentical(a: Asset, id: Id, data: AssetData, assets: map<Id, Asset>, sources: map<Id, PriceSource>)
    requires Holds(a, id, data) && NoRelationship(data)
    ensures Applied(a, id, data, assets, sources) == Ok((a, false))
    decreases |data|
  {
    if data != [] {
      var init := data[..|data| - 1];
      assert forall i :: 0 <= i < |init| ==> data[i] == init[i];
      ApplyIdentical(a, id, init, assets, sources);
    }
  }

  /** The row fits the table under key `id`: its source exists and no
      other asset has its symbol. */
  ghost predicate FitsTable(b: Asset, id: Id, assets: map<Id, Asset>, sources: map<Id, PriceSource>) {
    b.sourceId in sources && !SymbolTakenByOther(assets, id, b.symbol)
  }

  /** Assignments that pass their checks keep the row fit for the table. */
  lemma {:induction false} ApplyFits(a: Asset, id: Id, data: AssetData, assets: map<Id, Asset>, sources: map<Id, PriceSource>)
    requires FitsTable(a, id, assets, sources)
    requires Applied(a, id, data, assets, sources).Ok?
    ensures FitsTable(Applied(a, id, data, assets, sources).value.0, id, assets, sources)
    decreases |data|
  {
    if data != [] {
      var init := data[..|data| - 1];
      ApplyFits(a, id, init, assets, sources);
      var p := Applied(a, id, init, assets, sources).value.0;
      var col := ColumnOf(data[|data| - 1].0);
      if col.Some? && GetAttr(p, id, col.value) != data[|data| - 1].1 {
        var b := Assign(p, id, col.value, data[|data| - 1].1, assets, sources).value;
        assert GetAttr(b, id, SymbolCol) == GetAttr(p, id, SymbolCol) || col.value == SymbolCol;
        assert GetAttr(b, id, SourceIdCol) == GetAttr(p, id, SourceIdCol) || col.value == SourceIdCol;
      }
    }
  }

  /** Whether the input assigns `updated_at` a new value itself. */
  predicate UpdatedAtAssigned(a: Asset, data: AssetData) {
    Has(data, "updated_at") && Get(data, "updated_at") != OptInt(a.updatedAt)
  }

  /** The column's `onupdate`: an UPDATE that does not set `updated_at`
      itself sets it to the time of the commit. */
  function Stamped(original: Asset, b: Asset, data: AssetData, now: Timestamp): (r: Asset)
    ensures r.updatedAt == (if UpdatedAtAssigned(original, data) then b.updatedAt else Some(now))
    ensures r.(updatedAt := b.updatedAt) == b
  {
    if UpdatedAtAssigned(original, data) then b else b.(updatedAt := Some(now))
  }

  /** The first key that is neither an attribute of `Asset` nor one of
      `ignored`, if any. */
  function FirstUnknownKey(data: AssetData, ignored: set<string>): (r: Option<string>)
    ensures r.None? <==> forall i :: 0 <= i < |data| ==> IsAttribute(data[i].0) || data[i].0 in ignored
    ensures r.Some? ==> Has(data, r.value) && !IsAttribute(r.value) && r.value !in ignored
  {
    if data == [] then None
    else if !IsAttribute(data[0].0) && data[0].0 !in ignored then Some(data[0].0)
    else
      var r := FirstUnknownKey(data[1..], ignored);
      assert forall i :: 1 <= i < |data| ==> data[1..][i - 1] == data[i];
      if r.Some? then
        var j :| 0 <= j < |data[1..]| && data[1..][j].0 == r.value;
        assert data[j + 1].0 == r.value;
        r
      else r
  }

  /** A nullable text column as the constructor fills it: absent or
      `None` gives null. */
  function OptionalText(data: AssetData, c: Column): (r: Result<Option<string>, string>)
    ensures r.Ok? ==> OptStr(r.value) == Get(data, ColumnName(c))
  {
    match Get(data, ColumnName(c))
    case Null => Ok(None)
    case Str(s) => Ok(Some(s))
    case Int(_) => Err(InvalidValueText(c))
  }

  /** A non-null text column as the constructor fills it. */
  function RequiredText(data: AssetData, c: Column): (r: Result<string, string>)
    ensures r.Ok? ==> Str(r.value) == Get(data, ColumnName(c))
  {
    match Get(data, ColumnName(c))
    case Null => Err(NotNullText(c))
    case Str(s) => Ok(s)
    case Int(_) => Err(InvalidValueText(c))
  }

  /** `created_at` as the insert fills it: the given value, or the
      column default when the key is absent; an explicit `None` is a null. */
  function CreatedAtValue(data: AssetData, now: Timestamp): (r: Result<Timestamp, string>)
    ensures r.Ok? && Has(data, "created_at") ==> Int(r.value) == Get(data, "created_at")
    ensures r.Ok? && !Has(data, "created_at") ==> r.value == now
  {
    match Get(data, "created_at")
    case Int(n) => Ok(n)
    case Null => if Has(data, "created_at") then Err(NotNullText(CreatedAtCol)) else Ok(now)
    case Str(_) => Err(InvalidValueText(CreatedAtCol))
  }

  /** `updated_at` as the insert fills it: the given value, null otherwise. */
  function UpdatedAtValue(data: AssetData): (r: Result<Option<Timestamp>, string>)
    ensures r.Ok? ==> OptInt(r.value) == Get(data, "updated_at")
  {
    match Get(data, "updated_at")
    case Int(n) => Ok(Some(n))
    case Null => Ok(None)
    case Str(_) => Err(InvalidValueText(UpdatedAtCol))
  }

  /** The asset inserted for a new symbol: each column the input gives,
      the defaults for the others, and the looked-up source. The input's
      own `id` and `source_id` are not used: the row takes the next key,
      and line 58 overwrites the source. */
  function BuildAsset(data: AssetData, sourceId: Id, now: Timestamp): (r: Result<Asset, string>)
    ensures r.Ok? ==> r.value.sourceId == sourceId && NoRelationship(data)
    ensures r.Ok? ==> Str(r.value.symbol) == Get(data, "symbol")
  {
    var rel := FirstRelationship(data);
    if rel.Some? then Err(RelationshipText(rel.value))
    else
      var symbol := RequiredText(data, SymbolCol);
      var sourceSymbol := RequiredText(data, SourceSymbolCol);
      var name := OptionalText(data, NameCol);
      var sector := OptionalText(data, SectorCol);
      var industry := OptionalText(data, IndustryCol);
      var country := OptionalText(data, CountryCol);
      var currency := OptionalText(data, CurrencyCol);
      var createdAt := CreatedAtValue(data, now);
      var updatedAt := UpdatedAtValue(data);
      if symbol.Err? then Err(symbol.error)
      else if sourceSymbol.Err? then Err(sourceSymbol.error)
      else if name.Err? then Err(name.error)
      else if sector.Err? then Err(sector.error)
      else if industry.Err? then Err(industry.error)
      else if country.Err? then Err(country.error)
      else if currency.Err? then Err(currency.error)
      else if createdAt.Err? then Err(createdAt.error)
      else if updatedAt.Err? then Err(updatedAt.error)
      else
        Ok(Asset(symbol.value, name.value, sector.value, industry.value, country.value, currency.value,
                 sourceId, sourceSymbol.value, createdAt.value, updatedAt.value))
  }

  /** The first key that names a relationship, if any. */
  function FirstRelationship(data: AssetData): (r: Option<string>)
    ensures r.None? <==> NoRelationship(data)
    ensures r.Some? ==> IsRelationship(r.value)
  {
    if data == [] then None
    else if IsRelationship(data[0].0) then Some(data[0].0)
    else
      var r := FirstRelationship(data[1..]);
      assert forall i :: 1 <= i < |data| ==> data[1..][i - 1] == data[i];
      r
  }

  /** `Asset(**kwargs)` followed by `new_asset.source_id = src.id`, the
      keyword arguments being the input's items whose key is not in
      `ignored`. The declarative constructor raises `TypeError` on the
      first keyword that is not an attribute of `Asset`; otherwise the row
      is the one BuildAsset reads from the columns. As written, line 57
      passes every item (`ignored` empty); the corrected create branch
      leaves out `source_code`, the key the source was looked up by. */
  function Construct(data: AssetData, ignored: set<string>, sourceId: Id, now: Timestamp): (r: Result<Asset, string>)
    ensures r.Ok? ==> forall i :: 0 <= i < |data| ==> IsAttribute(data[i].0) || data[i].0 in ignored
    ensures r.Ok? ==> r.value.sourceId == sourceId && Str(r.value.symbol) == Get(data, "symbol")
    ensures (exists i :: 0 <= i < |data| && !IsAttribute(data[i].0) && data[i].0 !in ignored) ==>
      r.Err? && exists i :: 0 <= i < |data| && r.error == InvalidKeywordText(data[i].0) && !IsAttribute(data[i].0) && data[i].0 !in ignored
  {
    match FirstUnknownKey(data, ignored)
    case Some(key) => Err(InvalidKeywordText(key))
    case None => BuildAsset(data, sourceId, now)
  }

  /** An inserted row holds the value the input gives for column `c`,
      and the default when the input does not name it. */
  lemma BuildColumn(data: AssetData, sourceId: Id, now: Timestamp, c: Column)
    requires BuildAsset(data, sourceId, now).Ok? && c != IdCol && c != SourceIdCol
    ensures var a := BuildAsset(data, sourceId, now).value;
      if c == CreatedAtCol && !Has(data, "created_at") then a.createdAt == now
      else GetAttr(a, 0, c) == Get(data, ColumnName(c))
  {
    var a := BuildAsset(data, sourceId, now).value;
    assert a == Asset(RequiredText(data, SymbolCol).value, OptionalText(data, NameCol).value,
                      OptionalText(data, SectorCol).value, OptionalText(data, IndustryCol).value,
                      OptionalText(data, CountryCol).value, OptionalText(data, CurrencyCol).value,
                      sourceId, RequiredText(data, SourceSymbolCol).value,
                      CreatedAtValue(data, now).value, UpdatedAtValue(data).value);
  }

  /** An inserted row holds every column value the input gives, apart
      from `id` and `source_id`. */
  lemma BuildStoresGiven(data: AssetData, sourceId: Id, now: Timestamp, id: Id)
    requires KeysDistinct(data) && BuildAsset(data, sourceId, now).Ok?
    requires !Has(data, "id") && !Has(data, "source_id")
    ensures Holds(BuildAsset(data, sourceId, now).value, id, data)
  {
    var a := BuildAsset(data, sourceId, now).value;
    forall i | 0 <= i < |data| && ColumnOf(data[i].0).Some?
      ensures GetAttr(a, id, ColumnOf(data[i].0).value) == data[i].1
    {
      GetFinds(data, i);
      var c := ColumnOf(data[i].0).value;
      if c == IdCol || c == SourceIdCol {
        assert Has(data, ColumnName(c));
      }
      if c == CreatedAtCol {
        assert Has(data, "created_at");
      }
      BuildColumn(data, sourceId, now, c);
      assert GetAttr(a, id, c) == GetAttr(a, 0, c);
    }
  }

  /** The source `import_asset` resolves `source_code` to: a string is
      compared with the `code` column; `None` matches no row. */
  function SourceFor(sources: map<Id, PriceSource>, code: Value): (r: Option<Id>)
    ensures r.Some? ==> r.value in sources && code == Str(sources[r.value].code)
  {
    if code.Str? then AssetService.GetSourceIdByCode(sources, code.s) else None
  }

  /** The asset `import_asset` finds for `symbol`: a string is compared
      with the `symbol` column; `None` matches no row. */
  function FindAsset(assets: map<Id, Asset>, symbol: Value): (r: Option<Id>)
    requires SymbolsUnique(assets)
    ensures r.Some? ==> r.value in assets && symbol == Str(assets[r.value].symbol)
    ensures r.None? && symbol.Str? ==> SymbolFree(assets, symbol.s)
  {
    if symbol.Str? then FindBySymbol(assets, symbol.s) else None
  }

  /** What `import_asset` does to the tables. */
  datatype Plan =
    | NoSource                       // the source code matches no source
    | Refused(error: string)         // an exception: rollback
    | Update(id: Id, asset: Asset)   // attributes changed: commit
    | Skip(id: Id)                   // nothing differs: no commit
    | Create(asset: Asset)           // a new symbol: insert

  /** The decision `import_asset` takes on the given tables. */
  function PlanImport(t: Tables, data: AssetData, now: Timestamp): (p: Plan)
    requires SymbolsUnique(t.assets)
  {
    var src := SourceFor(t.sources, Get(data, "source_code"));
    if src.None? then NoSource
    else match FindAsset(t.assets, Get(data, "symbol"))
      case Some(id) =>
        (match Applied(t.assets[id], id, data, t.assets, t.sources)
         case Err(e) => Refused(e)
         case Ok(p) => if p.1 then Update(id, Stamped(t.assets[id], p.0, data, now)) else Skip(id))
      case None =>
        (match Construct(data, {"source_code"}, src.value, now)
         case Err(e) => Refused(e)
         case Ok(a) => Create(a))
  }

  datatype ImportAction = Created | Updated | Skipped

  /** The `result` dictionary: `success`, `action`, `symbol` and, after a
      failure, `message`. */
  datatype ImportResult = ImportResult(success: bool, action: Option<ImportAction>, symbol: Value, message: Option<string>)

  /** The result dictionary for a decision. */
  function ResultOf(p: Plan, data: AssetData): (r: ImportResult)
    ensures r.symbol == Get(data, "symbol")
    ensures r.success <==> r.action.Some?
    ensures r.success <==> !(p.NoSource? || p.Refused?)
    ensures r.message.Some? <==> !r.success
  {
    var base := ImportResult(false, None, Get(data, "symbol"), None);
    match p
    case NoSource => base.(message := Some("Fuente '" + Show(Get(data, "source_code")) + "' no encontrada."))
    case Refused(e) => base.(message := Some(e))
    case Update(_, _) => base.(success := true, action := Some(Updated))
    case Skip(_) => base.(success := true, action := Some(Skipped))
    case Create(_) => base.(success := true, action := Some(Created))
  }

  /** `import_asset(asset_data)`. */
  method ImportAsset(db: Database, data: AssetData, now: Timestamp) returns (result: ImportResult, ghost newId: Id)
    requires db.Valid() && KeysDistinct(data)
    modifies db
    ensures db.Valid()
    ensures var p := PlanImport(old(db.Snapshot()), data, now);
      && result == ResultOf(p, data)
      && (p.Update? ==> db.Snapshot() == old(db.Snapshot()).(assets := old(db.assets)[p.id := p.asset]))
      && (p.Create? ==> newId !in old(db.assets) && db.Snapshot() == old(db.Snapshot()).(assets := old(db.assets)[newId := p.asset]))
      && (!p.Update? && !p.Create? ==> db.Snapshot() == old(db.Snapshot()))
  {
    ghost var t := db.Snapshot();
    newId := 0;
    result := ImportResult(false, None, Get(data, "symbol"), None);
    var code := Get(data, "source_code");
    var src := SourceFor(db.sources, code);
    if src.None? {
      result := result.(message := Some("Fuente '" + Show(code) + "' no encontrada."));
      return;
    }
    var existing := FindAsset(db.assets, Get(data, "symbol"));
    if existing.Some? {
      var id := existing.value;
      var original := db.assets[id];
      var applied, changed := ApplyAttributes(original, id, data, db.assets, db.sources);
      if applied.Err? {
        result := result.(message := Some(applied.error));
        return;
      }
      if changed {
        var b := Stamped(original, applied.value, data, now);
        ApplyFits(original, id, data, db.assets, db.sources);
        assert b.sourceId == applied.value.sourceId && b.symbol == applied.value.symbol;
        db.ReplaceAsset(id, b);
        result := result.(success := true, action := Some(Updated));
      } else {
        result := result.(success := true, action := Some(Skipped));
      }
    } else {
      var built := Construct(data, {"source_code"}, src.value, now);
      if built.Err? {
        result := result.(message := Some(built.error));
        return;
      }
      newId := db.AddAsset(built.value);
      result := result.(success := true, action := Some(Created));
    }
  }

  /** An unknown source code is reported with the code in the message, and
      nothing changes. */
  lemma UnknownSourceReported(t: Tables, data: AssetData, now: Timestamp)
    requires SymbolsUnique(t.assets) && SourcesUnique(t.sources)
    requires forall k :: k in t.sources ==> Get(data, "source_code") != Str(t.sources[k].code)
    ensures PlanImport(t, data, now) == NoSource
    ensures ResultOf(PlanImport(t, data, now), data).message
      == Some("Fuente '" + Show(Get(data, "source_code")) + "' no encontrada.")
  {
  }

  /** An update changes exactly the named columns that differ, and stamps
      `updated_at` unless the input set it. */
  lemma UpdateTouchesOnlyNamedColumns(t: Tables, data: AssetData, now: Timestamp)
    requires SymbolsUnique(t.assets) && KeysDistinct(data)
    requires PlanImport(t, data, now).Update?
    ensures var p := PlanImport(t, data, now);
      && p.id in t.assets
      && Differs(t.assets[p.id], p.id, data)
      && (forall c :: c != UpdatedAtCol && !NamesColumn(data, c) ==> GetAttr(p.asset, p.id, c) == GetAttr(t.assets[p.id], p.id, c))
      && (forall i :: 0 <= i < |data| && ColumnOf(data[i].0).Some? && ColumnOf(data[i].0) != Some(UpdatedAtCol) ==>
            GetAttr(p.asset, p.id, ColumnOf(data[i].0).value) == data[i].1)
  {
    var p := PlanImport(t, data, now);
    PlanUpdateFacts(t, data, now);
    var a := t.assets[p.id];
    ApplyEffect(a, p.id, data, t.assets, t.sources);
    var b := Applied(a, p.id, data, t.assets, t.sources).value.0;
    StampKeepsOthers(a, b, p.id, data, now);
  }

  /** The stamp leaves every column but `updated_at` as the loop left it. */
  lemma StampKeepsOthers(a: Asset, b: Asset, id: Id, data: AssetData, now: Timestamp)
    ensures forall c :: c != UpdatedAtCol ==> GetAttr(Stamped(a, b, data, now), id, c) == GetAttr(b, id, c)
  {
    var r := Stamped(a, b, data, now);
    assert r.(updatedAt := b.updatedAt) == b;
  }

  /** Input whose every named column already holds its value is skipped. */
  lemma IdenticalDataSkipped(t: Tables, data: AssetData, now: Timestamp, id: Id)
    requires SymbolsUnique(t.assets)
    requires id in t.assets && Get(data, "symbol") == Str(t.assets[id].symbol)
    requires SourceFor(t.sources, Get(data, "source_code")).Some?
    requires Holds(t.assets[id], id, data) && NoRelationship(data)
    ensures PlanImport(t, data, now) == Skip(id)
  {
    ApplyIdentical(t.assets[id], id, data, t.assets, t.sources);
  }

  /** Importing the same data again right after an update is skipped, as
      long as the input does not set `updated_at` (the commit stamps that
      column, so a given value would differ again). */
  lemma ReimportAfterUpdateSkipped(t: Tables, data: AssetData, now: Timestamp, later: Timestamp)
    requires SymbolsUnique(t.assets) && KeysDistinct(data) && !Has(data, "updated_at")
    requires PlanImport(t, data, now).Update?
    ensures var p := PlanImport(t, data, now);
      var t' := t.(assets := t.assets[p.id := p.asset]);
      SymbolsUnique(t'.assets) ==> PlanImport(t', data, later) == Skip(p.id)
  {
    var p := PlanImport(t, data, now);
    UpdatedRowHolds(t, data, now);
    PlanUpdateFacts(t, data, now);
    var t' := t.(assets := t.assets[p.id := p.asset]);
    if SymbolsUnique(t'.assets) {
      IdenticalDataSkipped(t', data, later, p.id);
    }
  }

  /** The updated row holds every column value the input names, its symbol
      among them, when the input does not set `updated_at`. */
  lemma UpdatedRowHolds(t: Tables, data: AssetData, now: Timestamp)
    requires SymbolsUnique(t.assets) && KeysDistinct(data) && !Has(data, "updated_at")
    requires PlanImport(t, data, now).Update?
    ensures var p := PlanImport(t, data, now);
      Holds(p.asset, p.id, data) && NoRelationship(data) && Get(data, "symbol") == Str(p.asset.symbol)
  {
    var p := PlanImport(t, data, now);
    PlanUpdateFacts(t, data, now);
    var a := t.assets[p.id];
    ApplyEffect(a, p.id, data, t.assets, t.sources);
    var b := Applied(a, p.id, data, t.assets, t.sources).value.0;
    assert p.asset == b.(updatedAt := Some(now));
    HoldsAfterStamp(b, p.id, data, now);
    var j := IndexOfKey(data, "symbol");
    GetFinds(data, j);
    assert GetAttr(p.asset, p.id, ColumnOf(data[j].0).value) == data[j].1;
  }

  /** Stamping `updated_at` keeps every value an input without that key
      names. */
  lemma HoldsAfterStamp(b: Asset, id: Id, data: AssetData, now: Timestamp)
    requires Holds(b, id, data) && !Has(data, "updated_at")
    ensures Holds(b.(updatedAt := Some(now)), id, data)
  {
    forall i | 0 <= i < |data| && ColumnOf(data[i].0).Some?
      ensures GetAttr(b.(updatedAt := Some(now)), id, ColumnOf(data[i].0).value) == data[i].1
    {
      assert data[i].0 == ColumnName(ColumnOf(data[i].0).value);
      assert ColumnOf(data[i].0) != Some(UpdatedAtCol);
    }
  }

  /** What an update decision rests on: a known source, the stored asset
      with the input's symbol, and a successful loop that changed it. */
  lemma PlanUpdateFacts(t: Tables, data: AssetData, now: Timestamp)
    requires SymbolsUnique(t.assets)
    requires PlanImport(t, data, now).Update?
    ensures var p := PlanImport(t, data, now);
      && SourceFor(t.sources, Get(data, "source_code")).Some?
      && p.id in t.assets
      && Get(data, "symbol") == Str(t.assets[p.id].symbol)
      && Applied(t.assets[p.id], p.id, data, t.assets, t.sources).Ok?
      && var q := Applied(t.assets[p.id], p.id, data, t.assets, t.sources).value;
      q.1 && p.asset == Stamped(t.assets[p.id], q.0, data, now)
  {
  }

  /** A new symbol is inserted with the looked-up source, its symbol
      taken from the input, and no clash on the unique column. */
  lemma CreateUsesLookedUpSource(t: Tables, data: AssetData, now: Timestamp)
    requires SymbolsUnique(t.assets)
    requires PlanImport(t, data, now).Create?
    ensures var a := PlanImport(t, data, now).asset;
      && SourceFor(t.sources, Get(data, "source_code")) == Some(a.sourceId)
      && Get(data, "symbol") == Str(a.symbol)
      && SymbolFree(t.assets, a.symbol)
  {
  }

  /** Importing the same data again right after a create is skipped, when
      the input gives no `id` and no `source_id` of its own. */
  lemma ReimportAfterCreateSkipped(t: Tables, data: AssetData, now: Timestamp, later: Timestamp, newId: Id)
    requires SymbolsUnique(t.assets) && KeysDistinct(data) && !Has(data, "id") && !Has(data, "source_id")
    requires PlanImport(t, data, now).Create? && newId !in t.assets
    ensures var t' := t.(assets := t.assets[newId := PlanImport(t, data, now).asset]);
      SymbolsUnique(t'.assets) ==> PlanImport(t', data, later) == Skip(newId)
  {
    var a := PlanImport(t, data, now).asset;
    PlanCreateFacts(t, data, now);
    var src := SourceFor(t.sources, Get(data, "source_code")).value;
    BuildStoresGiven(data, src, now, newId);
    var t' := t.(assets := t.assets[newId := a]);
    if SymbolsUnique(t'.assets) {
      IdenticalDataSkipped(t', data, later, newId);
    }
  }

  /** What a create decision rests on: a known source, no stored asset
      with the input's symbol, and a row the constructor accepts. */
  lemma PlanCreateFacts(t: Tables, data: AssetData, now: Timestamp)
    requires SymbolsUnique(t.assets)
    requires PlanImport(t, data, now).Create?
    ensures var src := SourceFor(t.sources, Get(data, "source_code"));
      && src.Some?
      && FindAsset(t.assets, Get(data, "symbol")).None?
      && FirstUnknownKey(data, {"source_code"}).None?
      && BuildAsset(data, src.value, now) == Ok(PlanImport(t, data, now).asset)
  {
  }


  /** `import_asset` with the constructor as written. */
  function PlanImportAsWritten(t: Tables, data: AssetData, now: Timestamp): Plan
    requires SymbolsUnique(t.assets)
  {
    var src := SourceFor(t.sources, Get(data, "source_code"));
    if src.None? then NoSource
    else match FindAsset(t.assets, Get(data, "symbol"))
      case Some(_) => PlanImport(t, data, now)
      case None =>
        (match Construct(data, {}, src.value, now)
         case Err(e) => Refused(e)
         case Ok(a) => Create(a))
  }

  /** As written, the create branch can never succeed: reaching it needs a
      source found through `source_code`, so that key is in the input, and
      it is not an attribute of `Asset`, so the constructor raises. */
  lemma CreateAsWrittenAlwaysRefused(t: Tables, data: AssetData, now: Timestamp)
    requires SymbolsUnique(t.assets)
    requires SourceFor(t.sources, Get(data, "source_code")).Some?
    requires FindAsset(t.assets, Get(data, "symbol")).None?
    ensures PlanImportAsWritten(t, data, now).Refused?
    ensures !PlanImportAsWritten(t, data, now).Create?
  {
    assert Has(data, "source_code");
    SourceCodeIsNoAttribute();
    var k := IndexOfKey(data, "source_code");
    assert FirstUnknownKey(data, {}).Some?;
  }

  /** A row as the import screen builds it: symbol, source code and the
      symbol at the source. */
  const SampleRow: AssetData := [("symbol", Str("AAPL")), ("source_code", Str("YAHOO")), ("source_symbol", Str("AAPL"))]

  /** What `get` finds in the sample row. */
  lemma SampleRowValues()
    ensures Get(SampleRow, "symbol") == Str("AAPL") && Get(SampleRow, "source_symbol") == Str("AAPL")
    ensures Get(SampleRow, "source_code") == Str("YAHOO")
    ensures forall key :: key != "symbol" && key != "source_code" && key != "source_symbol" ==> Get(SampleRow, key) == Null
    ensures !Has(SampleRow, "created_at")
  {
    assert SampleRow[1..][1..][1..] == [];
  }

  /** The sample row names no relationship. */
  lemma SampleRowNoRelationship()
    ensures FirstRelationship(SampleRow).None?
  {
    assert !IsRelationship(SampleRow[0].0) && !IsRelationship(SampleRow[1].0) && !IsRelationship(SampleRow[2].0);
  }

  /** Every column the constructor reads from the sample row is accepted. */
  lemma SampleRowColumns(now: Timestamp)
    ensures RequiredText(SampleRow, SymbolCol) == Ok("AAPL")
    ensures RequiredText(SampleRow, SourceSymbolCol) == Ok("AAPL")
    ensures CreatedAtValue(SampleRow, now) == Ok(now) && UpdatedAtValue(SampleRow) == Ok(None)
  {
    SampleRowValues();
  }

  /** The sample row leaves the nullable text columns null. */
  lemma SampleRowOptional(c: Column)
    requires c in {NameCol, SectorCol, IndustryCol, CountryCol, CurrencyCol}
    ensures OptionalText(SampleRow, c) == Ok(None)
  {
    SampleRowValues();
    var key := ColumnName(c);
    assert key != "symbol" && key != "source_code" && key != "source_symbol";
  }

  /** The constructor accepts the sample row. */
  lemma SampleRowBuilds(sid: Id, now: Timestamp)
    ensures BuildAsset(SampleRow, sid, now) == Ok(Asset("AAPL", None, None, None, None, None, sid, "AAPL", now, None))
  {
    SampleRowNoRelationship();
    SampleRowColumns(now);
    SampleRowOptional(NameCol);
    SampleRowOptional(SectorCol);
    SampleRowOptional(IndustryCol);
    SampleRowOptional(CountryCol);
    SampleRowOptional(CurrencyCol);
  }

  /** The sample row's second key is the first that is not an attribute. */
  lemma SampleRowUnknownKey()
    ensures FirstUnknownKey(SampleRow, {}) == Some("source_code")
  {
    assert IsAttribute("symbol");
    SourceCodeIsNoAttribute();
  }

  /** Leaving out `source_code`, every key of the sample row is a column. */
  lemma SampleRowKnownKeys()
    ensures FirstUnknownKey(SampleRow, {"source_code"}).None?
  {
    assert IsAttribute(SampleRow[0].0) && IsAttribute(SampleRow[2].0);
  }

  /** `source_code` is neither a column nor a relationship of `Asset`. */
  lemma SourceCodeIsNoAttribute()
    ensures !IsAttribute("source_code")
  {
  }

  /** With the constructor given only the asset's own columns, a new
      symbol with a known source is inserted; as written, the same row is
      refused by the constructor. */
  lemma CreateSucceedsWhenColumnsAreValid(t: Tables, now: Timestamp, sid: Id)
    requires SymbolsUnique(t.assets) && SourcesUnique(t.sources)
    requires sid in t.sources && t.sources[sid].code == "YAHOO"
    requires SymbolFree(t.assets, "AAPL")
    ensures PlanImport(t, SampleRow, now).Create?
    ensures PlanImport(t, SampleRow, now).asset.sourceId == sid
    ensures PlanImportAsWritten(t, SampleRow, now) == Refused(InvalidKeywordText("source_code"))
  {
    AssetService.SourceLookupUnderUniqueCodes(t.sources, "YAHOO");
    SampleRowValues();
    SampleRowBuilds(sid, now);
    SampleRowUnknownKey();
    SampleRowKnownKeys();
    assert SourceFor(t.sources, Get(SampleRow, "source_code")) == Some(sid);
    assert FindAsset(t.assets, Get(SampleRow, "symbol")).None?;
  }

  /** The correction leaves out `source_code` only: a new symbol whose
      input names some other key that is not an attribute of `Asset` is
      still refused by the constructor, naming such a key. */
  lemma CorrectedCreateRefusesOtherKeys(t: Tables, data: AssetData, now: Timestamp, i: int)
    requires SymbolsUnique(t.assets)
    requires SourceFor(t.sources, Get(data, "source_code")).Some?
    requires FindAsset(t.assets, Get(data, "symbol")).None?
    requires 0 <= i < |data| && !IsAttribute(data[i].0) && data[i].0 != "source_code"
    ensures PlanImport(t, data, now).Refused?
    ensures exists j :: 0 <= j < |data| && !IsAttribute(data[j].0) && data[j].0 != "source_code" && PlanImport(t, data, now).error == InvalidKeywordText(data[j].0)
  {
    var src := SourceFor(t.sources, Get(data, "source_code")).value;
    var j := ConstructRefuses(data, src, now, i);
    assert PlanImport(t, data, now) == Refused(Construct(data, {"source_code"}, src, now).error);
  }

  /** The corrected constructor raises on a key other than `source_code`
      that is not an attribute, naming the first such key, found at `j`. */
  lemma ConstructRefuses(data: AssetData, sourceId: Id, now: Timestamp, i: int) returns (j: int)
    requires 0 <= i < |data| && !IsAttribute(data[i].0) && data[i].0 != "source_code"
    ensures Construct(data, {"source_code"}, sourceId, now).Err?
    ensures 0 <= j < |data| && !IsAttribute(data[j].0) && data[j].0 != "source_code"
    ensures Construct(data, {"source_code"}, sourceId, now).error == InvalidKeywordText(data[j].0)
  {
    assert data[i].0 !in {"source_code"};
    UnknownKeyFound(data, {"source_code"}, i);
    var key := FirstUnknownKey(data, {"source_code"}).value;
    j := IndexOfKey(data, key);
  }

  /** An item whose key is neither an attribute nor ignored makes the
      search for an unknown key succeed. */
  lemma UnknownKeyFound(data: AssetData, ignored: set<string>, i: int)
    requires 0 <= i < |data| && !IsAttribute(data[i].0) && data[i].0 !in ignored
    ensures FirstUnknownKey(data, ignored).Some?
  {
  }
}
