# Stock market analysis: the service layer over its tables

The repository is a small stock-market analysis application. Its data lives
in five tables: users, price sources, assets, historical prices and a ledger
of failed price updates. A handful of service functions act on them:

- the price refresh downloads daily bars for every asset and records failures
  (its query and its source lookup as corrected under "## Findings");
- the failure ledger lists failures newest first and marks them resolved;
- the asset services create, delete and list assets and look up sources;
- the importer upserts an asset described by a dictionary (its create
  branch as corrected under "## Findings");
- the user services create users and list them;
- a registry maps source codes to price-source adapters;
- the database initialiser works out the server URI and the statements of a
  schema script.

This project models those functions on an in-memory copy of the tables and
proves what each one does to them.

The model is organised as follows:

- `DbModels` (db_models.dfy) holds the rows as datatypes, the tables as maps
  keyed by id, and the schema's constraints as one predicate.
- `Store` (store.dfy) holds `Database`, a class whose five map fields the
  services change in place. Each of its methods is one committed
  transaction, and each keeps the schema's constraints.
- Each service module holds the operations of one source file. An operation
  that changes the tables is a method on `Database`, and its `ensures` gives
  the whole new state. An operation that only reads is a function, and
  lemmas beside it state what it promises.
- `Text` (text.dfy) models the Python string built-ins the services use:
  `strip`, `upper`, `split` and `rsplit`.

Clocks, the price provider, the password hash and the connection that runs
a schema statement are all parameters.

## Model

| member | source | states |
|---|---|---|
| DbModels.ParseRole | models/db_models.py:27 | the role column accepts exactly "admin" and "analyst", and the accepted role's name is the input |
| DbModels.NewPriceSource | models/db_models.py:42-49 | a source inserted with only its name and code is active |
| DbModels.NewFailedUpdate | models/db_models.py:119-129 | a new failure record is unresolved, has attempt count 1 and no resolved_at, and carries the given asset, source, message, run type and timestamp |
| DbModels.FindBySymbol | services/price_updater.py:125 | the lookup by symbol finds an asset with exactly that symbol, and finds nothing only when no asset has it |
| DbModels.DeleteAssetCascade | models/db_models.py:78-81 | deleting an asset removes it and every price and failure record of it; every other row of every table stays, unchanged |
| DbModels.DeleteAssetKeepsConsistency | models/db_models.py:80-81 | after the cascade every constraint of the schema still holds |
| Store.Database.constructor | models/db_models.py:39-54 | a fresh database holds only the configured sources and satisfies the schema |
| Store.Database.AddUser | services/user_service.py:31-33 | inserting a user with a free username adds exactly that row under a fresh id and keeps the schema |
| Store.Database.AddAsset | services/asset_service.py:42-43 | inserting an asset with a free symbol and an existing source adds exactly that row under a fresh id |
| Store.Database.ReplaceAsset | services/asset_importer.py:46-49 | committing attribute changes replaces the one row and nothing else |
| Store.Database.RemoveAsset | services/asset_service.py:80-81 | deleting commits the cascade and keeps the schema |
| Store.Database.AddPrice | services/price_updater.py:98 | merging a price row with no primary key inserts it under a fresh id |
| Store.Database.AddFailure | models/db_models.py:116-129 | inserting a failure record adds exactly that row under a fresh id |
| Store.Database.SetFailures | services/failed_updates.py:44-50 | a bulk update of the failure table changes that table only |
| Text.Strip | init_db.py:53 | `strip` leaves no whitespace at either end and never lengthens |
| Text.StripIsMiddle | init_db.py:53 | the stripped text is a middle slice of the input, and only whitespace is cut on both sides |
| Text.StripOfStripped | services/asset_service.py:37 | stripping text with no whitespace at its ends changes nothing |
| Text.Upper | services/sources/factory.py:37 | `upper` keeps the length and maps each character on its own |
| Text.UpperIdempotent | services/asset_service.py:37 | upper-casing twice is upper-casing once |
| Text.Split | init_db.py:52 | `split(";")` gives at least one piece, no piece holds the separator, and joining the pieces gives back the input |
| Text.SplitJoin | init_db.py:52 | splitting the join of separator-free pieces gives back those pieces |
| Text.BeforeLast | init_db.py:34 | `rsplit(sep, 1)[0]` is the whole text when it has no separator, and otherwise the prefix before the last separator |
| PriceFetchers.YahooFetchPrices | services/price_fetchers.py:19-37 | a download succeeds exactly when the provider returns a non-empty frame; an empty frame raises "No se obtuvieron datos para" and the symbol; a provider error is re-raised unchanged |
| SourceFactory.GetSourceAdapter | services/sources/factory.py:25-40 | with no keyword arguments, exactly the four registered codes, in any case, select an adapter, each its own; any other code raises "Unknown source code: " with the code as given; a registered code with any keyword argument raises TypeError, since no adapter's constructor takes one |
| SourceFactory.LookupIgnoresCase | services/sources/factory.py:37 | two codes that upper-case alike, passed the same keyword arguments, select the same adapter or are both rejected |
| SourceFactory.DownloadDailyPrices | services/sources/factory.py:12-22 | the three placeholder adapters always raise NotImplementedError; the Yahoo adapter passes the provider's rows through and succeeds exactly when the provider does |
| SourceFactory.GetMetadata | services/sources/yahoo_source.py:46-61 | placeholders, and Yahoo when the ticker info fails, give an empty map; otherwise the five keys, each holding the info's value or None |
| FailedUpdates.RegisterFailedUpdate | services/price_updater.py:15 | registering adds exactly one record, with the column defaults, under a fresh id |
| FailedUpdates.NewestFirst | services/failed_updates.py:21 | the ordering lists every record once, each no older than every record after it |
| FailedUpdates.View | services/failed_updates.py:24-33 | an entry shows the asset's symbol and the source's name only when those rows exist, and otherwise None; timestamp, error and resolved are copied |
| FailedUpdates.ListedIds | services/failed_updates.py:20-22 | the listing holds min(limit, number of records) distinct records, newest first, and every record when the limit allows |
| FailedUpdates.ListFailedUpdates | services/failed_updates.py:14-35 | at most `limit` entries (default 100), resolved or not, with non-increasing timestamps; entry i is the view of the i-th record of ListedIds, so the newest records are listed, each once |
| FailedUpdates.ListingHoldsNewest | services/failed_updates.py:21 | a record left out of the listing ran no later than any record shown |
| FailedUpdates.MarkResolved | services/failed_updates.py:44-48 | only the record with that id changes, only in its resolved flag, and resolved_at stays as it was |
| FailedUpdates.MarkResolvedIdempotent | services/failed_updates.py:44-50 | marking twice is marking once; an unknown or already resolved id changes nothing |
| FailedUpdates.MarkFailedUpdateResolved | services/failed_updates.py:38-56 | the call changes the failure table as MarkResolved says and no other table |
| PriceUpdater.StartDate | services/price_updater.py:65-74 | with no stored price the download starts on 2000-01-01; otherwise it starts the day before the latest stored date |
| PriceUpdater.StartDateOverlapsLatest | services/price_updater.py:71-72 | the day after the start date is a stored date of the asset, and no stored date is later, so the latest stored day is fetched again |
| PriceUpdater.LatestPriceQuery | services/price_updater.py:65-69 | ordering by a name that is not an attribute raises; otherwise the query yields the asset's latest date, or nothing when it has none |
| PriceUpdater.StartDateAsWritten | services/price_updater.py:65-74 | when the query as written does not raise, it agrees with StartDate |
| PriceUpdater.StartDateAsWrittenAlwaysFails | services/price_updater.py:68 | ordering by `trade_date` raises for every asset |
| PriceUpdater.StartDateByDateColumn | models/db_models.py:96 | ordering by the `date` column never raises and yields StartDate |
| PriceUpdater.SourceCodeOf | services/price_updater.py:76-79 | reading `asset.source.code` gives the code of the asset's source on an attached asset and raises the detached lazy-load error on a detached one |
| PriceUpdater.DetachedRefreshFails | services/price_updater.py:29-38 | as written the run's detached assets all fail before downloading, so none succeeds; with the source loaded the refresh downloads what FetchFor says |
| PriceUpdater.FetchBars | services/price_updater.py:78-82 | only the code "YAHOO" downloads; any other code raises "Fuente de precios '…' no implementada"; a success holds at least one bar |
| PriceUpdater.PriceRow | services/price_updater.py:86-96 | a row carries the asset, its source and the bar's date and close; a missing adjusted close takes the close |
| PriceUpdater.DuplicateDatesAllowed | models/db_models.py:90-103 | a second row for an existing (asset, date) pair breaks no constraint of the schema |
| PriceUpdater.UpdateAssetPrices | services/price_updater.py:56-114 | (ordering by the `date` column, as corrected under "## Findings") on a failed or unsupported download no price is written, exactly one failure record with asset, source, message and run type is added, and the error propagates; on success one new row per bar is added, in order, and no failure is recorded |
| PriceUpdater.WriteRows | services/price_updater.py:85-100 | each bar gives one new row under its own fresh id; existing rows and the other tables are untouched |
| PriceUpdater.Loaded | services/price_updater.py:30 | the run loads exactly the assets joined to an existing source |
| PriceUpdater.LoadedIsEveryAsset | services/price_updater.py:30 | under the schema's foreign key the run loads every asset |
| PriceUpdater.LoadedIgnoresActiveFlag | services/price_updater.py:30 | switching a source's active flag does not change which assets are loaded |
| PriceUpdater.FetchKept | services/price_updater.py:36-48 | refreshing other assets does not change what an asset downloads, so one asset's failure does not affect the rest |
| PriceUpdater.RefreshAndRecord | services/price_updater.py:37-48 | a failed refresh writes no price and leaves two failure records for the asset, one from the refresh and one from its caller, both with the asset, its source and the refresh's message; a successful one stores one new row per downloaded bar, in order, adds no other price and records no failure |
| PriceUpdater.RunStep | services/price_updater.py:36-48 | one pass of the run's loop refreshes one more asset and raises exactly one of the two counters, keeping every earlier asset's outcome; the rows of every succeeding asset done so far, this one included, stay stored, and they are the only new price rows; every new failure record belongs to a failing asset done so far and holds that asset, its source, the download's message, the run type and the time |
| PriceUpdater.ProgressStep | services/price_updater.py:36-48 | a refresh that writes only its asset's prices and, on failure, two records for it moves that asset to the done set with the matching counter raised |
| PriceUpdater.UpdateAllAssets | services/price_updater.py:24-51 | (with the source loaded, as corrected under "## Findings") every loaded asset is attempted once; success + failures equals the number loaded; success counts the assets whose download succeeds; each failing asset gets two records; every succeeding asset has one new row stored per downloaded bar, and the new price ids are exactly those rows; every new failure record holds a failing asset, its source, the download's message, the run type and the time |
| PriceUpdater.UpdateSingleAsset | services/price_updater.py:119-143 | (ordering by the `date` column, as corrected under "## Findings") returns true exactly when the symbol names an asset whose refresh succeeds, and then one new row per downloaded bar is stored and no other price row is added; an unknown symbol writes one failure record with no asset and no source; a failed refresh gives two records for the asset, each with its source and the refresh's message |
| AssetService.NormalizedSymbol | services/asset_service.py:37 | the stored symbol has no whitespace at its ends, no lower-case ASCII letter, and is no longer than the input |
| AssetService.NormalizedSymbolIdempotent | services/asset_service.py:37 | normalizing a stored symbol again changes nothing |
| AssetService.NewAsset | services/asset_service.py:36-41 | the new row holds the normalized symbol, the stripped name and source symbol, and the given source; the other columns keep their defaults |
| AssetService.CreateCheck | services/asset_service.py:27-43 | the insert goes through exactly when neither the input symbol nor its normalized form is stored and the source exists; an exact duplicate is reported as already existing |
| AssetService.CreateMessage | services/asset_service.py:31-52 | the reported flag is true exactly when nothing refused the insert |
| AssetService.CreateAsset | services/asset_service.py:19-61 | success adds exactly the normalized row under a fresh id; an exact duplicate, a clash on the unique symbol or a missing source leaves every table unchanged and returns false |
| AssetService.CreatedSymbolBlocksVariants | services/asset_service.py:27-43 | once created, no later create whose input normalizes to the same symbol succeeds |
| AssetService.StoredSymbolIsDuplicate | services/asset_service.py:27-34 | creating the stored symbol again is refused as an exact duplicate |
| AssetService.DeleteAsset | services/asset_service.py:67-99 | a missing id is reported as not found and nothing changes; otherwise the asset and its cascade are deleted and its symbol is reported |
| AssetService.DeleteRemovesExactlyOne | services/asset_service.py:80-84 | the delete removes exactly one asset and leaves every other asset unchanged |
| AssetService.RowOf | services/asset_service.py:112-120 | an entry carries the asset's id and symbol and its source's code |
| AssetService.ListAssets | services/asset_service.py:105-135 | one entry per asset whose source exists, in ascending id order, each carrying its source's code |
| AssetService.ListAssetsCoversJoinable | services/asset_service.py:111-121 | every asset whose source exists has an entry |
| AssetService.ListAssetsCoversEveryAsset | services/asset_service.py:111-123 | under the schema's foreign key the listing has exactly one entry per asset |
| AssetService.ListSources | services/asset_service.py:141-162 | one option per source, labelled with its name and valued with its id, in ascending id order |
| AssetService.GetSourceIdByCode | services/asset_service.py:168-184 | the id returned is that of the only source with the code; None when no source, or more than one, has it |
| AssetService.SourceLookupUnderUniqueCodes | services/asset_service.py:174-177 | since codes are unique, the lookup fails exactly when no source has the code |
| UserService.CreateUserCheck | services/user_service.py:23-33 | the insert goes through exactly when username and password are non-empty, the username is free and the role is an enum label; empty input is reported first |
| UserService.CreateUserMessage | services/user_service.py:23-39 | a commit refused for its role is reported as "Error: …" |
| UserService.NewUser | services/user_service.py:30-31 | the new row holds the username, the hash, the role and the active flag; email and updated_at are empty |
| UserService.CreateUser | services/user_service.py:16-41 | success adds exactly one user with the hash of the password, not the password; any refusal leaves every table unchanged |
| UserService.DefaultRoleIsAnalyst | services/user_service.py:16 | leaving out the role creates an analyst |
| UserService.SecondCreateRefused | services/user_service.py:26-28 | once a username is stored, every later create with it is refused with "ya existe", whatever the password and role |
| UserService.GetAllUsers | services/user_service.py:43-51 | one entry per stored user, active or not, with its username, role name and active flag |
| UserService.InactiveUsersListed | services/user_service.py:49-50 | an inactive user is listed, marked inactive |
| InitDb.ServerUri | init_db.py:34-36 | the server URI is a prefix of the configured URI with no `?`; it ends at the last `/`, or, when the part before the last `/` holds a `?`, at the first `?` (a `/` still follows it); with no `/` it is the whole URI cut at its first `?` |
| InitDb.ServerUriDropsQuery | init_db.py:34-36 | a server part without `?`, a `/`, a database name and a `?` query string, neither holding a `/`, connects to the server part |
| InitDb.ServerUriDropsDatabaseName | init_db.py:34 | with no query string the URI is the server URI, a `/` and a name without `/` |
| InitDb.ServerUriOfParts | init_db.py:34-36 | the URI built from a server part, `/` and a database name connects to the server part |
| InitDb.DefaultServerUri | init_db.py:18-36 | the default URI connects to "mysql+mysqlconnector://root:@localhost" |
| InitDb.StatementsWellFormed | init_db.py:52-54 | no statement that runs is blank, has whitespace at either end, or holds a `;` |
| InitDb.StatementsRoundTrip | init_db.py:52-55 | a script made of statements joined by `;` runs exactly those statements, in order |
| InitDb.TrailingSeparatorIgnored | init_db.py:52-54 | a trailing `;` adds no statement |
| InitDb.ExecuteStatements | init_db.py:50-59 | with no refusal exactly the script's statements run, in order; otherwise those that ran, followed by the refused one, are an initial segment of them |
| AssetImporter.Get | services/asset_importer.py:21 | `get` finds a non-None value only under a key the dictionary has |
| AssetImporter.GetFinds | services/asset_importer.py:44 | in a dictionary, `get` of an item's key gives that item's value |
| AssetImporter.ColumnOf | services/asset_importer.py:45 | a key is mapped only to the column of that name |
| AssetImporter.Assign | services/asset_importer.py:46 | a successful setattr makes the column hold the value and leaves every other column as it was; a new symbol is taken by no other asset, and a new source exists |
| AssetImporter.ApplyAttributes | services/asset_importer.py:43-47 | the item loop with its `changed` flag computes the update the items describe, and fails with the first refused assignment |
| AssetImporter.ApplyEffect | services/asset_importer.py:43-47 | after the loop every named column holds its value, every other column is unchanged, no relationship was named, and `changed` is set exactly when some named column differed |
| AssetImporter.ApplyIdentical | services/asset_importer.py:44-47 | when every named column already holds its value the loop changes nothing and leaves `changed` false |
| AssetImporter.ApplyFits | services/asset_importer.py:46-49 | assignments that pass their checks keep the row's source existing and its symbol unique |
| AssetImporter.Stamped | models/db_models.py:76 | an update that does not set updated_at stamps it with the clock; no other column changes |
| AssetImporter.FirstUnknownKey | services/asset_importer.py:57 | the constructor's first bad keyword is a key of the input that is neither an attribute nor left out of the call, and there is none exactly when every key is one or the other |
| AssetImporter.Construct | services/asset_importer.py:57-58 | the constructor accepts only inputs whose every passed key is an attribute, and then gives the row the looked-up source and the input's symbol; a key that is not an attribute raises TypeError naming such a key |
| AssetImporter.BuildAsset | services/asset_importer.py:57-58 | the row read from the input's columns takes the looked-up source and the input's symbol, and the input names no relationship |
| AssetImporter.BuildStoresGiven | services/asset_importer.py:57-58 | the inserted row holds every column value the input gives, apart from id and source_id |
| AssetImporter.SourceFor | services/asset_importer.py:25-28 | the source found has exactly the given code |
| AssetImporter.FindAsset | services/asset_importer.py:36-39 | the asset found has exactly the given symbol; none is found only when no asset has it |
| AssetImporter.ResultOf | services/asset_importer.py:21-77 | the result carries the input's symbol; success holds exactly when an action is reported, exactly when the source was found and nothing raised, and a message appears exactly on failure |
| AssetImporter.ImportAsset | services/asset_importer.py:15-77 | (create branch as corrected under "## Findings") the tables change only by the planned update of the one asset or the insert of the new one; a missing source, a refusal or a skip changes nothing |
| AssetImporter.UnknownSourceReported | services/asset_importer.py:30-33 | an unknown source code gives "Fuente '…' no encontrada." and no change |
| AssetImporter.UpdateTouchesOnlyNamedColumns | services/asset_importer.py:43-51 | an update changes only columns the input names (and the updated_at stamp) and happens only when one of them differed |
| AssetImporter.IdenticalDataSkipped | services/asset_importer.py:52-54 | input whose every named column already holds its value is skipped |
| AssetImporter.ReimportAfterUpdateSkipped | services/asset_importer.py:43-54 | when the data's keys are distinct and it has no `updated_at` key, importing the same data again right after an update is skipped (with `updated_at` in the data the update stamps the time, so the two can differ) |
| AssetImporter.CreateUsesLookedUpSource | services/asset_importer.py:55-61 | under the corrected create branch, a new asset gets the looked-up source and the input's symbol, which no stored asset has |
| AssetImporter.ReimportAfterCreateSkipped | services/asset_importer.py:36-61 | when the data's keys are distinct and it has neither an `id` nor a `source_id` key, importing the same data again right after a create is skipped (a create takes its own id and the looked-up source, so either key can differ from the stored row) |
| AssetImporter.CreateAsWrittenAlwaysRefused | services/asset_importer.py:57 | with the constructor as written, the create branch always raises, because the input holds `source_code` |
| AssetImporter.CorrectedCreateRefusesOtherKeys | services/asset_importer.py:57 | the correction leaves out only `source_code`: any other key of a new symbol that is not an attribute still makes the constructor raise TypeError naming such a key |
| AssetImporter.CreateSucceedsWhenColumnsAreValid | services/asset_importer.py:55-62 | with the constructor given only the asset's columns, a row of symbol, source code and source symbol is created with the looked-up source, while the code as written refuses it |

## Left out

- SourceFactory.GetSourceAdapter: the keyword arguments are modelled by their names only, and the TypeError they cause is modelled by the exception's name, not by the interpreter's message text.
- Sessions, engines, commits and rollbacks are not modelled as such. Each service call becomes a change of the in-memory tables that is applied in full or not at all.
- Logging, `print`, reading the schema file, connecting, and the `CREATE DATABASE` statement of init_db.py are left out.
- The clock (`datetime.utcnow`) is a `now` parameter, one value per call or run.
- The price provider (yfinance) is a function parameter.
- The password hash (werkzeug) is a function parameter.
- The connection that runs a schema statement is a function parameter that accepts or refuses it.
- Price values (DECIMAL columns, pandas floats) are opaque payload; nothing is proved about them.
- The texts of driver and ORM errors are fixed placeholder strings, not the driver's own messages.
- MySQL collation is not modelled. Unique columns compare exactly, so a clash between symbols that differ only in case is not detected by the model.
- Implicit number/string conversions by the driver are not modelled. A value of the wrong kind for a column is refused.
- The importer knows an attribute of `Asset` only if it is a column or a relationship. Other Python attributes (methods, dunder names) are not modelled.
- A relationship key (`source`, `historical_prices`, `failed_updates`) in the input is treated as refused, on update and on create. The ORM's own handling of such values is not modelled.
- An `id` or `source_id` given in the data of a new asset is not used. The row takes the next key, and the looked-up source overwrites `source_id`, as line 58 does.
- Changing `id` on an update is refused rather than modelled as a primary-key change.
- Text.Upper: only ASCII letters are upper-cased. Python's full Unicode case mapping is not modelled.
- PriceUpdater.UpdateAllAssets: it is proved for the corrected program, where each asset's source is loaded. As written, the run closes its session before the loop, so reading `asset.source` raises for every asset (see "## Findings" and PriceUpdater.DetachedRefreshFails).
- PriceUpdater.UpdateAssetPrices: only a failed download and an unsupported source are modelled as exceptions. A bar that cannot be converted (a NaN or None price) and a failing merge or commit also roll back, record one failure and re-raise; the model does not produce them.
- services/asset_service.py:11 imports `Source`, which models/db_models.py does not define (its model class is `PriceSource`). As written the import raises ImportError, so no function of asset_service.py can run. The model follows the evident intent and uses `PriceSource` throughout.
- The docstring of get_all_users says it lists active users, but its query has no filter. The model follows the query.
- Default run types differ. update_asset_prices and its callers default to `manual`, while the column default is `scheduled`. Callers always pass a run type, so the model takes it as a parameter.
- The SQL queries leave their order open. The listings use ascending id, and the failure ledger breaks timestamp ties by higher id first. update_all_assets may visit the assets in any order.
- Concurrency, worker pools and retries: none exist in the code, so none are modelled.
- services/price_updater.py:15 imports `register_failed_update` from services/failed_updates.py, which defines only `list_failed_updates` and `mark_failed_update_resolved`. As written the import raises ImportError, so no function of price_updater.py can run. The model follows the evident intent: `register_failed_update` inserts one record with the column defaults of models/db_models.py:119-129.
- The except branches of mark_failed_update_resolved and of list_assets/list_sources cannot be reached in the model, which has no failing database. mark_failed_update_resolved swallows its error, and the listings return an empty list.
- AssetImporter.ImportAsset: its create branch follows the corrected constructor, which leaves out the `source_code` key and still refuses every other key that is not an attribute. As written, `Asset(**asset_data)` always receives `source_code`, so every create raises TypeError, rolls back and reports failure; PlanImportAsWritten and CreateAsWrittenAlwaysRefused state that behaviour.
- AssetService.CreateCheck, UserService.CreateUserCheck, AssetImporter.Assign, AssetImporter.BuildAsset: the VARCHAR lengths of the columns (`String(128)` for a symbol, `String(16)` for a currency, `String(150)` for a username, and so on) are not modelled. Under MySQL's strict mode an over-long value makes the commit fail and roll back; the model accepts it.
- PriceUpdater.UpdateSingleAsset: the error text recorded by the caller's handler is the refresh's own error text. Exceptions other than a failed download or an unsupported source are not modelled.
- services/auth_service.py, the Dash UI, configuration and logging are not part of this model.
- The abstract adapter interface of services/sources/base_source.py is covered by the `Adapter` datatype.

## Findings

| source | as written | input that shows it | evidently intended | confidence | as-written member | corrected member |
|---|---|---|---|---|---|---|
| services/price_updater.py:68 | orders and reads `HistoricalPrice.trade_date` (also lines 72 and 89), but the column is `date` (models/db_models.py:96), so the query raises AttributeError | any asset, e.g. one with no stored prices: every call of update_asset_prices records a failure and raises before downloading | order by, read and write the `date` column | not executed | PriceUpdater.StartDateAsWrittenAlwaysFails | PriceUpdater.StartDateByDateColumn |
| services/asset_importer.py:57 | `Asset(**asset_data)` passes every key of the input, including `source_code`, which is not an attribute of `Asset`, so the constructor raises TypeError | `{"symbol": "AAPL", "source_code": "YAHOO", "source_symbol": "AAPL"}` with a YAHOO source and no AAPL asset: the result is a failure with "'source_code' is an invalid keyword argument for Asset" | pass every key except `source_code` to the constructor and set `source_id` from the looked-up source | not executed | AssetImporter.CreateAsWrittenAlwaysRefused | AssetImporter.CreateSucceedsWhenColumnsAreValid |
| services/price_updater.py:31 | the run closes its session (line 31) and then refreshes the detached assets; the refresh reads the relationship `asset.source` (lines 76 and 79), which the join did not load, so the lazy load raises DetachedInstanceError | any run over one or more assets, once the `trade_date` query is corrected: every refresh fails, the run returns 0 successes, and each asset gets two failure records | keep the session open for the loop, or load each asset's source with it, so that the refresh reads its source's code | not executed | PriceUpdater.DetachedRefreshFails | PriceUpdater.UpdateAllAssets |
