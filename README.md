# Inactivity consjob sync — a Dafny model

This project models the core of the Inactivity backend: a FastAPI service that
pulls per-item tracking status for 14 warehouses from an upstream paginated
API and stores it in a Postgres `consjob` table. It covers four parts:

- **The token store** (`backend/auth.py`). Four in-memory maps are keyed by the
  locally issued token. Around them sit the one-hour expiry rule and the
  normalisation of the `Authorization` header. The decision tree of
  `get_external_api_authorization` chooses between pass-through, the cached
  external token, a refresh through the upstream login, and 401. This is the
  class `Auth.TokenStore`; the header strings are in module `Text`.
- **The upstream client** (`backend/services/external_api.py`):
  - how one HTTP answer is classified by `_request`;
  - which query `get_scan_records` sends;
  - how `get_warehouse_data` pages through one warehouse, where a failed first
    page fails the warehouse and a failed later page is skipped;
  - how `get_all_warehouse_data` folds the warehouses together.

  This is module `ExternalApi`. The upstream service is a function from the
  Authorization header and the query to the HTTP outcome.
- **The consjob routes** (`backend/routers/consjob.py`). These cover warehouse
  selection, the order of the authorization and validation checks, the
  per-warehouse fetch-and-save loop with its counters, and `sync_warehouse`.
  This is module `Consjob`.
- **The table** (`backend/database.py`). This covers the per-item upsert loop
  of `save_consjob_data` under the unique key `(tracking_number, order_id,
  warehouse)`, and the `created_at DESC` listing. This is the class
  `Database.Database`, holding a `Table` value and whether Postgres holds the
  table yet (it is created by the first save that reaches its CREATE TABLE).

Some things are parameters rather than modelled behaviour:

- The clock is a parameter `now`, in microseconds, one value per request.
- The random token of `create_token` is a parameter that must not be issued already.
- The upstream login is a function parameter whose answer goes through the
  same classification as every other request.
- Whether the database pool can be reached is a boolean parameter.

Each imperative Python function is a Dafny method with the same branches and
loops. Some methods are proved equal to a specification function, and the
properties are proved as lemmas about that function: the page loop, the
upsert loop and the sync loops. The others, such as the token-store methods,
`get_all_warehouse_data` and `get_consjob_list`, state their result and their
new state in full in their own `ensures`.

Files:

- `wrappers.dfy`: Option and Result.
- `json.dfy`: JSON values, truthiness and `dict.get`.
- `text.dfy`: `str.replace`, `str.strip` and the header normalisation.
- `errors.dfy`: HTTP errors and Python exceptions.
- `external_api.dfy`: the upstream client.
- `auth.dfy`: the token store.
- `database.dfy`: the table.
- `consjob.dfy`: the routes.

## Model

| member | source | states |
|---|---|---|
| JsonValues.Lookup | backend/services/external_api.py:152-153 | `d.get(key)` is present exactly when the key is in the dictionary, with its value |
| JsonValues.FirstTruthy | backend/services/external_api.py:147 | `a or b`: the first truthy operand, and nothing exactly when neither is truthy |
| Text.RemoveAll | backend/auth.py:74 | `replace("Bearer ", "")` never lengthens the string |
| Text.RemoveAllAbsent | backend/auth.py:74 | a string without "Bearer " in it is left unchanged by the replacement |
| Text.RemoveAllLeading | backend/auth.py:74 | a leading occurrence is removed and the rest is processed on its own |
| Text.RemoveAllKeep | backend/auth.py:74 | a first character that does not start an occurrence is kept |
| Text.TrimStart | backend/auth.py:74 | `lstrip` removes exactly a leading run of whitespace, leaving a suffix that does not start with whitespace |
| Text.TrimEnd | backend/auth.py:74 | `rstrip` removes exactly a trailing run of whitespace, leaving a prefix that does not end with whitespace |
| Text.Strip | backend/auth.py:74 | `strip` gives a slice of the string with only whitespace outside it, and no whitespace at either end of the slice; a string already clean at both ends is unchanged |
| Text.TrimBothSlice | backend/auth.py:74 | `rstrip` after `lstrip` leaves a slice of the string with only whitespace before and after it |
| Text.StripIdempotent | backend/auth.py:74 | stripping twice is stripping once |
| Text.NormalizeAuthorization | backend/auth.py:74 | the normalised header is no longer than the header |
| Text.NormalizeIgnoresBearer | backend/auth.py:73-74 | "Bearer <t>" and "<t>" normalise to the same token |
| Text.NormalizeCleanToken | backend/auth.py:73-74 | a token without surrounding whitespace and without "Bearer " inside is its own normal form, bare or behind "Bearer " |
| Text.RemovalJoins | backend/auth.py:74 | every occurrence is removed, not only a prefix, and text joined by a removal is not scanned again |
| Text.NormalizeNotIdempotent | backend/auth.py:74 | consequently normalising twice can differ from normalising once ("BeBearer arer x" gives "Bearer x", then "x") |
| ExternalApi.ErrorDetail | backend/services/external_api.py:45-56 | the detail of a non-200 answer is the JSON `detail` only when the content type starts with application/json, the body parses and the key is present; otherwise "请求失败"; a parsed non-object body makes `.get` raise |
| ExternalApi.Classify | backend/services/external_api.py:37-64 | `_request`'s classification of an upstream answer; its contract is proved as `ClassifyEffect` |
| ExternalApi.ClassifyEffect | backend/services/external_api.py:37-64 | a body is returned exactly for status 200 with a parsable body; a transport error is 503; 401 is checked before the generic branch; any other status, other 2xx included, keeps its code |
| ExternalApi.ScanParams | backend/services/external_api.py:92-102 | the query parameters of `get_scan_records`; their shape is proved in `ScanParamsShape` and `ScanParamsDistinct` |
| ExternalApi.ScanParamsShape | backend/services/external_api.py:92-102 | show_cancelled, page and page_size are always sent, first and in that order; sort, order and warehouse are each sent exactly when non-empty |
| ExternalApi.ScanParamsDistinct | backend/services/external_api.py:92-102 | nothing else is sent and no parameter name is repeated |
| ExternalApi.PageItems | backend/services/external_api.py:147-149 | items are `data`, else `items`, else `[]`, judged by truthiness, so an empty `data` falls through; a non-list value contributes nothing; a non-object body raises |
| ExternalApi.TotalPages | backend/services/external_api.py:152-153 | the page count defaults to 1 without `pagination` or `total_pages`; a boolean counts as 0 or 1; a non-object pagination or a non-number count raises |
| ExternalApi.FirstPage | backend/services/external_api.py:136-153 | page 1: its request, its items and its page count, any failure failing the warehouse; what `FetchWarehouse` states about it is its contract |
| ExternalApi.LaterPage | backend/services/external_api.py:155-174 | a later page's items, empty when its request or its parsing fails; its contract is `FailedPageSkipped` and `FetchRemainingPages` |
| ExternalApi.FetchWarehouse | backend/services/external_api.py:132-193 | the result succeeds exactly when the first page does; a failure carries the first page's error with no items and a count of 0; a success counts its items |
| ExternalApi.FetchRemainingPages | backend/services/external_api.py:155-174 | the loop appends pages 2..total_pages in increasing order, each failed page contributing nothing |
| ExternalApi.GetWarehouseData | backend/services/external_api.py:114-193 | the method returns exactly `FetchWarehouse`: the first page's items, then those of the later pages |
| ExternalApi.FailedPageSkipped | backend/services/external_api.py:171-174 | a failing later page is skipped, and the pages before and after it are all kept in order |
| ExternalApi.FetchReadsOnlyAnnouncedPages | backend/services/external_api.py:153-156 | only pages 1..total_pages are requested: upstreams that agree on those pages give the same result |
| ExternalApi.SinglePageWhenTotalAtMostOne | backend/services/external_api.py:153-156 | with total_pages at most 1 the first page is the whole result |
| ExternalApi.ThreePagesNoGaps | backend/services/external_api.py:156-182 | pages of 100, 100 and 1 items give 201 items, concatenated in page order |
| ExternalApi.FailedWarehouseIsolated | backend/services/external_api.py:218-232 | a failed warehouse contributes no items and removes none of the others' |
| ExternalApi.GetAllWarehouseData | backend/services/external_api.py:195-241 | one result per warehouse in input order; `all_items` is the in-order concatenation of the successful warehouses' items; `total_items` is its length; successful plus failed is the number of warehouses |
| Auth.AccessToken | backend/auth.py:95-97 | a usable `access_token` is exactly a non-empty JSON string under that key of an object body |
| Auth.TokenStore.constructor | backend/auth.py:11-14 | the four maps start empty |
| Auth.TokenStore.CreateToken | backend/auth.py:18-40 | the new token maps to the username and gets the timestamp `now`; the external token and the credentials are stored only when supplied; no other entry changes |
| Auth.TokenStore.SetExternalApiToken | backend/auth.py:43-47 | an unknown local token changes nothing; otherwise the one external token is overwritten and the timestamp restarted |
| Auth.TokenStore.GetExternalApiToken | backend/auth.py:50-52 | the stored external token, present exactly when one is stored |
| Auth.TokenStore.IsTokenExpired | backend/auth.py:55-62 | a missing timestamp counts as expired; otherwise expired exactly when now - timestamp >= 1 hour |
| Auth.TokenStore.CurrentUser | backend/auth.py:65-82 | 401 for a missing or empty header and for an unknown normalised token; otherwise that token's username |
| Auth.TokenStore.RefreshedToken | backend/auth.py:85-104 | without stored credentials the result is nothing and the login is not consulted; otherwise it is the access token of a successful login, and nothing when the login fails |
| Auth.TokenStore.RefreshExternalApiToken | backend/auth.py:85-104 | the method returns `RefreshedToken`; a refreshed token is stored with a new timestamp and nothing else changes; no refresh leaves the store unchanged |
| Auth.TokenStore.Authorization | backend/auth.py:107-148 | 401 on a missing header; an unissued normalised token is passed through as "Bearer <token>"; an expired one is refreshed or gives 401; otherwise the cached external token is used, or 401 when there is none |
| Auth.TokenStore.GetExternalApiAuthorization | backend/auth.py:107-148 | the method answers what `Authorization` decides on the state it starts from, and writes only the refreshed token, through `set_external_api_token` |
| Auth.TokenStore.GetExternalApiAuthorizationOptional | backend/auth.py:151-162 | None exactly where the strict version raises, otherwise the same value, with the same effect on the store |
| Auth.ExpiryBoundary | backend/auth.py:55-62 | a token stored at T is not expired at T+59m59s and is expired at T+1h |
| Auth.ExpiredWithoutCredentials | backend/auth.py:127-137 | an expired token without stored credentials ends in 401 whatever the login would answer, and nothing is written |
| Auth.UrlSafeHasNoBearer | backend/auth.py:30 | a `token_urlsafe` token cannot contain "Bearer " |
| Auth.UrlSafeNormalizes | backend/auth.py:73-74 | an issued token survives header normalisation, bare or behind "Bearer " |
| Auth.IssuedTokenResolves | backend/auth.py:120-142 | an issued token within its hour resolves to "Bearer " plus its cached external token, sent bare or with the prefix |
| Auth.VerifyCredentials | backend/auth.py:165-175 | as written: the pair holds exactly when it equals the defaults or is ("", "123456") |
| Auth.StaffAliasMissed | backend/auth.py:167-170 | as written, ("uni_staff", "123456") is refused and ("", "123456") accepted |
| Auth.VerifyCredentialsIntended | backend/auth.py:167-175 | corrected: the pair holds exactly when it equals the defaults or is ("uni_staff", "123456") |
| Auth.StaffAliasAccepted | backend/auth.py:167-170 | corrected: ("uni_staff", "123456") is accepted and ("", "123456") refused |
| Database.Column | backend/database.py:127-133 | one column value of an item as stored; its contract is proved as `ColumnEffect` |
| Database.ToRecord | backend/database.py:83-96 | the statement parameters of one item, or the failure of its statement; its contract is `ToRecordWidths` and `ColumnEffect` |
| Database.ColumnEffect | backend/database.py:127-133 | a missing key or JSON null is stored as NULL; a string that fits is stored whole; a longer one is stored only if the excess is spaces, and is then cut to the width; any other JSON value fails the statement |
| Database.ToRecordWidths | backend/database.py:83-96 | every stored string respects its column's VARCHAR width |
| Database.Upsert | backend/database.py:108-125 | the `INSERT ... ON CONFLICT DO UPDATE` of one record; its contract is proved as `UpsertEffect` |
| Database.UpsertEffect | backend/database.py:108-125 | on conflict only the payload and updated_at change, and id, key and created_at stay; otherwise a new row with the next id is appended; the table stays well formed |
| Database.UpsertUpdates | backend/database.py:119-125 | the conflict path updates one row in place and keeps ids and keys unique |
| Database.UpsertAppends | backend/database.py:108-118 | the insert path appends a row whose id is the largest and whose key was not present when it has no NULL |
| Database.SaveAll | backend/database.py:105-140 | the item-by-item loop of `save_consjob_data`; its contract is `SaveCount`, `SaveWellFormed`, `SaveKeepsRows` and `LaterWinsAnywhere` |
| Database.SaveCount | backend/database.py:105-140 | the returned count is the number of items whose statement succeeded, which is at most the number of items |
| Database.SaveWellFormed | backend/database.py:84-94 | the loop keeps ids increasing and NULL-free keys unique |
| Database.SaveKeepsRows | backend/database.py:106-134 | nothing is deleted: earlier rows keep their place, id, key and created_at, and a row no item touches is unchanged |
| Database.LastWriterWins | backend/database.py:106-125 | when the last item has a NULL-free key, its payload is stored under that key, in exactly one row |
| Database.SaveAllAppend | backend/database.py:106-134 | saving `a + b` is saving `a` and then saving `b` on the table `a` left |
| Database.LaterWinsAnywhere | backend/database.py:106-125 | an item with a NULL-free key that no later item has wins wherever it sits: its payload is stored under that key, in exactly one row |
| Database.SavedKeysPresent | backend/database.py:106-134 | every stored key and every key already present is in the table afterwards |
| Database.ResaveAddsNoRows | backend/database.py:94 | saving the same NULL-free items again adds no row |
| Database.NullKeyDuplicates | backend/database.py:108-119 | an item whose tracking number is NULL never conflicts and is inserted anew each time |
| Database.InsertByCreated | backend/database.py:63 | inserting into a newest-first list keeps it newest first and adds exactly that row |
| Database.OrderByCreatedDesc | backend/database.py:50-65 | the listing is ordered by created_at descending and is a permutation of the rows |
| Database.Database.constructor | backend/database.py:10-11 | a new database object sees whatever table Postgres already holds, or no table at all |
| Database.Database.SaveConsjobData | backend/database.py:67-140 | no items returns 0 and writes nothing; an unreachable pool raises and writes nothing; otherwise the table is created if missing, and the table and the count are those of the item-by-item upsert loop |
| Database.Database.GetConsjobList | backend/database.py:46-65 | an unreachable pool raises, and a table never created makes the SELECT raise; otherwise every row, newest first |
| Consjob.SelectWarehouses | backend/routers/consjob.py:32-38 | a listed code selects itself, no or an empty code selects all 14 in list order, and any other code is a 400 |
| Consjob.SyncOne | backend/routers/consjob.py:58-96 | one pass of the sync loop on values; its contract is proved as `SyncOneEffect` |
| Consjob.SyncOneEffect | backend/routers/consjob.py:58-96 | one warehouse's entry succeeds exactly when its first page did and its items could be saved; a failure reports 0 and 0 with its cause and leaves the table as it was; saved is at most fetched |
| Consjob.FetchAll | backend/routers/consjob.py:48-56 | each selected warehouse is fetched, in order |
| Consjob.SyncAll | backend/routers/consjob.py:48-96 | exactly one entry per selected warehouse |
| Consjob.SyncAllEntries | backend/routers/consjob.py:48-96 | entry i is warehouse i handled on the table the earlier entries left, so a failure does not stop the later warehouses |
| Consjob.Report | backend/routers/consjob.py:98-107 | successful_warehouses + failed_warehouses = total_warehouses = the number of entries |
| Consjob.Tally | backend/routers/consjob.py:43-46 | the four counters of a list of entries, successful plus failed being their number |
| Consjob.SavedAtMostFetched | backend/routers/consjob.py:71-72 | total_items_saved is at most total_items_fetched |
| Consjob.SyncEntriesBounded | backend/routers/consjob.py:58-95 | in a whole sync, every entry saves at most what it fetched, and every failed entry reports 0 fetched and 0 saved |
| Consjob.ReportSavedAtMostFetched | backend/routers/consjob.py:71-72 | the report of a whole sync has total_items_saved at most total_items_fetched |
| Consjob.TallyAppend | backend/routers/consjob.py:43-46 | the success count and both totals of a concatenation are the sums over its parts |
| Consjob.FailedEntryCountsOnlyAsFailure | backend/routers/consjob.py:74-95 | a failed entry inserted anywhere among the entries adds one to failed_warehouses and changes neither successful_warehouses nor either total |
| Consjob.SyncNextWarehouse | backend/routers/consjob.py:49-96 | one pass of the loop: fetch, save (a failed save is caught), build the entry and bump exactly the counters the source bumps; the table comes to exist exactly when the warehouse synced at least one item |
| Consjob.SyncWarehouses | backend/routers/consjob.py:40-107 | the loop's entries and table are those of `SyncAll` over the fetched warehouses, and its report is the report of those entries; the table exists afterwards exactly when it did before or some entry synced at least one item |
| Consjob.SyncOutcome | backend/routers/consjob.py:22-107 | a sync whose external authorization fails is a 401 before the code is checked; an unlisted code is then a 400; otherwise the report counts every selected warehouse |
| Consjob.SingleSyncOutcome | backend/routers/consjob.py:126-174 | the code is checked (400) before the authorization (401); for a listed code and a resolved authorization, a failed first page is a 500 naming the warehouse and the page's fault, a non-empty fetch with an unreachable pool is a 500 naming the warehouse and the save fault, and otherwise the answer is the count fetched and the outcome of the upsert loop; success reports the warehouse with saved at most fetched; no error writes the table |
| Consjob.SingleSyncIsOnePass | backend/routers/consjob.py:141-161 | syncing one listed warehouse has the success, the counts and the table of one pass of the sync loop |
| Consjob.ChecksInOppositeOrder | backend/routers/consjob.py:22-38 | for an unlisted code and a failing authorization, the list handler answers 401 and the single-warehouse handler 400 |
| Consjob.GetConsjob | backend/routers/consjob.py:14-116 | the current user is checked first; without `sync` the stored rows are listed newest first, or a 500 when the pool is unreachable or the table was never created; with it the authorization is resolved, possibly refreshing it, the outcome is `SyncOutcome`, and the table exists afterwards exactly when it did before or some warehouse synced at least one item |
| Consjob.SyncWarehouse | backend/routers/consjob.py:119-174 | the current user, then the code (store untouched on a 400), then the authorization; the outcome is `SingleSyncOutcome`, and the table exists afterwards exactly when it did before or the sync succeeded with at least one item |

## Left out

- Input and output are not modelled.
  - Left out: the httpx client, the asyncpg pool (`connect`, `disconnect`, `get_pool`), the CREATE INDEX statement, `print` logging, and the FastAPI wiring.
  - Modelled instead: the upstream is a function parameter, the pool is a reachable/unreachable flag, the column widths and the unique key of the CREATE TABLE are data, and whether the table exists yet is a field of the database object.
- `async`/`await` is modelled as sequential code. Every loop in these files awaits one warehouse or one page at a time, so there is no concurrency to model.
- Each request reads the clock once, as the parameter `now`. `datetime.now()` and `CURRENT_TIMESTAMP` taken at slightly different instants within one request are not distinguished.
- `secrets.token_urlsafe(32)` is not modelled. The fresh token is an argument that is not yet issued, and `UrlSafe` states its alphabet.
- The message texts of HTTP errors are not modelled. Errors carry the status code and the reason as data, including the upstream `detail` and the failing warehouse, but not the formatted Chinese strings.
- JSON numbers are integers. Floats, e.g. a fractional `total_pages` that makes `range` raise, are not modelled.
- Auth.AccessToken: a non-string `access_token` is treated as no token. Python would store the value and prefix it with "Bearer ".
- Database.Database.SaveConsjobData: statement failures beyond the ones modelled are not covered. The modelled failures are a non-object item, a non-string column value and a string longer than its VARCHAR width; constraint or driver errors are not. SERIAL values consumed by failed statements are not modelled either.
- Consjob.SyncOne: the `error` of a failed warehouse result defaults to a decode fault. `get_warehouse_data` always sets an error on failure, so the default is never used.
- `get_consjob`'s outer `except Exception` (backend/routers/consjob.py:109-113) is not modelled: every failure inside the modelled loop is turned into an entry, so it is never reached. The per-warehouse `except Exception` (backend/routers/consjob.py:84-96) and `sync_warehouse`'s (backend/routers/consjob.py:170-174) are reached only by a raising `save_consjob_data`, which the model covers as an unreachable pool (`SaveFault` and `WarehouseSaveFailed`). An unreachable pool on listing is modelled as an unhandled 500.
- Consjob.SyncWarehouses: the pool's reachability is one flag for the whole request. `get_pool` tries to connect again on every save while no pool exists (backend/database.py:40-44), so a pool that comes up between two warehouses is not modelled.
- `backend/routers/auth.py`, `backend/routers/proxy.py`, `backend/models.py`, `backend/main.py`, `backend/test_imports.py` and `get_consjob_by_id` are not part of this model. From `backend/config.py` only the default credentials ("admin", "40") are used.
- `save_consjob_data` upserts one item at a time and nothing else: it does not batch, delete or deduplicate items, so the model has none of these.
- `get_warehouse_data` requests the pages one after the other up to the `total_pages` that page 1 announces; it does not stop on an empty page and does not derive the page count from a total.
- Records are keyed by `(tracking_number, order_id, warehouse)`, with Postgres's rule that a NULL never conflicts.

## Findings

| source | as written | input that shows it | evidently intended | confidence | as-written member | corrected member |
|---|---|---|---|---|---|---|
| backend/auth.py:167-170 | the alias replaces the pair ("", "123456") by the default credentials | ("uni_staff", "123456") is refused, while ("", "123456") is accepted | the comment on the line, and the login route in backend/routers/auth.py, alias ("uni_staff", "123456") | not executed | Auth.StaffAliasMissed | Auth.StaffAliasAccepted |
