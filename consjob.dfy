/** The consjob routes of backend/routers/consjob.py: which warehouses a
    request syncs, the order of the authentication and validation checks, the
    per-warehouse fetch-and-save loop with its counters, and the single
    warehouse sync. The token store, the table, the upstream service and the
    login service are the handlers' parameters. */
module Consjob {
  import opened Wrappers
  import opened JsonValues
  import opened Errors
  import opened ExternalApi
  import opened Auth
  import D = Database

  /** The fixed list of warehouse codes, in the order syncs visit them. */
  const Warehouses: seq<string> :=
    ["JFK", "EWR", "PHL", "DCA", "BOS", "RDU", "CLT", "BUF", "RIC", "PIT", "MDT", "ALB", "SYR", "PWM"]

  /** Both handlers fetch with show_cancelled "false" and pages of 100. */
  function SyncSource(upstream: Upstream, externalAuth: string): Source {
    Source(upstream, externalAuth, "false", 100)
  }

  /** The `warehouse` query: a listed code selects itself, no code (or an
      empty one) selects every warehouse, any other code is a 400. */
  function SelectWarehouses(warehouse: Option<string>): (r: Result<seq<string>, HttpError>)
    ensures r.Err? <==> Given(warehouse) && warehouse.value !in Warehouses
    ensures r.Err? ==> r.error == HttpError(400, InvalidWarehouse(warehouse.value))
    ensures r.Ok? ==> r.value != [] && forall w :: w in r.value ==> w in Warehouses
    ensures r.Ok? && Given(warehouse) ==> r.value == [warehouse.value]
    ensures !Given(warehouse) ==> r == Ok(Warehouses)
  {
    if Given(warehouse) && warehouse.value in Warehouses then Ok([warehouse.value])
    else if Given(warehouse) then Err(HttpError(400, InvalidWarehouse(warehouse.value)))
    else Ok(Warehouses)
  }

  /** Why one warehouse of a sync failed: its first page, or the save. */
  datatype SyncFault = FetchFault(fetch: Fault) | SaveFault(storage: StorageFault)

  /** One entry of `warehouse_results`. */
  datatype WarehouseSyncResult = WarehouseSyncResult(
    warehouse: string, success: bool, itemsFetched: nat, itemsSaved: nat, error: Option<SyncFault>)

  /** One pass of the sync loop on the table it finds, given what fetching
      the warehouse gave: save its items. A failure records 0 fetched, 0 saved
      and its cause. */
  function SyncOne(table: D.Table, fetched: WarehouseResult, storageUp: bool, now: int)
    : (WarehouseSyncResult, D.Table)
  {
    if !fetched.success then
      (WarehouseSyncResult(fetched.warehouse, false, 0, 0, Some(FetchFault(fetched.error.GetOr(DecodeFault)))), table)
    else if fetched.items != [] && !storageUp then
      (WarehouseSyncResult(fetched.warehouse, false, 0, 0, Some(SaveFault(StorageUnavailable))), table)
    else
      var (after, saved) := D.SaveAll(table, fetched.items, now);
      (WarehouseSyncResult(fetched.warehouse, true, fetched.totalItems, saved, None), after)
  }

  /** A pass on a fetched warehouse succeeds exactly when the fetch did and
      its items could be saved; it then reports every fetched item and the
      saved count, and otherwise 0, 0, its cause and the table untouched. */
  lemma SyncOneEffect(table: D.Table, src: Source, warehouse: string, storageUp: bool, now: int)
    ensures var fetched := FetchWarehouse(src, warehouse);
            var (entry, after) := SyncOne(table, fetched, storageUp, now);
            && entry.warehouse == warehouse
            && (entry.success <==> FirstPage(src, warehouse).Ok? && (fetched.items == [] || storageUp))
            && (!entry.success ==> entry.itemsFetched == 0 && entry.itemsSaved == 0 && after == table)
            && (!FirstPage(src, warehouse).Ok? ==> entry.error == Some(FetchFault(FirstPage(src, warehouse).error)))
            && (entry.success ==> entry.error.None? && entry.itemsFetched == |fetched.items|
                                  && (after, entry.itemsSaved) == D.SaveAll(table, fetched.items, now))
            && entry.itemsSaved <= entry.itemsFetched
  {
    D.SaveCount(table, FetchWarehouse(src, warehouse).items, now);
  }

  /** Each warehouse of the list handed to `fetch`, in turn. */
  function FetchEach(fetch: string -> WarehouseResult, warehouses: seq<string>): (r: seq<WarehouseResult>)
    ensures |r| == |warehouses|
    ensures forall i :: 0 <= i < |warehouses| ==> r[i] == fetch(warehouses[i])
  {
    seq(|warehouses|, i requires 0 <= i < |warehouses| => fetch(warehouses[i]))
  }

  /** One more warehouse is fetched after the others. */
  lemma FetchEachSnoc(fetch: string -> WarehouseResult, warehouses: seq<string>, i: int)
    requires 0 <= i < |warehouses|
    ensures FetchEach(fetch, warehouses[..i + 1]) == FetchEach(fetch, warehouses[..i]) + [fetch(warehouses[i])]
  {
    assert warehouses[..i + 1][i] == warehouses[i];
  }

  /** `get_warehouse_data` against one upstream, as a function of the code. */
  function Fetcher(src: Source): string -> WarehouseResult {
    w => FetchWarehouse(src, w)
  }

  /** Each warehouse fetched in turn. */
  function FetchAll(src: Source, warehouses: seq<string>): (r: seq<WarehouseResult>)
    ensures |r| == |warehouses|
    ensures forall i :: 0 <= i < |warehouses| ==> r[i] == FetchWarehouse(src, warehouses[i])
  {
    FetchEach(Fetcher(src), warehouses)
  }

  /** The sync loop over fetched warehouses: the results so far and the
      table after them. */
  function SyncAll(table: D.Table, fetched: seq<WarehouseResult>, storageUp: bool, now: int)
    : (out: (seq<WarehouseSyncResult>, D.Table))
    ensures |out.0| == |fetched|
    decreases |fetched|
  {
    if fetched == [] then ([], table)
    else
      var (results, before) := SyncAll(table, fetched[..|fetched| - 1], storageUp, now);
      var (result, after) := SyncOne(before, fetched[|fetched| - 1], storageUp, now);
      (results + [result], after)
  }

  /** `successful_warehouses` of `get_consjob`: synced warehouses whose
      items were fetched and saved. */
  function CountSuccessful(rs: seq<WarehouseSyncResult>): (n: nat)
    ensures n <= |rs|
  {
    if rs == [] then 0
    else CountSuccessful(rs[..|rs| - 1]) + (if rs[|rs| - 1].success then 1 else 0)
  }

  function SumFetched(rs: seq<WarehouseSyncResult>): nat {
    if rs == [] then 0 else SumFetched(rs[..|rs| - 1]) + rs[|rs| - 1].itemsFetched
  }

  function SumSaved(rs: seq<WarehouseSyncResult>): nat {
    if rs == [] then 0 else SumSaved(rs[..|rs| - 1]) + rs[|rs| - 1].itemsSaved
  }

  /** The summary a sync returns (its `success` is always true). */
  datatype SyncReport = SyncReport(
    totalWarehouses: nat, successfulWarehouses: nat, failedWarehouses: nat,
    totalItemsFetched: nat, totalItemsSaved: nat, warehouseResults: seq<WarehouseSyncResult>)

  function Report(rs: seq<WarehouseSyncResult>): (r: SyncReport)
    ensures r.successfulWarehouses + r.failedWarehouses == r.totalWarehouses == |rs|
  {
    var ok := CountSuccessful(rs);
    SyncReport(|rs|, ok, |rs| - ok, SumFetched(rs), SumSaved(rs), rs)
  }

  /** One more warehouse extends the loop by one pass on the table it left. */
  lemma SyncAllStep(table: D.Table, fetched: seq<WarehouseResult>, storageUp: bool, now: int, f: WarehouseResult)
    ensures var (results, before) := SyncAll(table, fetched, storageUp, now);
            var (entry, after) := SyncOne(before, f, storageUp, now);
            SyncAll(table, fetched + [f], storageUp, now) == (results + [entry], after)
  {
    assert (fetched + [f])[..|fetched|] == fetched;
  }

  /** An entry whose save reached the table, and so its CREATE TABLE: a
      warehouse synced with at least one item. */
  predicate Stored(e: WarehouseSyncResult) {
    e.success && e.itemsFetched > 0
  }

  /** Some entry's save reached the table. */
  predicate AnyStored(rs: seq<WarehouseSyncResult>) {
    exists k :: 0 <= k < |rs| && Stored(rs[k])
  }

  lemma AnyStoredStep(rs: seq<WarehouseSyncResult>, entry: WarehouseSyncResult)
    ensures AnyStored(rs + [entry]) <==> AnyStored(rs) || Stored(entry)
  {
    if AnyStored(rs) {
      var k :| 0 <= k < |rs| && Stored(rs[k]);
      assert (rs + [entry])[k] == rs[k];
    }
    if Stored(entry) {
      assert (rs + [entry])[|rs|] == entry;
    }
    if AnyStored(rs + [entry]) && !Stored(entry) {
      var k :| 0 <= k < |rs + [entry]| && Stored((rs + [entry])[k]);
      assert k < |rs| && (rs + [entry])[k] == rs[k];
    }
  }

  /** The totals of one more entry. */
  lemma TotalsStep(rs: seq<WarehouseSyncResult>, entry: WarehouseSyncResult)
    ensures CountSuccessful(rs + [entry]) == CountSuccessful(rs) + (if entry.success then 1 else 0)
    ensures SumFetched(rs + [entry]) == SumFetched(rs) + entry.itemsFetched
    ensures SumSaved(rs + [entry]) == SumSaved(rs) + entry.itemsSaved
  {
    assert (rs + [entry])[..|rs|] == rs;
  }

  /** Entry i of a sync is warehouse i handled on the table the first i
      entries left: a failure earlier in the list does not stop it. */
  lemma {:induction false} SyncAllEntries(table: D.Table, fetched: seq<WarehouseResult>,
                                          storageUp: bool, now: int, i: int)
    requires 0 <= i < |fetched|
    ensures var before := SyncAll(table, fetched[..i], storageUp, now).1;
            SyncAll(table, fetched, storageUp, now).0[i] == SyncOne(before, fetched[i], storageUp, now).0
    ensures SyncAll(table, fetched, storageUp, now).0[i].warehouse == fetched[i].warehouse
    decreases |fetched|
  {
    var init := fetched[..|fetched| - 1];
    if i < |fetched| - 1 {
      assert init[..i] == fetched[..i];
      SyncAllEntries(table, init, storageUp, now, i);
    } else {
      assert init == fetched[..i];
    }
  }

  /** Nothing is saved that was not fetched. */
  lemma {:induction false} SavedAtMostFetched(rs: seq<WarehouseSyncResult>)
    requires forall i :: 0 <= i < |rs| ==> rs[i].itemsSaved <= rs[i].itemsFetched
    ensures SumSaved(rs) <= SumFetched(rs)
  {
    if rs != [] {
      SavedAtMostFetched(rs[..|rs| - 1]);
    }
  }

  /** Every entry of an actual sync saves at most what it fetched, and a
      failed entry reports 0 fetched and 0 saved. */
  lemma SyncEntriesBounded(table: D.Table, src: Source, warehouses: seq<string>, storageUp: bool, now: int)
    ensures var rs := SyncAll(table, FetchAll(src, warehouses), storageUp, now).0;
            forall i :: 0 <= i < |rs| ==>
              && rs[i].itemsSaved <= rs[i].itemsFetched
              && (!rs[i].success ==> rs[i].itemsFetched == 0 && rs[i].itemsSaved == 0)
  {
    var fetched := FetchAll(src, warehouses);
    var rs := SyncAll(table, fetched, storageUp, now).0;
    forall i | 0 <= i < |rs|
      ensures rs[i].itemsSaved <= rs[i].itemsFetched
      ensures !rs[i].success ==> rs[i].itemsFetched == 0 && rs[i].itemsSaved == 0
    {
      SyncAllEntries(table, fetched, storageUp, now, i);
      SyncOneEffect(SyncAll(table, fetched[..i], storageUp, now).1, src, warehouses[i], storageUp, now);
    }
  }

  /** A sync report never claims more items saved than fetched. */
  lemma ReportSavedAtMostFetched(table: D.Table, src: Source, warehouses: seq<string>, storageUp: bool, now: int)
    ensures var r := Report(SyncAll(table, FetchAll(src, warehouses), storageUp, now).0);
            r.totalItemsSaved <= r.totalItemsFetched
  {
    var fetched := FetchAll(src, warehouses);
    var rs := SyncAll(table, fetched, storageUp, now).0;
    forall i | 0 <= i < |rs|
      ensures rs[i].itemsSaved <= rs[i].itemsFetched
    {
      SyncAllEntries(table, fetched, storageUp, now, i);
      SyncOneEffect(SyncAll(table, fetched[..i], storageUp, now).1, src, warehouses[i], storageUp, now);
    }
    SavedAtMostFetched(rs);
  }

  /** The counters of two lists of entries add up. */
  lemma {:induction false} TallyAppend(a: seq<WarehouseSyncResult>, b: seq<WarehouseSyncResult>)
    ensures CountSuccessful(a + b) == CountSuccessful(a) + CountSuccessful(b)
    ensures SumFetched(a + b) == SumFetched(a) + SumFetched(b)
    ensures SumSaved(a + b) == SumSaved(a) + SumSaved(b)
    decreases |b|
  {
    if b == [] {
      assert a + b == a;
    } else {
      var b' := b[..|b| - 1];
      TallyAppend(a, b');
      assert (a + b)[..|a + b| - 1] == a + b';
      assert (a + b)[|a + b| - 1] == b[|b| - 1];
    }
  }

  /** A failed warehouse, wherever it sits in the list, only adds one to
      `failed_warehouses`: the successes and both item totals are those of
      the other warehouses. */
  lemma FailedEntryCountsOnlyAsFailure(a: seq<WarehouseSyncResult>, e: WarehouseSyncResult,
                                       b: seq<WarehouseSyncResult>)
    requires !e.success && e.itemsFetched == 0 && e.itemsSaved == 0
    ensures var withIt, without := Report(a + [e] + b), Report(a + b);
            && withIt.successfulWarehouses == without.successfulWarehouses
            && withIt.failedWarehouses == without.failedWarehouses + 1
            && withIt.totalItemsFetched == without.totalItemsFetched
            && withIt.totalItemsSaved == without.totalItemsSaved
  {
    TallyAppend(a, [e]);
    TallyAppend(a + [e], b);
    TallyAppend(a, b);
    assert CountSuccessful([e]) == 0 && SumFetched([e]) == 0 && SumSaved([e]) == 0 by {
      assert [e][..0] == [];
    }
  }

  /** The four counters of the sync loop. */
  datatype Counters = Counters(totalSaved: nat, totalItems: nat, successful: nat, failed: nat)

  /** The counters of a list of entries. */
  function Tally(rs: seq<WarehouseSyncResult>): (c: Counters)
    ensures c.successful + c.failed == |rs|
  {
    var ok := CountSuccessful(rs);
    Counters(SumSaved(rs), SumFetched(rs), ok, |rs| - ok)
  }

  /** One pass of the loop of `get_consjob`: fetch the warehouse, save its
      items (a failed save is caught and recorded), count the outcome. */
  method SyncNextWarehouse(db: D.Database, src: Source, ghost fetch: string -> WarehouseResult,
                           warehouse: string, storageUp: bool, now: int,
                           counters: Counters, ghost done: seq<WarehouseSyncResult>)
    returns (entry: WarehouseSyncResult, fetched: WarehouseResult, next: Counters)
    requires forall w {:trigger FetchWarehouse(src, w)} :: fetch(w) == FetchWarehouse(src, w)
    requires counters == Tally(done)
    requires db.Valid()
    modifies db
    ensures db.Valid()
    ensures fetched == fetch(warehouse)
    ensures (entry, db.table) == SyncOne(old(db.table), fetched, storageUp, now)
    ensures next.successful == counters.successful + (if entry.success then 1 else 0)
    ensures next.failed == counters.failed + (if entry.success then 0 else 1)
    ensures next.totalItems == counters.totalItems + entry.itemsFetched
    ensures next.totalSaved == counters.totalSaved + entry.itemsSaved
    ensures next == Tally(done + [entry])
    ensures db.tableExists == (old(db.tableExists) || Stored(entry))
  {
    fetched := GetWarehouseData(src, warehouse);
    next := counters;
    if !fetched.success {
      entry := WarehouseSyncResult(warehouse, false, 0, 0, Some(FetchFault(fetched.error.GetOr(DecodeFault))));
      next := next.(failed := next.failed + 1);
    } else {
      var saved := db.SaveConsjobData(fetched.items, storageUp, now);
      match saved
      case Ok(n) =>
        entry := WarehouseSyncResult(warehouse, true, fetched.totalItems, n, None);
        next := next.(totalItems := next.totalItems + fetched.totalItems,
                      totalSaved := next.totalSaved + n,
                      successful := next.successful + 1);
      case Err(e) =>
        entry := WarehouseSyncResult(warehouse, false, 0, 0, Some(SaveFault(e)));
        next := next.(failed := next.failed + 1);
    }
    TotalsStep(done, entry);
  }

  /** The loop of `get_consjob` over the selected warehouses; `fetch` is
      what `get_warehouse_data` computes against `src`. */
  method SyncWarehouses(db: D.Database, src: Source, ghost fetch: string -> WarehouseResult,
                        warehouses: seq<string>, storageUp: bool, now: int)
    returns (report: SyncReport)
    requires forall w {:trigger FetchWarehouse(src, w)} :: fetch(w) == FetchWarehouse(src, w)
    requires db.Valid()
    modifies db
    ensures db.Valid()
    ensures (report.warehouseResults, db.table)
            == SyncAll(old(db.table), FetchEach(fetch, warehouses), storageUp, now)
    ensures report == Report(report.warehouseResults)
    ensures db.tableExists == (old(db.tableExists) || AnyStored(report.warehouseResults))
  {
    var results: seq<WarehouseSyncResult> := [];
    var counters := Counters(0, 0, 0, 0);
    for i := 0 to |warehouses|
      invariant db.Valid()
      invariant (results, db.table) == SyncAll(old(db.table), FetchEach(fetch, warehouses[..i]), storageUp, now)
      invariant counters == Tally(results)
      invariant db.tableExists == (old(db.tableExists) || AnyStored(results))
    {
      var entry, fetched;
      entry, fetched, counters := SyncNextWarehouse(db, src, fetch, warehouses[i], storageUp, now, counters, results);
      FetchEachSnoc(fetch, warehouses, i);
      SyncAllStep(old(db.table), FetchEach(fetch, warehouses[..i]), storageUp, now, fetched);
      AnyStoredStep(results, entry);
      results := results + [entry];
    }
    assert warehouses[..|warehouses|] == warehouses;
    report := SyncReport(|results|, counters.successful, counters.failed, counters.totalItems,
                         counters.totalSaved, results);
  }

  /** What a sync request answers and leaves in the table, given how its
      external authorization resolved: a failed resolution is a 401 before
      the code is looked at. */
  function SyncOutcome(table: D.Table, auth: Result<string, HttpError>, warehouse: Option<string>,
                       upstream: Upstream, storageUp: bool, now: int)
    : (out: (Result<SyncReport, HttpError>, D.Table))
    ensures auth.Err? ==> out == (Err(HttpError(401, ExternalTokenRequired)), table)
    ensures auth.Ok? && SelectWarehouses(warehouse).Err? ==> out == (Err(SelectWarehouses(warehouse).error), table)
    ensures out.0.Ok? ==> auth.Ok? && SelectWarehouses(warehouse).Ok?
                          && out.0.value.totalWarehouses == |SelectWarehouses(warehouse).value|
                          && out.0.value.successfulWarehouses + out.0.value.failedWarehouses
                             == out.0.value.totalWarehouses
  {
    if auth.Err? then (Err(HttpError(401, ExternalTokenRequired)), table)
    else match SelectWarehouses(warehouse)
         case Err(e) => (Err(e), table)
         case Ok(warehouses) =>
           var fetched := FetchAll(SyncSource(upstream, auth.value), warehouses);
           var (results, after) := SyncAll(table, fetched, storageUp, now);
           (Ok(Report(results)), after)
  }

  /** The answer of `sync_warehouse`. */
  datatype SingleSync = SingleSync(warehouse: string, itemsFetched: nat, itemsSaved: nat)

  /** What `sync_warehouse` answers and leaves in the table: it checks the
      code (400) before the authorization (401), then a failed fetch or a
      failed save is a 500 naming the warehouse. */
  function SingleSyncOutcome(table: D.Table, auth: Result<string, HttpError>, warehouse: string,
                             upstream: Upstream, storageUp: bool, now: int)
    : (out: (Result<SingleSync, HttpError>, D.Table))
    ensures warehouse !in Warehouses ==> out == (Err(HttpError(400, InvalidWarehouse(warehouse))), table)
    ensures warehouse in Warehouses && auth.Err? ==> out == (Err(HttpError(401, ExternalTokenRequired)), table)
    ensures out.0.Err? ==> out.1 == table
    ensures out.0.Err? ==> out.0.error.status == 400 || out.0.error.status == 401 || out.0.error.status == 500
    ensures out.0.Ok? ==> warehouse in Warehouses && auth.Ok? && out.0.value.warehouse == warehouse
                          && out.0.value.itemsSaved <= out.0.value.itemsFetched
    ensures warehouse in Warehouses && auth.Ok? ==>
              var fetched := FetchWarehouse(SyncSource(upstream, auth.value), warehouse);
              && (!fetched.success ==>
                    out.0 == Err(HttpError(500, WarehouseFetchFailed(warehouse, FirstPage(SyncSource(upstream, auth.value), warehouse).error))))
              && (fetched.success && fetched.items != [] && !storageUp ==>
                    out.0 == Err(HttpError(500, WarehouseSaveFailed(warehouse, StorageUnavailable))))
              && (fetched.success && (fetched.items == [] || storageUp) ==>
                    out.0.Ok? && out.0.value.itemsFetched == |fetched.items|
                    && (out.1, out.0.value.itemsSaved) == D.SaveAll(table, fetched.items, now))
  {
    if warehouse !in Warehouses then (Err(HttpError(400, InvalidWarehouse(warehouse))), table)
    else if auth.Err? then (Err(HttpError(401, ExternalTokenRequired)), table)
    else
      var fetched := FetchWarehouse(SyncSource(upstream, auth.value), warehouse);
      if !fetched.success then (Err(HttpError(500, WarehouseFetchFailed(warehouse, fetched.error.value))), table)
      else if fetched.items != [] && !storageUp then
        (Err(HttpError(500, WarehouseSaveFailed(warehouse, StorageUnavailable))), table)
      else
        var (after, saved) := D.SaveAll(table, fetched.items, now);
        D.SaveCount(table, fetched.items, now);
        (Ok(SingleSync(warehouse, fetched.totalItems, saved)), after)
  }

  /** Syncing one listed warehouse does what one pass of the sync loop does to
      it: the same success, the same counts, the same table. */
  lemma SingleSyncIsOnePass(table: D.Table, externalAuth: string, warehouse: string,
                            upstream: Upstream, storageUp: bool, now: int)
    requires warehouse in Warehouses
    ensures var single := SingleSyncOutcome(table, Ok(externalAuth), warehouse, upstream, storageUp, now);
            var pass := SyncOne(table, FetchWarehouse(SyncSource(upstream, externalAuth), warehouse), storageUp, now);
            && (single.0.Ok? <==> pass.0.success)
            && single.1 == pass.1
            && (single.0.Ok? ==> single.0.value.itemsFetched == pass.0.itemsFetched
                                 && single.0.value.itemsSaved == pass.0.itemsSaved)
  {
  }

  /** The two handlers order their checks differently: for a code that is not
      listed and an authorization that does not resolve, the list handler
      answers 401 and the single-warehouse handler 400. */
  lemma ChecksInOppositeOrder(table: D.Table, e: HttpError, code: string, upstream: Upstream,
                              storageUp: bool, now: int)
    requires code != "" && code !in Warehouses
    ensures SyncOutcome(table, Err(e), Some(code), upstream, storageUp, now).0
            == Err(HttpError(401, ExternalTokenRequired))
    ensures SingleSyncOutcome(table, Err(e), code, upstream, storageUp, now).0
            == Err(HttpError(400, InvalidWarehouse(code)))
  {
  }

  /** What GET /api/consjob/ answers. */
  datatype ConsjobResponse = Listing(rows: seq<D.Row>) | Synced(report: SyncReport)

  /** `get_consjob`: the current user is checked first; without `sync` the
      stored rows are listed; with it the external authorization is resolved
      (possibly refreshing it), then the code is checked, then each selected
      warehouse is synced in turn. */
  method GetConsjob(store: TokenStore, db: D.Database, authorization: Option<string>, sync: bool,
                    warehouse: Option<string>, upstream: Upstream, login: LoginService,
                    storageUp: bool, now: int) returns (r: Result<ConsjobResponse, HttpError>)
    requires store.Valid() && db.Valid()
    modifies store, db
    ensures store.Valid() && db.Valid()
    ensures old(store.CurrentUser(authorization)).Err? ==>
              r == Err(old(store.CurrentUser(authorization)).error) && unchanged(store) && unchanged(db)
    ensures old(store.CurrentUser(authorization)).Ok? && !sync ==>
              && unchanged(store) && unchanged(db)
              && (storageUp && db.tableExists ==>
                    r.Ok? && r.value.Listing? && D.NewestFirst(r.value.rows)
                    && multiset(r.value.rows) == multiset(db.table.rows))
              && (!storageUp ==> r == Err(HttpError(500, Unhandled(StorageUnavailable))))
              && (storageUp && !db.tableExists ==> r == Err(HttpError(500, Unhandled(UndefinedTable))))
    ensures old(store.CurrentUser(authorization)).Ok? && sync ==>
              && store.Resolved(authorization, now, login)
              && var out := SyncOutcome(old(db.table), old(store.Authorization(authorization, now, login)),
                                        warehouse, upstream, storageUp, now);
                 && db.table == out.1
                 && r == (match out.0 case Ok(report) => Ok(Synced(report)) case Err(e) => Err(e))
                 && db.tableExists == (old(db.tableExists) || (out.0.Ok? && AnyStored(out.0.value.warehouseResults)))
  {
    var user := store.CurrentUser(authorization);
    if user.Err? {
      return Err(user.error);
    }
    if !sync {
      var listed := db.GetConsjobList(storageUp);
      if listed.Err? {
        return Err(HttpError(500, Unhandled(listed.error)));
      }
      return Ok(Listing(listed.value));
    }
    var externalAuth := store.GetExternalApiAuthorization(authorization, now, login);
    if externalAuth.Err? {
      return Err(HttpError(401, ExternalTokenRequired));
    }
    var selected := SelectWarehouses(warehouse);
    if selected.Err? {
      return Err(selected.error);
    }
    var src := SyncSource(upstream, externalAuth.value);
    var report := SyncWarehouses(db, src, Fetcher(src), selected.value, storageUp, now);
    return Ok(Synced(report));
  }

  /** `sync_warehouse`: the current user, then the code, then the external
      authorization, then the fetch and the save of that one warehouse. An
      unlisted code is refused before the store is consulted. */
  method SyncWarehouse(store: TokenStore, db: D.Database, warehouse: string, authorization: Option<string>,
                       upstream: Upstream, login: LoginService, storageUp: bool, now: int)
    returns (r: Result<SingleSync, HttpError>)
    requires store.Valid() && db.Valid()
    modifies store, db
    ensures store.Valid() && db.Valid()
    ensures old(store.CurrentUser(authorization)).Err? ==>
              r == Err(old(store.CurrentUser(authorization)).error) && unchanged(store) && unchanged(db)
    ensures old(store.CurrentUser(authorization)).Ok? && warehouse !in Warehouses ==>
              r == Err(HttpError(400, InvalidWarehouse(warehouse))) && unchanged(store) && unchanged(db)
    ensures old(store.CurrentUser(authorization)).Ok? && warehouse in Warehouses ==>
              && store.Resolved(authorization, now, login)
              && (r, db.table) == SingleSyncOutcome(old(db.table), old(store.Authorization(authorization, now, login)),
                                                    warehouse, upstream, storageUp, now)
              && db.tableExists == (old(db.tableExists) || (r.Ok? && r.value.itemsFetched > 0))
  {
    var user := store.CurrentUser(authorization);
    if user.Err? {
      return Err(user.error);
    }
    if warehouse !in Warehouses {
      return Err(HttpError(400, InvalidWarehouse(warehouse)));
    }
    var externalAuth := store.GetExternalApiAuthorization(authorization, now, login);
    if externalAuth.Err? {
      return Err(HttpError(401, ExternalTokenRequired));
    }
    var fetched := GetWarehouseData(SyncSource(upstream, externalAuth.value), warehouse);
    if !fetched.success {
      return Err(HttpError(500, WarehouseFetchFailed(warehouse, fetched.error.value)));
    }
    var saved := db.SaveConsjobData(fetched.items, storageUp, now);
    if saved.Err? {
      return Err(HttpError(500, WarehouseSaveFailed(warehouse, saved.error)));
    }
    return Ok(SingleSync(warehouse, fetched.totalItems, saved.value));
  }
}
