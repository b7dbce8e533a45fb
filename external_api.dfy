/** The upstream client (backend/services/external_api.py): how one HTTP
    answer is classified, which query a listing request sends, and how one
    warehouse, then a list of warehouses, is paged through. The upstream
    service is a function from the Authorization header and the query to the
    answer it gives. */
module ExternalApi {
  import opened Wrappers
  import opened JsonValues
  import opened Text
  import opened Errors

  /** What the HTTP client hands back for one request. */
  datatype HttpOutcome =
    | TransportError(message: string)  // httpx.RequestError, timeouts included
    | Response(status: int, contentType: Option<string>, body: Option<Json>)  // body None: not JSON

  /** The upstream service: the answer to an Authorization header and a query. */
  type Upstream = (string, Params) -> HttpOutcome

  const DefaultDetail: Json := JStr("请求失败")

  predicate DeclaresJson(contentType: Option<string>) {
    StartsWith(contentType.GetOr(""), "application/json")
  }

  /** `error_data.get("detail", "请求失败")` for an answer other than 200:
      the body is consulted only when the content type says JSON and it
      parses; a parsed body that is not an object makes `.get` raise. */
  function ErrorDetail(contentType: Option<string>, body: Option<Json>): (r: Result<Json, Fault>)
    ensures r.Err? <==> DeclaresJson(contentType) && body.Some? && !body.value.JObj?
    ensures r.Err? ==> r.error == AttributeFault
    ensures DeclaresJson(contentType) && body.Some? && body.value.JObj? && "detail" in body.value.fields
            ==> r == Ok(body.value.fields["detail"])
    ensures DeclaresJson(contentType) && body.Some? && body.value.JObj? && "detail" !in body.value.fields
            ==> r == Ok(DefaultDetail)
    ensures !(DeclaresJson(contentType) && body.Some?) ==> r == Ok(DefaultDetail)
  {
    var errorData := if DeclaresJson(contentType) && body.Some? then body.value else JObj(map[]);
    match errorData
    case JObj(fields) => Ok(Lookup(fields, "detail").GetOr(DefaultDetail))
    case _ => Err(AttributeFault)
  }

  /** `_request`: the body of a 200 answer, or the error it raises. */
  function Classify(o: HttpOutcome): Result<Json, Fault> {
    match o
    case TransportError(msg) => Err(Raised(HttpError(503, CannotConnect(msg))))
    case Response(status, contentType, body) =>
      if status == 401 then Err(Raised(HttpError(401, UpstreamAuthFailed)))
      else if status != 200 then
        match ErrorDetail(contentType, body)
        case Ok(d) => Err(Raised(HttpError(status, Upstream(d))))
        case Err(f) => Err(f)
      else if body.Some? then Ok(body.value)
      else Err(DecodeFault)
  }

  /** Only status 200 yields a body; a transport failure is a 503; 401 is
      reported as such before the generic branch; any other status keeps its
      code and carries the upstream detail; a 200 whose body does not parse raises. */
  lemma ClassifyEffect(o: HttpOutcome)
    ensures var r := Classify(o);
      && (r.Ok? <==> o.Response? && o.status == 200 && o.body.Some?)
      && (r.Ok? ==> r.value == o.body.value)
      && (o.TransportError? ==> r == Err(Raised(HttpError(503, CannotConnect(o.message)))))
      && (o.Response? && o.status == 401 ==> r == Err(Raised(HttpError(401, UpstreamAuthFailed))))
      && (o.Response? && o.status == 200 && o.body.None? ==> r == Err(DecodeFault))
      && (o.Response? && o.status != 200 && o.status != 401 ==>
            match ErrorDetail(o.contentType, o.body)
            case Ok(d) => r == Err(Raised(HttpError(o.status, Upstream(d))))
            case Err(f) => r == Err(f))
  {
  }

  datatype ParamValue = PStr(s: string) | PInt(n: int)

  /** Query parameters in the order the request dictionary is built. */
  type Params = seq<(string, ParamValue)>

  /** An optional string argument that Python treats as given: not None, not "". */
  predicate Given(v: Option<string>) {
    v.Some? && v.value != ""
  }

  function OptionalParam(name: string, v: Option<string>): Params {
    if Given(v) then [(name, PStr(v.value))] else []
  }

  /** The query `get_scan_records` sends. */
  function ScanParams(showCancelled: string, page: int, pageSize: int,
                      sort: Option<string>, order: Option<string>,
                      warehouse: Option<string>): Params
  {
    [("show_cancelled", PStr(showCancelled)), ("page", PInt(page)), ("page_size", PInt(pageSize))]
    + OptionalParam("sort", sort) + OptionalParam("order", order) + OptionalParam("warehouse", warehouse)
  }

  /** The three fixed parameters are always sent, first and in this order;
      sort, order and warehouse are each sent exactly when given. */
  lemma ScanParamsShape(showCancelled: string, page: int, pageSize: int,
                        sort: Option<string>, order: Option<string>, warehouse: Option<string>)
    ensures var ps := ScanParams(showCancelled, page, pageSize, sort, order, warehouse);
      && |ps| == 3 + |OptionalParam("sort", sort)| + |OptionalParam("order", order)|
                   + |OptionalParam("warehouse", warehouse)|
      && ps[..3] == [("show_cancelled", PStr(showCancelled)), ("page", PInt(page)), ("page_size", PInt(pageSize))]
      && (Given(sort) <==> ("sort", PStr(sort.GetOr(""))) in ps)
      && (Given(order) <==> ("order", PStr(order.GetOr(""))) in ps)
      && (Given(warehouse) <==> ("warehouse", PStr(warehouse.GetOr(""))) in ps)
  {
  }

  /** Nothing else is sent, and no parameter name is sent twice. */
  lemma ScanParamsDistinct(showCancelled: string, page: int, pageSize: int,
                           sort: Option<string>, order: Option<string>, warehouse: Option<string>)
    ensures var ps := ScanParams(showCancelled, page, pageSize, sort, order, warehouse);
      && (forall i :: 3 <= i < |ps| ==> ps[i].0 in {"sort", "order", "warehouse"})
      && (forall i, j :: 0 <= i < j < |ps| ==> ps[i].0 != ps[j].0)
  {
  }

  /** The rest of what a listing request depends on besides the warehouse and
      the page: the upstream, the Authorization header value, the
      show_cancelled flag and the page size. */
  datatype Source = Source(upstream: Upstream, authorization: string, showCancelled: string, pageSize: int)

  const SortField: string := "nonupdated_start_timestamp"
  const SortOrder: string := "desc"

  /** `get_warehouse_data` asks for every page sorted by the staleness
      timestamp, descending, filtered to the warehouse. */
  function PageParams(src: Source, warehouse: string, page: int): Params {
    ScanParams(src.showCancelled, page, src.pageSize, Some(SortField), Some(SortOrder), Some(warehouse))
  }

  /** `get_scan_records` for one page of one warehouse. */
  function PageResponse(src: Source, warehouse: string, page: int): Result<Json, Fault> {
    Classify(src.upstream(src.authorization, PageParams(src, warehouse, page)))
  }

  function ListOrEmpty(v: Json): seq<Json> {
    if v.JArr? then v.elems else []
  }

  /** `body.get("data") or body.get("items") or []`, then kept only if it is a list. */
  function PageItems(body: Json): (r: Result<seq<Json>, Fault>)
    ensures r.Err? <==> !body.JObj?
    ensures r.Err? ==> r.error == AttributeFault
    ensures body.JObj? && "data" in body.fields && Truthy(body.fields["data"])
            ==> r == Ok(ListOrEmpty(body.fields["data"]))
    ensures body.JObj? && !("data" in body.fields && Truthy(body.fields["data"]))
            && "items" in body.fields && Truthy(body.fields["items"])
            ==> r == Ok(ListOrEmpty(body.fields["items"]))
    ensures body.JObj? && !("data" in body.fields && Truthy(body.fields["data"]))
            && !("items" in body.fields && Truthy(body.fields["items"]))
            ==> r == Ok([])
  {
    match body
    case JObj(fields) =>
      var chosen := FirstTruthy(Lookup(fields, "data"), Lookup(fields, "items"));
      Ok(if chosen.Some? then ListOrEmpty(chosen.value) else [])
    case _ => Err(AttributeFault)
  }

  /** `body.get("pagination", {}).get("total_pages", 1)` as `range` uses it:
      a JSON boolean counts as 0 or 1, any other non-number raises. */
  function TotalPages(fields: map<string, Json>): (r: Result<int, Fault>)
    ensures "pagination" !in fields ==> r == Ok(1)
    ensures "pagination" in fields && !fields["pagination"].JObj? ==> r == Err(AttributeFault)
    ensures "pagination" in fields && fields["pagination"].JObj? ==>
              var p := fields["pagination"].fields;
              r == if "total_pages" !in p then Ok(1)
                   else match p["total_pages"]
                        case JNum(n) => Ok(n)
                        case JBool(b) => Ok(if b then 1 else 0)
                        case _ => Err(TypeFault)
  {
    match Lookup(fields, "pagination").GetOr(JObj(map[]))
    case JObj(p) =>
      (match Lookup(p, "total_pages").GetOr(JNum(1))
       case JNum(n) => Ok(n)
       case JBool(b) => Ok(if b then 1 else 0)
       case _ => Err(TypeFault))
    case _ => Err(AttributeFault)
  }

  /** The first page: its items and the page count it announces, or the
      failure that makes the whole warehouse fail. */
  function FirstPage(src: Source, warehouse: string): Result<(seq<Json>, int), Fault> {
    match PageResponse(src, warehouse, 1)
    case Err(f) => Err(f)
    case Ok(body) =>
      match PageItems(body)
      case Err(f) => Err(f)
      case Ok(items) =>
        match TotalPages(body.fields)
        case Err(f) => Err(f)
        case Ok(total) => Ok((items, total))
  }

  /** A later page's items; a failing later page contributes nothing. */
  function LaterPage(src: Source, warehouse: string, page: int): seq<Json> {
    match PageResponse(src, warehouse, page)
    case Err(_) => []
    case Ok(body) => PageItems(body).GetOr([])
  }

  /** The concatenation f(lo) + ... + f(hi), empty when hi < lo. */
  function Span(f: int -> seq<Json>, lo: int, hi: int): seq<Json>
    decreases hi - lo
  {
    if hi < lo then [] else Span(f, lo, hi - 1) + f(hi)
  }

  /** Spans concatenate. */
  lemma {:induction false} SpanSplit(f: int -> seq<Json>, lo: int, mid: int, hi: int)
    requires lo - 1 <= mid <= hi
    ensures Span(f, lo, hi) == Span(f, lo, mid) + Span(f, mid + 1, hi)
    decreases hi - mid
  {
    if hi > mid {
      SpanSplit(f, lo, mid, hi - 1);
    }
  }

  /** A span only reads f on lo..hi. */
  lemma {:induction false} SpanReadsOnlyRange(f: int -> seq<Json>, g: int -> seq<Json>, lo: int, hi: int)
    requires forall p :: lo <= p <= hi ==> f(p) == g(p)
    ensures Span(f, lo, hi) == Span(g, lo, hi)
    decreases hi - lo
  {
    if hi >= lo {
      SpanReadsOnlyRange(f, g, lo, hi - 1);
    }
  }

  /** The later pages of a warehouse, as a function of the page number. */
  function LaterPagesOf(src: Source, warehouse: string): int -> seq<Json> {
    p => LaterPage(src, warehouse, p)
  }

  datatype WarehouseResult = WarehouseResult(
    success: bool, warehouse: string, items: seq<Json>, totalItems: nat, error: Option<Fault>)

  /** What `get_warehouse_data` returns for one warehouse: on success the
      first page's items followed by those of pages 2..total_pages. */
  function FetchWarehouse(src: Source, warehouse: string): (r: WarehouseResult)
    ensures r.warehouse == warehouse
    ensures r.success <==> FirstPage(src, warehouse).Ok?
    ensures r.success ==> r.error.None? && r.totalItems == |r.items|
    ensures !r.success ==> r.items == [] && r.totalItems == 0
                           && r.error == Some(FirstPage(src, warehouse).error)
  {
    match FirstPage(src, warehouse)
    case Err(f) => WarehouseResult(false, warehouse, [], 0, Some(f))
    case Ok((first, total)) =>
      var items := first + Span(LaterPagesOf(src, warehouse), 2, total);
      WarehouseResult(true, warehouse, items, |items|, None)
  }

  /** The loop of `get_warehouse_data` over pages 2..total_pages, in
      increasing order: a page that fails is skipped and the loop goes on. */
  method FetchRemainingPages(src: Source, warehouse: string, totalPages: int) returns (items: seq<Json>)
    ensures items == Span(LaterPagesOf(src, warehouse), 2, totalPages)
  {
    ghost var f := LaterPagesOf(src, warehouse);
    items := [];
    var page := 2;
    while page <= totalPages
      invariant 2 <= page <= if totalPages < 2 then 2 else totalPages + 1
      invariant items == Span(f, 2, page - 1)
    {
      var response := PageResponse(src, warehouse, page);
      var pageItems: seq<Json> := [];
      if response.Ok? {
        var parsed := PageItems(response.value);
        if parsed.Ok? {
          pageItems := parsed.value;
        }
      }
      assert pageItems == f(page);
      items := items + pageItems;
      page := page + 1;
    }
  }

  /** `get_warehouse_data`: page 1 decides success and the page count, then
      the remaining pages are appended. */
  method GetWarehouseData(src: Source, warehouse: string) returns (r: WarehouseResult)
    ensures r == FetchWarehouse(src, warehouse)
  {
    var firstResponse := PageResponse(src, warehouse, 1);
    if firstResponse.Err? {
      return WarehouseResult(false, warehouse, [], 0, Some(firstResponse.error));
    }
    var body := firstResponse.value;
    var itemsData := PageItems(body);
    if itemsData.Err? {
      return WarehouseResult(false, warehouse, [], 0, Some(itemsData.error));
    }
    var allItems := itemsData.value;
    var pages := TotalPages(body.fields);
    if pages.Err? {
      return WarehouseResult(false, warehouse, [], 0, Some(pages.error));
    }
    assert FirstPage(src, warehouse) == Ok((allItems, pages.value));
    var rest := FetchRemainingPages(src, warehouse, pages.value);
    allItems := allItems + rest;
    return WarehouseResult(true, warehouse, allItems, |allItems|, None);
  }

  /** A page that contributes nothing can be cut out of a span. */
  lemma SpanSkip(f: int -> seq<Json>, lo: int, p: int, hi: int)
    requires lo <= p <= hi && f(p) == []
    ensures Span(f, lo, hi) == Span(f, lo, p - 1) + Span(f, p + 1, hi)
  {
    SpanSplit(f, lo, p, hi);
    assert Span(f, lo, p) == Span(f, lo, p - 1) + f(p);
    assert Span(f, lo, p - 1) + f(p) == Span(f, lo, p - 1);
  }

  lemma FailedPageEmpty(src: Source, warehouse: string, p: int)
    requires PageResponse(src, warehouse, p).Err?
    ensures LaterPagesOf(src, warehouse)(p) == []
  {
  }

  /** A failing later page is skipped: pages before and after it are all kept, in order. */
  lemma FailedPageSkipped(src: Source, warehouse: string, lo: int, p: int, hi: int)
    requires lo <= p <= hi
    requires PageResponse(src, warehouse, p).Err?
    ensures Span(LaterPagesOf(src, warehouse), lo, hi)
            == Span(LaterPagesOf(src, warehouse), lo, p - 1) + Span(LaterPagesOf(src, warehouse), p + 1, hi)
  {
    FailedPageEmpty(src, warehouse, p);
    SpanSkip(LaterPagesOf(src, warehouse), lo, p, hi);
  }

  /** Only pages 1..total_pages are requested: two upstreams that agree on
      those pages give the same warehouse result, whatever they answer for
      any other page. */
  lemma FetchReadsOnlyAnnouncedPages(s1: Source, s2: Source, warehouse: string)
    requires PageResponse(s1, warehouse, 1) == PageResponse(s2, warehouse, 1)
    requires FirstPage(s1, warehouse).Ok? ==>
               forall p :: 2 <= p <= FirstPage(s1, warehouse).value.1 ==>
                 PageResponse(s1, warehouse, p) == PageResponse(s2, warehouse, p)
    ensures FetchWarehouse(s1, warehouse) == FetchWarehouse(s2, warehouse)
  {
    if FirstPage(s1, warehouse).Ok? {
      var total := FirstPage(s1, warehouse).value.1;
      var f, g := LaterPagesOf(s1, warehouse), LaterPagesOf(s2, warehouse);
      forall p | 2 <= p <= total ensures f(p) == g(p) {
        assert PageResponse(s1, warehouse, p) == PageResponse(s2, warehouse, p);
      }
      SpanReadsOnlyRange(f, g, 2, total);
    }
  }

  /** A page count of 1 or less (or none announced) means the first page is all there is. */
  lemma SinglePageWhenTotalAtMostOne(src: Source, warehouse: string)
    requires FirstPage(src, warehouse).Ok? && FirstPage(src, warehouse).value.1 <= 1
    ensures FetchWarehouse(src, warehouse).items == FirstPage(src, warehouse).value.0
  {
  }

  /** Three pages of 100, 100 and 1 items give 201 items, in page order, with no gap. */
  lemma ThreePagesNoGaps(src: Source, warehouse: string)
    requires FirstPage(src, warehouse).Ok? && FirstPage(src, warehouse).value.1 == 3
    requires |FirstPage(src, warehouse).value.0| == 100
    requires |LaterPage(src, warehouse, 2)| == 100 && |LaterPage(src, warehouse, 3)| == 1
    ensures FetchWarehouse(src, warehouse).totalItems == 201
    ensures FetchWarehouse(src, warehouse).items ==
              FirstPage(src, warehouse).value.0 + LaterPage(src, warehouse, 2) + LaterPage(src, warehouse, 3)
  {
    var f := LaterPagesOf(src, warehouse);
    assert Span(f, 2, 1) == [];
    assert Span(f, 2, 3) == f(2) + f(3);
  }

  datatype AllWarehouseResult = AllWarehouseResult(
    results: seq<WarehouseResult>, allItems: seq<Json>, totalItems: nat,
    successfulCount: nat, failedCount: nat, totalWarehouses: nat)

  /** The items of the successful results, in result order. */
  function SucceededItems(rs: seq<WarehouseResult>): seq<Json> {
    if rs == [] then []
    else SucceededItems(rs[..|rs| - 1]) + (if rs[|rs| - 1].success then rs[|rs| - 1].items else [])
  }

  /** `successful_count` of `get_all_warehouse_data`: fetched warehouses
      whose pages could be read. */
  function CountSucceeded(rs: seq<WarehouseResult>): (n: nat)
    ensures n <= |rs|
  {
    if rs == [] then 0
    else CountSucceeded(rs[..|rs| - 1]) + (if rs[|rs| - 1].success then 1 else 0)
  }

  lemma {:induction false} SucceededItemsAppend(a: seq<WarehouseResult>, b: seq<WarehouseResult>)
    ensures SucceededItems(a + b) == SucceededItems(a) + SucceededItems(b)
    decreases |b|
  {
    if b != [] {
      var b', last := b[..|b| - 1], b[|b| - 1];
      var tail := if last.success then last.items else [];
      assert (a + b)[..|a + b| - 1] == a + b';
      assert (a + b)[|a + b| - 1] == last;
      calc {
        SucceededItems(a + b);
        SucceededItems(a + b') + tail;
        { SucceededItemsAppend(a, b'); }
        SucceededItems(a) + SucceededItems(b') + tail;
        SucceededItems(a) + (SucceededItems(b') + tail);
        SucceededItems(a) + SucceededItems(b);
      }
    } else {
      assert a + b == a;
    }
  }

  /** One more result adds its items and its count when it succeeded. */
  lemma SucceededStep(rs: seq<WarehouseResult>, r: WarehouseResult)
    ensures SucceededItems(rs + [r]) == SucceededItems(rs) + (if r.success then r.items else [])
    ensures CountSucceeded(rs + [r]) == CountSucceeded(rs) + (if r.success then 1 else 0)
  {
    assert (rs + [r])[..|rs|] == rs;
  }

  /** A failed warehouse contributes no items and removes none of the others'. */
  lemma {:induction false} FailedWarehouseIsolated(rs: seq<WarehouseResult>, i: int)
    requires 0 <= i < |rs| && !rs[i].success
    ensures SucceededItems(rs) == SucceededItems(rs[..i]) + SucceededItems(rs[i + 1..])
  {
    var pre, post := rs[..i], rs[i + 1..];
    var upTo := rs[..i + 1];
    assert rs == upTo + post;
    assert upTo[..|upTo| - 1] == pre;
    assert upTo[|upTo| - 1] == rs[i];
    assert SucceededItems(upTo) == SucceededItems(pre);
    SucceededItemsAppend(upTo, post);
  }

  /** `get_all_warehouse_data`: one result per warehouse, in input order, with
      the successful ones' items concatenated and the outcomes counted. */
  method GetAllWarehouseData(src: Source, warehouses: seq<string>) returns (r: AllWarehouseResult)
    ensures |r.results| == |warehouses|
    ensures forall i :: 0 <= i < |warehouses| ==> r.results[i] == FetchWarehouse(src, warehouses[i])
    ensures r.allItems == SucceededItems(r.results) && r.totalItems == |r.allItems|
    ensures r.successfulCount == CountSucceeded(r.results)
    ensures r.successfulCount + r.failedCount == r.totalWarehouses == |warehouses|
  {
    var results: seq<WarehouseResult> := [];
    var allItems: seq<Json> := [];
    var successfulCount, failedCount := 0, 0;
    for i := 0 to |warehouses|
      invariant |results| == i
      invariant forall j :: 0 <= j < i ==> results[j] == FetchWarehouse(src, warehouses[j])
      invariant allItems == SucceededItems(results)
      invariant successfulCount == CountSucceeded(results)
      invariant successfulCount + failedCount == i
    {
      var result := GetWarehouseData(src, warehouses[i]);
      SucceededStep(results, result);
      results := results + [result];
      if result.success {
        successfulCount := successfulCount + 1;
        allItems := allItems + result.items;
      } else {
        failedCount := failedCount + 1;
      }
    }
    return AllWarehouseResult(results, allItems, |allItems|, successfulCount, failedCount, |warehouses|);
  }
}
