/** The collection-API client of js/api.js: the registry of upstream
    sources, the client's current source, the query string of the single
    `/api/proxy` request it sends, and how each call reshapes the JSON
    payload. `fetch` with its timeout is the parameter `fetch`, a function
    from the request sent to the reply received. */
module Api {
  import opened Common
  import opened Text

  /** One entry of `API_SOURCES`. */
  datatype SourceConfig = SourceConfig(name: string, url: string, kind: string)

  const DefaultKey: string := "hongniu"

  const Registry: map<string, SourceConfig> := map[
    "hongniu" := SourceConfig("红牛资源", "https://www.hongniuzy2.com/api.php/provide/vod/at/json", "json"),
    "liangzi" := SourceConfig("量子资源", "https://cj.lziapi.com/api.php/provide/vod/at/json", "json"),
    "feifei" := SourceConfig("非凡资源 (综合/18+)", "http://cj.ffzyapi.com/api.php/provide/vod/from/ffm3u8/at/json", "json"),
    "uku" := SourceConfig("Uku资源", "https://api.ukuapi.com/api.php/provide/vod/from/uku/at/json", "json"),
    "wolong" := SourceConfig("卧龙资源", "https://collect.wolongzyw.com/api.php/provide/vod/at/json", "json"),
    "guangsu" := SourceConfig("光速资源", "https://api.guangsuapi.com/api.php/provide/vod/from/gsm3u8/at/json", "json"),
    "ikun" := SourceConfig("IKUN资源", "https://ikunzyapi.com/api.php/provide/vod/from/ikm3u8/at/json", "json")
  ]

  /** `API_SOURCES[key] || API_SOURCES.hongniu`. */
  function Resolve(key: string): (c: SourceConfig)
    ensures c in Registry.Values
    ensures key in Registry ==> c == Registry[key]
  {
    if key in Registry then Registry[key] else Registry[DefaultKey]
  }

  /** An unknown key selects the default source. */
  lemma ResolveUnknown(key: string)
    requires key !in Registry
    ensures Resolve(key) == Registry[DefaultKey]
    ensures Resolve(key).url == "https://www.hongniuzy2.com/api.php/provide/vod/at/json"
  {
  }

  /** `getSources()`: the whole registry, seven sources under their keys. */
  function GetSources(): (r: map<string, SourceConfig>)
    ensures r.Keys == {"hongniu", "liangzi", "feifei", "uku", "wolong", "guangsu", "ikun"}
    ensures forall k :: k in r ==> r[k].kind == "json"
  {
    Registry
  }

  // ---------------------------------------------------------------------
  // The request
  // ---------------------------------------------------------------------

  const ProxyPath: string := "/api/proxy"

  /** The same-origin proxy request: path and query pairs in order. */
  datatype ProxyRequest = ProxyRequest(path: string, query: seq<Pair>)

  /** A category of the upstream catalogue, as `class` lists them. */
  datatype Category = Category(id: string, name: string)

  /** The parsed JSON body; an absent field is `None` or `Undefined`. */
  datatype Payload = Payload(list: Option<seq<Vod>>, classes: Option<seq<Category>>,
                             total: Value, page: Value, pageCount: Value)

  /** What `fetch` and `response.json()` produce together. */
  datatype Reply =
    | NetworkError            // fetch rejected, including the 10 s abort
    | HttpReply(status: int, body: Option<Payload>)  // body None: not JSON

  datatype ApiError = RequestFailed | HttpError(status: int) | BadJson

  /** `response.ok`. */
  predicate Ok(status: int) { 200 <= status <= 299 }

  /** The value `_request` resolves with, or the error it throws. */
  function Outcome(reply: Reply): (r: Result<Payload, ApiError>)
    ensures r.Success? <==> reply.HttpReply? && Ok(reply.status) && reply.body.Some?
    ensures reply.HttpReply? && !Ok(reply.status) ==> r == Failure(HttpError(reply.status))
    ensures r.Success? ==> r.value == reply.body.value
  {
    match reply
    case NetworkError => Failure(RequestFailed)
    case HttpReply(status, body) =>
      if !Ok(status) then Failure(HttpError(status))
      else if body.None? then Failure(BadJson)
      else Success(body.value)
  }

  /** The query of the proxy request: the upstream `url` first, then the
      call's own parameters in key order. */
  method ProxyQuery(sourceUrl: string, params: seq<Pair>) returns (q: seq<Pair>)
    ensures |q| == |params| + 1
    ensures q[0] == Pair("url", sourceUrl)
    ensures forall i :: 0 <= i < |params| ==> q[i + 1] == params[i]
  {
    q := [Pair("url", sourceUrl)];
    var i := 0;
    while i < |params|
      invariant 0 <= i <= |params|
      invariant |q| == i + 1 && q[0] == Pair("url", sourceUrl)
      invariant forall j :: 0 <= j < i ==> q[j + 1] == params[j]
    {
      q := q + [params[i]];
      i := i + 1;
    }
  }

  /** The request `_request(params)` sends for a source. */
  function RequestFor(source: SourceConfig, params: seq<Pair>): ProxyRequest {
    ProxyRequest(ProxyPath, [Pair("url", source.url)] + params)
  }

  // ---------------------------------------------------------------------
  // Payload shaping
  // ---------------------------------------------------------------------

  /** `data.list || []`. */
  function ListOrEmpty(p: Payload): (r: seq<Vod>)
    ensures p.list.Some? ==> r == p.list.value
    ensures p.list.None? ==> r == []
  {
    p.list.GetOr([])
  }

  /** `data.class || []`. */
  function ClassesOrEmpty(p: Payload): (r: seq<Category>)
    ensures p.classes.Some? ==> r == p.classes.value
    ensures p.classes.None? ==> r == []
  {
    p.classes.GetOr([])
  }

  /** `data.list && data.list.length > 0 ? data.list[0] : null`. */
  function FirstOrNull(p: Payload): (r: Option<Vod>)
    ensures r.Some? <==> p.list.Some? && |p.list.value| > 0
    ensures r.Some? ==> r.value == p.list.value[0]
  {
    match p.list
    case Some(l) => if |l| > 0 then Some(l[0]) else None
    case None => None
  }

  /** The object `getCategory` resolves with. */
  datatype CategoryPage = CategoryPage(list: seq<Vod>, total: Value, page: Value, pageCount: Value)

  function ToCategoryPage(p: Payload): (r: CategoryPage)
    ensures r.list == ListOrEmpty(p)
    ensures r.total == p.total && r.page == p.page && r.pageCount == p.pageCount
  {
    CategoryPage(ListOrEmpty(p), p.total, p.page, p.pageCount)
  }

  /** Applies a shaping to the success side; errors pass through. */
  function MapResult<T>(r: Result<Payload, ApiError>, f: Payload -> T): (s: Result<T, ApiError>)
    ensures s.Success? <==> r.Success?
    ensures r.Failure? ==> s.error == r.error
    ensures r.Success? ==> s.value == f(r.value)
  {
    match r
    case Success(p) => Success(f(p))
    case Failure(e) => Failure(e)
  }

  // ---------------------------------------------------------------------
  // Call parameters
  // ---------------------------------------------------------------------

  function HomeParams(): seq<Pair> {
    [Pair("ac", "detail"), Pair("pg", "1"), Pair("pagesize", "24")]
  }

  function SearchParams(keyword: string): seq<Pair> {
    [Pair("ac", "detail"), Pair("wd", keyword)]
  }

  function DetailParams(id: string): seq<Pair> {
    [Pair("ac", "detail"), Pair("ids", id)]
  }

  /** `getCategory(typeId, page = 1)`: an absent page is page 1. */
  function CategoryParams(typeId: string, page: Option<int>): (r: seq<Pair>)
    ensures |r| == 4 && r[0] == Pair("ac", "detail") && r[1] == Pair("t", typeId)
    ensures r[2].key == "pg" && r[3] == Pair("pagesize", "20")
    ensures page.None? ==> r[2].value == "1"
    ensures page.Some? ==> r[2].value == Decimal(page.value)
  {
    [Pair("ac", "detail"), Pair("t", typeId), Pair("pg", Decimal(page.GetOr(1))), Pair("pagesize", "20")]
  }

  function TypesParams(): seq<Pair> {
    [Pair("ac", "list"), Pair("pagesize", "1")]
  }

  // ---------------------------------------------------------------------
  // The client
  // ---------------------------------------------------------------------

  class VodClient {
    var source: SourceConfig

    /** `new VodClient(sourceKey = 'hongniu')`. */
    constructor(sourceKey: Option<string>)
      ensures source == Resolve(sourceKey.GetOr(DefaultKey))
      ensures source in Registry.Values
    {
      source := Resolve(sourceKey.GetOr(DefaultKey));
    }

    /** `setSource(key)`: a registered key switches, any other is ignored. */
    method SetSource(key: string)
      modifies this
      ensures key in Registry ==> source == Registry[key]
      ensures key !in Registry ==> source == old(source)
    {
      if key in Registry {
        source := Registry[key];
      }
    }

    /** `_request(params)`: one proxy request carrying the current source's
        url and `params`; resolves with the JSON payload of a 2xx reply. */
    method Request(params: seq<Pair>, fetch: ProxyRequest -> Reply)
      returns (r: Result<Payload, ApiError>, sent: ProxyRequest)
      ensures sent == RequestFor(source, params)
      ensures sent.path == ProxyPath && sent.query[0] == Pair("url", source.url) && sent.query[1..] == params
      ensures r == Outcome(fetch(sent))
    {
      var q := ProxyQuery(source.url, params);
      sent := ProxyRequest(ProxyPath, q);
      assert q == [Pair("url", source.url)] + params;
      r := Outcome(fetch(sent));
    }

    /** `getHomeData()`: the 24 most recent videos. */
    method GetHomeData(fetch: ProxyRequest -> Reply) returns (r: Result<seq<Vod>, ApiError>, sent: ProxyRequest)
      ensures sent == RequestFor(source, HomeParams())
      ensures r == MapResult(Outcome(fetch(sent)), ListOrEmpty)
    {
      var data;
      data, sent := Request(HomeParams(), fetch);
      r := MapResult(data, ListOrEmpty);
    }

    /** `search(keyword)`: an empty keyword resolves with `[]` and sends nothing. */
    method Search(keyword: string, fetch: ProxyRequest -> Reply)
      returns (r: Result<seq<Vod>, ApiError>, sent: Option<ProxyRequest>)
      ensures keyword == "" ==> r == Success([]) && sent == None
      ensures keyword != "" ==> sent == Some(RequestFor(source, SearchParams(keyword)))
      ensures keyword != "" ==> r == MapResult(Outcome(fetch(sent.value)), ListOrEmpty)
    {
      if keyword == "" {
        return Success([]), None;
      }
      var data, req := Request(SearchParams(keyword), fetch);
      r, sent := MapResult(data, ListOrEmpty), Some(req);
    }

    /** `getDetail(id)`: the first video of the reply, or null. */
    method GetDetail(id: string, fetch: ProxyRequest -> Reply) returns (r: Result<Option<Vod>, ApiError>, sent: ProxyRequest)
      ensures sent == RequestFor(source, DetailParams(id))
      ensures r == MapResult(Outcome(fetch(sent)), FirstOrNull)
    {
      var data;
      data, sent := Request(DetailParams(id), fetch);
      r := MapResult(data, FirstOrNull);
    }

    /** `getCategory(typeId, page)`. */
    method GetCategory(typeId: string, page: Option<int>, fetch: ProxyRequest -> Reply)
      returns (r: Result<CategoryPage, ApiError>, sent: ProxyRequest)
      ensures sent == RequestFor(source, CategoryParams(typeId, page))
      ensures r == MapResult(Outcome(fetch(sent)), ToCategoryPage)
    {
      var data;
      data, sent := Request(CategoryParams(typeId, page), fetch);
      r := MapResult(data, ToCategoryPage);
    }

    /** `getTypes()`: the category list. */
    method GetTypes(fetch: ProxyRequest -> Reply) returns (r: Result<seq<Category>, ApiError>, sent: ProxyRequest)
      ensures sent == RequestFor(source, TypesParams())
      ensures r == MapResult(Outcome(fetch(sent)), ClassesOrEmpty)
    {
      var data;
      data, sent := Request(TypesParams(), fetch);
      r := MapResult(data, ClassesOrEmpty);
    }
  }

  /** A successful reply without a `list` field gives an empty list, never
      an error, for every list-returning call. */
  lemma MissingListIsEmpty(status: int, p: Payload)
    requires Ok(status) && p.list.None? && p.classes.None?
    ensures MapResult(Outcome(HttpReply(status, Some(p))), ListOrEmpty) == Success([])
    ensures MapResult(Outcome(HttpReply(status, Some(p))), FirstOrNull) == Success(None)
    ensures MapResult(Outcome(HttpReply(status, Some(p))), ClassesOrEmpty) == Success([])
  {
  }

  /** A non-2xx reply fails every call with its status, whatever the body. */
  lemma HttpErrorPropagates(status: int, body: Option<Payload>)
    requires !Ok(status)
    ensures MapResult(Outcome(HttpReply(status, body)), ListOrEmpty) == Failure(HttpError(status))
    ensures MapResult(Outcome(HttpReply(status, body)), ToCategoryPage) == Failure(HttpError(status))
  {
  }
}
