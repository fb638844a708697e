/** The relay of functions/api/proxy.js, `onRequest` as a decision over the
    incoming request: a CORS preflight answer, two kinds of 400 for a bad
    `url` parameter, a 502 when the upstream fetch throws, and otherwise the
    upstream response passed through with the CORS headers laid over it.
    Parsing the target with `new URL` is the parameter `parse`, and the
    upstream `fetch` is the parameter `fetch`. */
module Proxy {
  import opened Common
  import opened Text
  import opened Http

  const CorsHeaders: seq<Header> := [
    Header("Access-Control-Allow-Origin", "*"),
    Header("Access-Control-Allow-Methods", "GET, HEAD, POST, OPTIONS"),
    Header("Access-Control-Allow-Headers", "Content-Type")
  ]

  const UserAgent: string :=
    "Mozilla/5.0 (Windows NT 10.0; Win64; x64) AppleWebKit/537.36 (KHTML, like Gecko) Chrome/120.0.0.0 Safari/537.36"

  const MissingUrl: string := "Missing \"url\" parameter"
  const InvalidUrl: string := "Invalid \"url\" parameter"

  /** The three CORS names differ even when lowercased. */
  lemma CorsNamesDistinct()
    ensures DistinctNames(CorsHeaders)
  {
    assert Lower(CorsHeaders[1].name)[21] == 'm';
    assert Lower(CorsHeaders[2].name)[21] == 'h';
  }

  /** The incoming request: its method (`verb`) and its URL's query pairs. */
  datatype Request = Request(verb: string, query: seq<Pair>)

  /** A parsed target URL: its origin and its query pairs. */
  datatype TargetUrl = TargetUrl(origin: string, path: string, query: seq<Pair>)

  datatype UpstreamRequest = UpstreamRequest(url: TargetUrl, verb: string, headers: HeaderList)

  /** What the upstream `fetch` does: resolve with a response or throw. */
  datatype Upstream = Replied(response: Response) | Threw(message: string)

  /** `searchParams.get(key)`: the value of the first pair with that key. */
  function Get(query: seq<Pair>, key: string): (r: Option<string>)
    ensures r.Some? ==> exists i :: 0 <= i < |query| && query[i] == Pair(key, r.value) &&
                                    forall j :: 0 <= j < i ==> query[j].key != key
    ensures r.None? ==> forall p :: p in query ==> p.key != key
  {
    if query == [] then None
    else if query[0].key == key then Some(query[0].value)
    else
      var r := Get(query[1..], key);
      assert r.Some? ==> exists i :: 1 <= i < |query| && query[i] == Pair(key, r.value) &&
                                     forall j :: 0 <= j < i ==> query[j].key != key by {
        if r.Some? {
          var i :| 0 <= i < |query[1..]| && query[1..][i] == Pair(key, r.value) &&
                   forall j :: 0 <= j < i ==> query[1..][j].key != key;
          assert forall j :: 1 <= j < i + 1 ==> query[j] == query[1..][j - 1];
        }
      }
      r
  }

  /** Only the first `url` pair counts: an empty first one is a missing
      parameter whatever follows, so `?url=&url=x` is refused. */
  lemma FirstUrlDecides(x: string, rest: seq<Pair>)
    ensures Blank(Get([Pair("url", "")] + [Pair("url", x)] + rest, "url"))
  {
  }

  /** `!targetUrlStr`: the parameter is absent or empty. */
  predicate Blank(s: Option<string>) {
    s.None? || s.value == ""
  }

  /** The incoming pairs other than `url`, in order, duplicates kept. */
  function Forwarded(query: seq<Pair>): (r: seq<Pair>)
    ensures |r| <= |query|
    ensures forall p :: p in r <==> p in query && p.key != "url"
  {
    if query == [] then []
    else (if query[0].key != "url" then [query[0]] else []) + Forwarded(query[1..])
  }

  /** Forwarding keeps relative order: it distributes over concatenation. */
  lemma {:induction false} ForwardedAppend(a: seq<Pair>, b: seq<Pair>)
    ensures Forwarded(a + b) == Forwarded(a) + Forwarded(b)
  {
    if a == [] {
      assert a + b == b;
    } else {
      assert (a + b)[0] == a[0] && (a + b)[1..] == a[1..] + b;
      ForwardedAppend(a[1..], b);
    }
  }

  /** A query without `url` pairs is forwarded whole. */
  lemma {:induction false} ForwardedNoUrl(query: seq<Pair>)
    requires forall p :: p in query ==> p.key != "url"
    ensures Forwarded(query) == query
  {
    if query != [] {
      assert query[0] in query;
      ForwardedNoUrl(query[1..]);
    }
  }

  /** One more incoming pair adds itself to the forwarded ones, unless it is `url`. */
  lemma ForwardedStep(xs: seq<Pair>, i: nat)
    requires i < |xs|
    ensures Forwarded(xs[..i + 1]) == Forwarded(xs[..i]) + (if xs[i].key != "url" then [xs[i]] else [])
  {
    ForwardedAppend(xs[..i], [xs[i]]);
    assert xs[..i + 1] == xs[..i] + [xs[i]];
    assert [xs[i]][1..] == [];
  }

  /** The loop that appends every non-`url` incoming pair to the target. */
  method AppendForwarded(target: seq<Pair>, incoming: seq<Pair>) returns (q: seq<Pair>)
    ensures q == target + Forwarded(incoming)
  {
    q := target;
    for i := 0 to |incoming|
      invariant q == target + Forwarded(incoming[..i])
    {
      ForwardedStep(incoming, i);
      var before := Forwarded(incoming[..i]);
      if incoming[i].key != "url" {
        assert q + [incoming[i]] == target + (before + [incoming[i]]);
        q := q + [incoming[i]];
      } else {
        assert before + [] == before;
      }
    }
    assert incoming[..|incoming|] == incoming;
  }

  /** The request sent upstream: the incoming method, the fixed User-Agent
      and the target's origin as Referer. */
  function UpstreamFor(req: Request, target: TargetUrl): (u: UpstreamRequest)
    ensures u.verb == req.verb
    ensures u.url.origin == target.origin && u.url.path == target.path
    ensures u.url.query == target.query + Forwarded(req.query)
  {
    UpstreamRequest(
      TargetUrl(target.origin, target.path, target.query + Forwarded(req.query)),
      req.verb,
      OverlayAll([], [Header("User-Agent", UserAgent), Header("Referer", target.origin)]))
  }

  /** The upstream request carries exactly one User-Agent, the fixed
      browser string, and exactly one Referer, the target's origin. */
  lemma UpstreamHeaders(req: Request, target: TargetUrl)
    ensures ValuesOf(UpstreamFor(req, target).headers, "user-agent") == [UserAgent]
    ensures ValuesOf(UpstreamFor(req, target).headers, "referer") == [target.origin]
    ensures Without(UpstreamFor(req, target).headers, {"user-agent", "referer"}) == []
  {
    var record := [Header("User-Agent", UserAgent), Header("Referer", target.origin)];
    assert Lower(record[0].name) == "user-agent";
    assert Lower(record[1].name) == "referer";
    assert DistinctNames(record);
    OverlaySets([], record, 0);
    OverlaySets([], record, 1);
    assert NamesOf(record) <= {"user-agent", "referer"};
    OverlayKeeps([], record, {"user-agent", "referer"});
  }

  /** The answer to a request, and the upstream request sent if any. */
  method OnRequest(req: Request, parse: string -> Option<TargetUrl>, fetch: UpstreamRequest -> Upstream)
    returns (resp: Response, sent: Option<UpstreamRequest>)
    ensures req.verb == "OPTIONS" ==> resp == RecordResponse(CorsHeaders, 200, NullBody) && sent == None
    ensures req.verb != "OPTIONS" && Blank(Get(req.query, "url")) ==>
              resp == RecordResponse(CorsHeaders, 400, Text(MissingUrl)) && sent == None
    ensures req.verb != "OPTIONS" && !Blank(Get(req.query, "url")) &&
            parse(Get(req.query, "url").value).None? ==>
              resp == RecordResponse(CorsHeaders, 400, Text(InvalidUrl)) && sent == None
    ensures sent.Some? <==> req.verb != "OPTIONS" && !Blank(Get(req.query, "url")) &&
                            parse(Get(req.query, "url").value).Some?
    ensures sent.Some? ==> sent.value == UpstreamFor(req, parse(Get(req.query, "url").value).value)
    ensures sent.Some? && fetch(sent.value).Threw? ==>
              resp == RecordResponse(CorsHeaders, 502, Text("Proxy Error: " + fetch(sent.value).message))
    ensures sent.Some? && fetch(sent.value).Replied? ==>
              var up := fetch(sent.value).response;
              resp == Response(up.status, up.statusText, OverlayAll(up.headers, CorsHeaders), up.body)
    ensures sent.Some? && fetch(sent.value).Replied? ==>
              Without(resp.headers, NamesOf(CorsHeaders)) ==
              Without(fetch(sent.value).response.headers, NamesOf(CorsHeaders))
    ensures forall j :: 0 <= j < |CorsHeaders| ==>
              ValuesOf(resp.headers, Lower(CorsHeaders[j].name)) == [CorsHeaders[j].value]
  {
    CorsNamesDistinct();
    if req.verb == "OPTIONS" {
      return RecordResponse(CorsHeaders, 200, NullBody), None;
    }
    var targetStr := Get(req.query, "url");
    if Blank(targetStr) {
      return RecordResponse(CorsHeaders, 400, Text(MissingUrl)), None;
    }
    var parsed := parse(targetStr.value);
    if parsed.None? {
      return RecordResponse(CorsHeaders, 400, Text(InvalidUrl)), None;
    }
    var target := parsed.value;
    var query := AppendForwarded(target.query, req.query);
    var upstream := UpstreamRequest(TargetUrl(target.origin, target.path, query), req.verb,
                                    OverlayAll([], [Header("User-Agent", UserAgent), Header("Referer", target.origin)]));
    sent := Some(upstream);
    match fetch(upstream)
    case Threw(message) =>
      resp := RecordResponse(CorsHeaders, 502, Text("Proxy Error: " + message));
    case Replied(up) =>
      var headers := Overlay(up.headers, CorsHeaders);
      resp := Response(up.status, up.statusText, headers, up.body);
  }

  /** An upstream `Access-Control-Allow-Origin` header, in any letter case
      and however often repeated, is replaced by the single value `*`. */
  lemma PassThroughOverridesOrigin(up: Response)
    ensures ValuesOf(OverlayAll(up.headers, CorsHeaders), "access-control-allow-origin") == ["*"]
    ensures forall e :: e in OverlayAll(up.headers, CorsHeaders) && Lower(e.name) == "access-control-allow-origin"
                        ==> e.value == "*"
  {
    var h := OverlayAll(up.headers, CorsHeaders);
    CorsNamesDistinct();
    OverlaySets(up.headers, CorsHeaders, 0);
    OriginNameLower();
    forall e | e in h && Lower(e.name) == "access-control-allow-origin"
      ensures e.value == "*"
    {
      ValueOfEntry(h, e);
    }
  }

  /** The proxy's own text answers (missing URL, invalid URL, upstream
      failure) carry the CORS headers and `content-type:
      text/plain;charset=UTF-8`, and no other header. */
  lemma ErrorResponseHeaders(status: int, text: string)
    ensures var r := RecordResponse(CorsHeaders, status, Text(text));
            ValuesOf(r.headers, "content-type") == [TextPlain] &&
            (forall j :: 0 <= j < |CorsHeaders| ==>
              ValuesOf(r.headers, Lower(CorsHeaders[j].name)) == [CorsHeaders[j].value]) &&
            (forall e :: e in r.headers ==> e.name in NamesOf(CorsHeaders) || e == Header("content-type", TextPlain))
  {
    CorsNamesDistinct();
    assert "content-type" !in NamesOf(CorsHeaders) by {
      forall i | 0 <= i < |CorsHeaders|
        ensures Lower(CorsHeaders[i].name) != "content-type"
      {
        assert |Lower(CorsHeaders[i].name)| > 12;
      }
    }
  }

  lemma OriginNameLower()
    ensures Lower(CorsHeaders[0].name) == "access-control-allow-origin"
  {
  }
}
