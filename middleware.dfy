/** The middleware of functions/_middleware.js, `onRequest` as a decision
    over the request path and method. Under `/api/` it answers CORS
    preflights itself, lays four CORS headers over the next handler's
    response, and turns an error thrown by that handler into a 500; every
    other path is handed to the next handler as it is. The next handler is
    the parameter `next`, the outcome calling it would have. */
module Middleware {
  import opened Common
  import opened Text
  import opened Http

  const ApiPrefix: string := "/api/"

  const CorsHeaders: seq<Header> := [
    Header("Access-Control-Allow-Origin", "*"),
    Header("Access-Control-Allow-Methods", "GET, HEAD, POST, OPTIONS"),
    Header("Access-Control-Allow-Headers", "Content-Type, Authorization, X-Requested-With"),
    Header("Access-Control-Max-Age", "86400")
  ]

  /** The four CORS names differ even when lowercased. */
  lemma CorsNamesDistinct()
    ensures DistinctNames(CorsHeaders)
  {
    assert Lower(CorsHeaders[1].name)[21] == 'm';
    assert Lower(CorsHeaders[2].name)[21] == 'h';
  }

  /** What calling `next()` does: resolve with a response or throw. */
  datatype NextOutcome = Returned(response: Response) | Threw(message: string)

  /** What `onRequest` does: resolve with a response, or reject with the
      error of `next()` (only on the paths outside `/api/`). */
  datatype Outcome = Respond(response: Response) | Reject(message: string)

  /** `url.pathname.startsWith('/api/')`. */
  predicate IsApiPath(path: string) {
    ApiPrefix <= path
  }

  /** The outcome of a request with method `verb` and path `path`, and
      whether `next()` was called. */
  method OnRequest(verb: string, path: string, next: NextOutcome) returns (out: Outcome, calledNext: bool)
    ensures !IsApiPath(path) ==> calledNext
    ensures !IsApiPath(path) && next.Returned? ==> out == Respond(next.response)
    ensures !IsApiPath(path) && next.Threw? ==> out == Reject(next.message)
    ensures IsApiPath(path) && verb == "OPTIONS" ==> out == Respond(RecordResponse(CorsHeaders, 200, NullBody)) && !calledNext
    ensures IsApiPath(path) && verb != "OPTIONS" ==> calledNext
    ensures IsApiPath(path) && verb != "OPTIONS" && next.Returned? ==>
              var r := next.response;
              out == Respond(Response(r.status, r.statusText, OverlayAll(r.headers, CorsHeaders), r.body))
    ensures IsApiPath(path) && verb != "OPTIONS" && next.Returned? ==>
              Without(out.response.headers, NamesOf(CorsHeaders)) ==
              Without(next.response.headers, NamesOf(CorsHeaders))
    ensures IsApiPath(path) && verb != "OPTIONS" && next.Threw? ==>
              out == Respond(RecordResponse(CorsHeaders, 500, Text("Middleware Error: " + next.message)))
    ensures IsApiPath(path) ==> out.Respond?
    ensures IsApiPath(path) ==>
              (forall j :: 0 <= j < |CorsHeaders| ==>
                ValuesOf(out.response.headers, Lower(CorsHeaders[j].name)) == [CorsHeaders[j].value])
  {
    if IsApiPath(path) {
      CorsNamesDistinct();
      if verb == "OPTIONS" {
        return Respond(RecordResponse(CorsHeaders, 200, NullBody)), false;
      }
      calledNext := true;
      match next {
        case Returned(r) =>
          var headers := Overlay(r.headers, CorsHeaders);
          out := Respond(Response(r.status, r.statusText, headers, r.body));
        case Threw(message) =>
          out := Respond(RecordResponse(CorsHeaders, 500, Text("Middleware Error: " + message)));
      }
    } else {
      calledNext := true;
      out := match next
        case Returned(r) => Respond(r)
        case Threw(message) => Reject(message);
    }
  }

  /** The 500 answer to a failing `next()` carries the CORS headers and
      `content-type: text/plain;charset=UTF-8`, and no other header. */
  lemma ErrorResponseHeaders(message: string)
    ensures var r := RecordResponse(CorsHeaders, 500, Text("Middleware Error: " + message));
            ValuesOf(r.headers, "content-type") == [TextPlain] &&
            (forall j :: 0 <= j < |CorsHeaders| ==>
              ValuesOf(r.headers, Lower(CorsHeaders[j].name)) == [CorsHeaders[j].value]) &&
            (forall e :: e in r.headers ==> e.name in NamesOf(CorsHeaders) || e == Header("content-type", TextPlain))
  {
    CorsNamesDistinct();
    assert "content-type" !in NamesOf(CorsHeaders) by {
      forall i | 0 <= i < |CorsHeaders|
        ensures Lower(CorsHeaders[i].name) != "content-type"
      {
        assert |Lower(CorsHeaders[i].name)| > 12;
      }
    }
  }

  /** The prefix test needs the trailing slash: `/api` itself and `/apis`
      are not API paths, `/api/` and everything under it are. */
  lemma PrefixExamples()
    ensures !IsApiPath("/api") && !IsApiPath("/apis/x")
    ensures IsApiPath("/api/") && IsApiPath("/api/proxy")
  {
    assert "/apis/x"[4] == 's';
    assert "/api/proxy"[..5] == ApiPrefix;
  }
}
