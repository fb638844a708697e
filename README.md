# A verified model of the Tesla TV video-on-demand front end

Tesla TV is a browser front end for third-party video collection APIs
(the "采集" APIs that publish a catalogue as JSON). It is made of five
parts, and this project models the decision logic of each in Dafny:

- **The detail modal** (`detail.dfy`, module `Detail`). A video's play
  field holds several playback groups separated by `$$$`. The modal keeps
  the groups that mention an `.m3u8` or `.mp4` stream. It scores each group
  by substring tests, then picks at random among the groups that share the
  top score. The chosen group is parsed into `name$url` episodes separated
  by `#`. The modal's episode list is then replaced and one button is added
  per episode.
- **The local store** (`store.dfy`, module `Store`). A class with four
  fields:
  - a watch history keyed by video id, capped at 100 records by evicting
    the oldest;
  - a favourites list with a duplicate check;
  - a move-to-front search history capped at 20 keywords;
  - a settings object that is merged on update.
- **The API client** (`api.dfy`, module `Api`). A registry of seven
  upstream sources with `hongniu` as the default, and the client's current
  source. Every call builds one same-origin `/api/proxy` request whose query
  starts with `url=<source url>`. Each call then reshapes the JSON payload.
- **The relay** (`proxy.dfy`, module `Proxy`). `onRequest` of the proxy
  function does the following:
  - answers CORS preflights;
  - rejects a missing or unparseable `url` parameter with 400;
  - forwards every other query parameter to the target;
  - answers 502 when the upstream fetch throws;
  - otherwise passes the upstream response through with the CORS headers
    laid over it.
- **The middleware** (`middleware.dfy`, module `Middleware`). Under
  `/api/` it answers preflights and overlays four CORS headers on the next
  handler's response. It also turns an error thrown by that handler into a
  500. Every other path goes to the next handler untouched.

Shared pieces:

- `common.dfy`: `Option`, `Result`, JSON-like values, the video record and
  query pairs.
- `text.dfy`: JavaScript's `indexOf`/`includes`/`split`/`join`, `String(n)`
  and ASCII lower-casing.
- `sorting.dfy`: `Array.prototype.sort`, which has been stable since
  ECMAScript 2019, as a stable sort by a descending integer key.
- `http.dfy`: the header list of the Fetch standard's `Headers`, with its
  `set` operation and the `forEach` overlay loop.

The following are parameters of the model:

- `Math.random()` is a real `rnd` in [0, 1).
- `Date.now()` is an integer `now`.
- The browser's `fetch`, the relay's upstream `fetch`, the relay's
  `new URL(target)` and the middleware's `next()` are functions or
  outcome values passed in.

The method headers of `js/api.js` are damaged at line 55. The declaration
line of `_request(params)` is missing, so lines 57-84 are read as its body.

A malformed episode entry without `$` is not dropped: the code keeps it,
with an undefined url (js/components/detail.js:261-264), and so does the
model. `Detail.EntryWithoutUrlKept` proves that a group such as
`"ep1#E2$http://x/2.mp4"` parses to two episodes, the first without a url.
The code has no multi-strategy fetch fallback, no cross-source aggregation
and no home sections, so the model has none either.

## Model

| member | source | states |
|---|---|---|
| Text.Split | js/components/detail.js:257 | `split` with a non-empty separator yields at least one piece; joining the pieces with the separator gives back the input; no piece contains the separator, and the separator after each piece is the leftmost occurrence (for `"a$$$$b"` and `$$$` that is `["a", "$b"]`) |
| Text.SplitJoin | js/components/detail.js:257-264 | splitting undoes joining for every non-empty list of pieces that meets the two conditions `Split` guarantees, so those conditions determine the result of `split` uniquely |
| Text.SeparableByChar | js/components/detail.js:261-262 | a one-character separator (`#`, `$`) that no piece contains meets those conditions |
| Sorting.SortDesc | js/components/detail.js:324 | the sort result is a permutation of its input, ordered by descending key |
| Sorting.Tier | js/components/detail.js:328 | `filter(s => s.score === topScore)` keeps exactly the elements whose key is `k`, and all of them |
| Sorting.TierAppend | js/components/detail.js:328 | the filter keeps input order: it distributes over concatenation |
| Sorting.SortKeepsTier | js/components/detail.js:324 | stability: for every key value, the elements with that key keep their relative order after sorting |
| Sorting.SortedHeadIsMax | js/components/detail.js:327 | the first element after sorting comes from the input and carries the largest key |
| Detail.Score | js/components/detail.js:313-320 | a group's score lies in [-2, 18]; it is at least 8 when the group mentions `.m3u8` and at most 8 otherwise |
| Detail.HttpsHlsOutranks | js/components/detail.js:315-319 | an HLS group without `http:` scores strictly above any group without HLS |
| Detail.Candidates | js/components/detail.js:309 | the candidates are exactly the groups that mention `.m3u8` or `.mp4`, and there are no more of them than there are groups |
| Detail.Ranked | js/components/detail.js:313-321 | each candidate is paired with its own score, in candidate order |
| Detail.PickIndex | js/components/detail.js:330 | `Math.floor(rnd * n)` for `rnd` in [0, 1) is a valid index below `n` |
| Detail.PickIndexAt | js/components/detail.js:330 | for every index `i < n` there is a draw (`i/n`) that selects exactly `i` |
| Detail.SelectBestSource | js/components/detail.js:305-331 | the result is absent exactly when there are no groups; otherwise it is one of the groups, and it is the first group when no group mentions a stream |
| Detail.MaxScore | js/components/detail.js:327 | the top score bounds every candidate's score and is reached by some candidate |
| Detail.WithScore | js/components/detail.js:328 | the groups kept are exactly the candidates with the given score |
| Detail.TopTier | js/components/detail.js:327-328 | the top tier is non-empty whenever some group is playable, and it holds only playable groups |
| Detail.HeadScoreIsMax | js/components/detail.js:324-327 | after sorting by descending score, the head's score is the maximal candidate score |
| Detail.SortedTierIsTopTier | js/components/detail.js:324-328 | filtering the sorted ranking by the head's score gives exactly the reference top tier, in play-list order |
| Detail.TierOfRanked | js/components/detail.js:324-328 | filtering the sorted scored list by a score gives exactly the candidates with that score, in their original order |
| Detail.SelectMatchesTopTier | js/components/detail.js:324-330 | the selection equals the top-tier element at index `floor(rnd * n)` for a tier of `n` groups, where the tier is defined independently of the sort |
| Detail.SelectIsBest | js/components/detail.js:324-330 | when some group is playable, the chosen group is playable and scores at least as high as every playable group |
| Detail.SelectDeterministic | js/components/detail.js:328-330 | when at most one group has the top score, the random draw does not affect the result |
| Detail.SelectReachesEveryTopGroup | js/components/detail.js:330 | every group of the top tier is chosen by some draw |
| Detail.SelectPrefersHttpsHls | js/components/detail.js:313-330 | a single HLS group served without `http:`, among groups without HLS, is always chosen |
| Detail.ParseEntry | js/components/detail.js:262-263 | the name is the text before the first `$`; the url is absent exactly when there is no `$`; otherwise the url is the text between the first and second `$` |
| Detail.FormatParseEntry | js/components/detail.js:262-263 | an entry with at most one `$` is reproduced by writing its parsed episode back as `name$url` |
| Detail.ParseFormatEntry | js/components/detail.js:262-263 | an episode whose name and url have no `$` parses back from `name$url` unchanged |
| Detail.ParseEpisodes | js/components/detail.js:261-264 | parsing a group yields at least one episode |
| Detail.EpisodeCount | js/components/detail.js:261 | there is one episode per `#`-separated segment: the number of `#` plus one |
| Detail.EpisodesRoundTrip | js/components/detail.js:261-264 | when every entry has at most one `$`, writing the parsed episodes back with `$` and `#` reproduces the group |
| Detail.EpisodesRoundTripBack | js/components/detail.js:261-264 | a non-empty list of episodes without `#` or `$` in their names and urls survive being written out and parsed again |
| Detail.TwoEpisodes | js/components/detail.js:261-264 | `n1$u1#n2$u2` parses to the two episodes in order |
| Detail.EntryWithoutUrlKept | js/components/detail.js:261-264 | `n1#n2$u2` parses to an episode `n1` with an undefined url followed by `n2` with url `u2`: an entry without `$` is kept, not dropped |
| Detail.EpisodesFor | js/components/detail.js:257-264 | a non-empty play field yields at least one episode. When some `$$$` group is playable, the episodes are the parse of a top-tier group; otherwise they are the parse of the first group |
| Detail.SeparableGroups | js/components/detail.js:257 | a non-empty list of groups joined with `$$$` is split back into the same groups when none contains `$$$` and none but the last ends in `$` |
| Detail.DollarEndedGroupShifts | js/components/detail.js:257 | a group ending in `$` is not split back: `p$` + `$$$` + `t` splits into `p` and `$t` |
| Detail.PlayFieldPrefersHttpsHls | js/components/detail.js:257-264 | in a play field of `$$$`-joined groups, the single HLS group served without `http:` among groups without HLS is the one whose episodes are shown, whatever the draw |
| Detail.TwoGroupPlayField | js/components/detail.js:257-264 | for an MP4 group over HTTP followed by an HTTPS HLS group `n1$u1#n2$u2`, the two episodes of the HLS group are shown, in order |
| Detail.Names | js/components/detail.js:271 | the button labels are the episode names, one per episode, in order |
| Detail.DetailModal.RenderEpisodes | js/components/detail.js:246-275 | the button list is always cleared; an absent or empty play field leaves `episodes` unchanged; otherwise `episodes` becomes the parsed episodes of the selected group and there is one button per episode, labelled with its name, in order |
| Detail.DetailModal.AddButtons | js/components/detail.js:268-274 | the `forEach` appends one button per episode, labelled with its name, in order, after the existing buttons, and leaves `episodes` alone |
| Store.Store.constructor | js/store.js:14-25 | an empty history, favourites list and search history, and the default settings (`hongniu`, no intro skip, no outro skip, no ad blocking, speed 1.0) |
| Store.KeysOf | js/store.js:61 | `Object.keys` lists every key of the history once |
| Store.OldestFirst | js/store.js:65-67 | sorting the keys by ascending `updatedAt` puts a record of minimal `updatedAt` first |
| Store.EvictOldest | js/store.js:61-69 | up to 100 records nothing is removed; above that exactly one record of minimal `updatedAt` is removed and the others are untouched |
| Store.Store.SaveHistory | js/store.js:54-71 | an empty id changes nothing; otherwise the record becomes the data stamped with `now`, followed by the eviction. At most 100 records before means at most 100 after. The saved record survives whenever the id was already present or there was room |
| Store.Store.GetHistory | js/store.js:77-79 | the stored record for the id, or none when the id has no record |
| Store.ValuesRemove | js/store.js:85 | the multiset of history values does not depend on the order in which keys are enumerated |
| Store.Store.GetAllHistory | js/store.js:84-86 | the result is a permutation of the history's records, newest first |
| Store.HasId | js/store.js:112 | `some(item => item.id == id)` holds exactly when some favourite carries the id |
| Store.Store.IsFavorite | js/store.js:111-113 | holds exactly when some favourite carries the id |
| Store.Store.AddFavorite | js/store.js:92-104 | a present id changes nothing; otherwise the new favourite `{id, name, pic, type, addedAt}` goes in front of the old list, whose order is kept. Afterwards the id is a favourite, and ids that were unique stay unique |
| Store.WithoutId | js/store.js:107 | the filtered list keeps exactly the favourites with other ids |
| Store.WithoutIdAppend | js/store.js:107 | the filter keeps relative order: it distributes over concatenation |
| Store.WithoutAbsentId | js/store.js:107 | removing an id that no favourite has changes nothing |
| Store.WithoutIdUnique | js/store.js:107 | filtering keeps favourite ids unique |
| Store.Store.RemoveFavorite | js/store.js:106-109 | the list becomes the order-preserving filter, after which the id is no longer a favourite; the list is unchanged when the id was absent, and ids that were unique stay unique |
| Store.WithoutKeyword | js/store.js:125 | the filtered list keeps exactly the other keywords |
| Store.WithoutKeywordUnique | js/store.js:125 | filtering keeps a list free of repeated keywords |
| Store.WithoutKeywordAppend | js/store.js:125 | the filter keeps relative order: it distributes over concatenation |
| Store.PushKeyword | js/store.js:123-131 | the keyword is at index 0 and nowhere else; a list of at most 20 stays at most 20; every entry is the keyword or an old one; the rest is a prefix of the other keywords in their old order; the length grows by one unless the others already number 20 or more, when exactly one is dropped |
| Store.PushKeywordKeepsOthers | js/store.js:125-131 | with fewer than 20 other keywords the result is the keyword followed by all of them; with 20 or more, it is the keyword followed by all but the last (oldest) of them |
| Store.PushKeywordUnique | js/store.js:123-131 | a search history without repeats stays without repeats |
| Store.Store.AddSearchHistory | js/store.js:122-133 | an empty keyword changes nothing; otherwise the history becomes the move-to-front list with the overflow dropped |
| Store.MergeSettings | js/store.js:144 | right-biased merge: the keys are the union, new keys win, and the other keys keep their old values |
| Store.MergeIdempotent | js/store.js:144 | applying the same update twice is the same as applying it once |
| Store.Store.UpdateSettings | js/store.js:143-146 | the settings become the right-biased merge of the old settings and the update, and nothing else changes |
| Api.Resolve | js/api.js:46 | a registered key selects its own entry; any other key selects a registered entry |
| Api.ResolveUnknown | js/api.js:46 | an unknown key selects `hongniu` and its URL |
| Api.GetSources | js/api.js:171-173 | the registry holds exactly the seven sources, each of JSON type |
| Api.VodClient.constructor | js/api.js:45-48 | the source is the entry of the given key, or of `hongniu` when the key is absent or unknown |
| Api.VodClient.SetSource | js/api.js:161-166 | a registered key switches the source to its entry; any other key leaves the source unchanged |
| Api.ProxyQuery | js/api.js:57-61 | the query is `url=<source url>` followed by the call's parameters in order |
| Api.Outcome | js/api.js:63-84 | a reply resolves only when its status is 2xx and its body is JSON; a non-2xx status fails with that status |
| Api.VodClient.Request | js/api.js:57-84 | one request to `/api/proxy` is sent, with `url` first and then the parameters; the result is that request's outcome |
| Api.ListOrEmpty | js/api.js:98 | `data.list`, or the empty list when it is absent |
| Api.ClassesOrEmpty | js/api.js:156 | `data.class`, or the empty list when it is absent |
| Api.FirstOrNull | js/api.js:123 | a video exactly when the list is present and non-empty, and then it is the first one |
| Api.ToCategoryPage | js/api.js:138-143 | the list defaults to empty; total, page and page count are copied from the payload |
| Api.MapResult | js/api.js:93-98 | a call fails exactly when its request fails, with the same error; on success it returns the reshaped payload |
| Api.CategoryParams | js/api.js:131-137 | the parameters are `ac=detail`, `t=<type>`, `pg=<page>` (1 when no page is given) and `pagesize=20`, in that order |
| Api.VodClient.GetHomeData | js/api.js:91-99 | sends `ac=detail, pg=1, pagesize=24` and returns the list, or empty |
| Api.VodClient.Search | js/api.js:105-112 | an empty keyword returns the empty list without sending anything; otherwise it sends `ac=detail, wd=<keyword>` and returns the list, or empty |
| Api.VodClient.GetDetail | js/api.js:118-124 | sends `ac=detail, ids=<id>` and returns the first video, or null |
| Api.VodClient.GetCategory | js/api.js:131-144 | sends the category parameters and returns the reshaped page |
| Api.VodClient.GetTypes | js/api.js:150-157 | sends `ac=list, pagesize=1` and returns the category list, or empty |
| Api.MissingListIsEmpty | js/api.js:98-156 | a successful reply without `list`/`class` gives empty lists and a null detail, not an error |
| Api.HttpErrorPropagates | js/api.js:74-76 | a non-2xx reply fails every call with its status |
| Http.SetHeader | functions/api/proxy.js:62 | after `set`, the (lowercased) name has exactly the one new value, and every entry of another name is unchanged and in order |
| Http.SetHeaderKeeps | functions/_middleware.js:28-30 | `set` of one name leaves the values of every other name alone |
| Http.SetHeaderWithout | functions/_middleware.js:28-30 | `set` of a name in a set of names leaves the entries outside that set alone |
| Http.OverlayKeeps | functions/_middleware.js:27-30 | the overlay keeps every base entry whose name is not among the record's names, in order |
| Http.OverlaySets | functions/_middleware.js:27-30 | after the overlay each record name carries exactly the record's value, whatever the base held under it |
| Http.Overlay | functions/_middleware.js:27-30 | the `forEach` of `set` calls ends with every record name carrying its record value and every other base entry kept in order |
| Http.RecordResponse | functions/api/proxy.js:22-25 | a response built from a header record has the given status, an empty status text and the given body; with distinct record names each name carries exactly its record value; a text body given a record without `Content-Type` gets exactly one `content-type: text/plain;charset=UTF-8` (the Response constructor of the Fetch standard); no header other than the record's names and that one is present |
| Http.WithBodyType | functions/api/proxy.js:22-25 | the body-type step of the Response constructor: a text body and a list without `content-type` add exactly `text/plain;charset=UTF-8` under that name; the values of every name already present are unchanged, lowercased lists stay lowercased, and no other entry appears |
| Http.RecordHeaders | functions/api/proxy.js:22-25 | the headers a record gives a new response are lowercased, are all named by the record, hold no `content-type` unless the record names it, and with distinct names carry each record value once |
| Http.WithoutEmpty | functions/_middleware.js:27-30 | removing a set of names leaves nothing exactly when every entry's name is in the set |
| Http.ValuesOutside | functions/_middleware.js:27-30 | a name that no entry carries has no values |
| Http.ValuesOfAppend | functions/_middleware.js:27-30 | appending an entry adds its value to the values of its own name and to no other |
| Proxy.CorsNamesDistinct | functions/api/proxy.js:5-9 | the three CORS header names differ even when case is ignored |
| Proxy.Get | functions/api/proxy.js:19 | `searchParams.get` returns the value of the first pair with that key, or nothing when no pair has it |
| Proxy.FirstUrlDecides | functions/api/proxy.js:19-21 | only the first `url` pair counts: `?url=&url=x` is a missing parameter |
| Proxy.Forwarded | functions/api/proxy.js:39-43 | the forwarded pairs are exactly the incoming pairs whose key is not `url` |
| Proxy.ForwardedAppend | functions/api/proxy.js:39-43 | forwarding keeps the incoming order and duplicates: it distributes over concatenation |
| Proxy.ForwardedNoUrl | functions/api/proxy.js:39-43 | a query without `url` pairs is forwarded whole |
| Proxy.AppendForwarded | functions/api/proxy.js:39-43 | the loop leaves the target's own pairs followed by the forwarded pairs |
| Proxy.UpstreamFor | functions/api/proxy.js:47-53 | the upstream request keeps the incoming method and the target's origin and path, and its query is the target's pairs followed by the forwarded ones |
| Proxy.UpstreamHeaders | functions/api/proxy.js:47-53 | the upstream request has exactly one User-Agent, the fixed browser string, exactly one Referer, the target's origin, and no other header |
| Proxy.OnRequest | functions/api/proxy.js:1-76 | OPTIONS gives 200 with a null body and no fetch. A missing or empty `url` gives 400 `Missing "url" parameter`, and an unparseable one 400 `Invalid "url" parameter`. A fetch happens exactly when neither applies. A thrown fetch gives 502 `Proxy Error: <message>`. Each of these answers is built from the CORS record, so its text body also brings `content-type: text/plain;charset=UTF-8`. Otherwise status, status text and body pass through with the CORS headers overlaid, and every upstream header outside the CORS names is kept, in order. Every response carries each CORS header exactly once |
| Proxy.PassThroughOverridesOrigin | functions/api/proxy.js:59-62 | any upstream `Access-Control-Allow-Origin`, however repeated, becomes the single value `*`: the overlaid list has exactly that one value under the name, and every entry whose name lowercases to it holds `*` |
| Proxy.ErrorResponseHeaders | functions/api/proxy.js:22-35 | each text answer of the proxy (missing URL, invalid URL, upstream failure) carries each CORS header once and `content-type: text/plain;charset=UTF-8`, and no other header |
| Middleware.CorsNamesDistinct | functions/_middleware.js:8-13 | the four CORS header names differ even when case is ignored |
| Middleware.OnRequest | functions/_middleware.js:1-48 | outside `/api/` the next handler's response or error is the outcome. Under `/api/`, OPTIONS answers 200 with the CORS headers without calling `next()`. Other methods keep the next response's status, status text and body, with the CORS headers overlaid and every other header kept in order; an error from `next()` becomes 500 `Middleware Error: <message>`, built from the CORS record with `content-type: text/plain;charset=UTF-8`. Every `/api/` response carries each CORS header exactly once |
| Middleware.ErrorResponseHeaders | functions/_middleware.js:38-42 | the 500 answer to a failing `next()` carries each CORS header once and `content-type: text/plain;charset=UTF-8`, and no other header |
| Middleware.PrefixExamples | functions/_middleware.js:6 | `/api` and `/apis/x` are not API paths; `/api/` and `/api/proxy` are |

## Left out

- The DOM and UI of the detail modal: building the modal, its CSS, event
  binding, `show`/`hide`/`render`, `play`, `toggleFav`, `updateFavBtn` and
  the buttons' click handlers. The episode list element is modelled only
  as the sequence of button labels.
- `localStorage` persistence (`_load`, `_save`) and JSON serialisation in
  the store. The constructor models a store over empty storage.
- `getFavorites`, `getSearchHistory` and `getSettings`: each returns its
  field, which the model exposes directly.
- `fetch`, `AbortController`, the 10-second timeout and console logging in
  the API client. A reply is a value: a network error (including the
  abort) or a status with a body that is JSON or not.
- `window.location.origin` and URL serialisation with percent-encoding. The
  proxy request is its path plus its ordered query pairs.
- Api.ToCategoryPage: keeps `page` as the payload's value instead of
  applying `parseInt`. Number parsing and NaN are not modelled.
- Api.Resolve: treats only the seven registered keys as known. A key
  inherited from `Object.prototype` (such as `toString`) would pass the
  source's truthiness test; the model does not capture that.
- Api.VodClient.SetSource: the same truthiness test on the registry
  (js/api.js:162); an inherited key is treated as unknown.
- Store.HasId: compares ids as strings with `==`. JavaScript's loose
  equality between a numeric id and a string id is not modelled (the same
  holds for the `!=` in `WithoutId`).
- Store.KeysOf: leaves the order of `Object.keys` open, so eviction among
  records with equal `updatedAt` may remove any of them. The integer-key
  ordering rule of JavaScript objects is not modelled.
- Detail.SelectBestSource: takes a sequence, so the `!sources` test for a
  null argument is covered only by the empty case. The only caller passes
  the result of `split`, which is never null.
- `new URL(request.url)` in the relay and the middleware: the incoming URL
  is taken as already parsed into its query pairs or its path. The target
  URL's parse is the parameter `parse`.
- Header lists hold names lowercased, which is how `Headers` compares
  them: the `HeaderList` type of a response's headers admits only
  lowercased names, so a mixed-case upstream header is already stored
  under its lowercased name. Combining repeated values and sorted iteration in `Headers` are not
  modelled; the body is passed along as a value, not a stream.
- Store.Store.SaveHistory: the history is a map from ids to records. In
  the source it is a plain object, so an id such as `__proto__` would
  replace the object's prototype instead of adding a record; the model
  stores it like any other id.
- Store.Store.GetHistory: an id such as `toString` names a property
  inherited from `Object.prototype` in the source, which would return a
  function instead of nothing; the model returns nothing for any id
  without a record.
- Proxy.OnRequest: the relay's error message `err.message` is the
  `message` of the thrown outcome. Exceptions other than those of `fetch`
  are not modelled.
