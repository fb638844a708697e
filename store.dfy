/** The local store of js/store.js: watch history keyed by video id and
    capped at 100 records, a favourites list, a move-to-front search history
    capped at 20 keywords, and the settings object. Persistence to
    `localStorage` is not part of the model; `Date.now()` is the parameter
    `now`. */
module Store {
  import opened Common
  import opened Sorting

  const HistoryLimit: nat := 100
  const SearchHistoryLimit: nat := 20

  // ---------------------------------------------------------------------
  // History records
  // ---------------------------------------------------------------------

  /** `{...data, updatedAt}`: the caller's fields, whose own `updatedAt`
      (if any) is shadowed, and the time of the save. */
  datatype Entry = Entry(data: map<string, Value>, updatedAt: int)

  function Stamp(e: Entry): int { e.updatedAt }

  /** Ordering key for eviction: older records rank first. */
  function Age(h: map<string, Entry>): string -> int {
    k => if k in h then -h[k].updatedAt else 0
  }

  /** `k` is a record of minimal `updatedAt` in `h`. */
  ghost predicate IsOldest(h: map<string, Entry>, k: string) {
    k in h && forall j :: j in h ==> h[k].updatedAt <= h[j].updatedAt
  }

  lemma MapRemoveCard<K, V>(m: map<K, V>, k: K)
    requires k in m
    ensures |m - {k}| == |m| - 1
  {
    assert (m - {k}).Keys == m.Keys - {k};
  }

  /** Some key of a non-empty map. */
  ghost function AnyKey(h: map<string, Entry>): (k: string)
    requires h != map[]
    ensures k in h
  {
    assert h.Keys != {};
    var k :| k in h; k
  }

  /** `Object.values(h)` as a multiset. */
  ghost function Values(h: map<string, Entry>): multiset<Entry>
    decreases |h|
  {
    if h == map[] then multiset{}
    else
      var k := AnyKey(h);
      MapRemoveCard(h, k);
      Values(h - {k}) + multiset{h[k]}
  }

  /** The multiset of values does not depend on which key is taken first. */
  lemma {:induction false} ValuesRemove(h: map<string, Entry>, k: string)
    requires k in h
    ensures Values(h) == Values(h - {k}) + multiset{h[k]}
    decreases |h|
  {
    var j := AnyKey(h);
    assert Values(h) == Values(h - {j}) + multiset{h[j]};
    if j != k {
      var rest := h - {j} - {k};
      assert rest == h - {k} - {j};
      MapRemoveCard(h, j);
      MapRemoveCard(h, k);
      ValuesRemove(h - {j}, k);
      ValuesRemove(h - {k}, j);
      assert Values(h - {j}) == Values(rest) + multiset{h[k]};
      assert Values(h - {k}) == Values(rest) + multiset{h[j]};
    }
  }

  /** The outcome of the size cap on the history map `h`: unchanged up to
      the limit, otherwise short of exactly one record of minimal age. */
  ghost predicate Evicted(h: map<string, Entry>, after: map<string, Entry>) {
    if |h| <= HistoryLimit then after == h
    else exists victim :: IsOldest(h, victim) && after == h - {victim}
  }

  lemma AddCard(h: map<string, Entry>, k: string, e: Entry)
    ensures |h[k := e]| == if k in h then |h| else |h| + 1
  {
    if k in h {
      assert h[k := e].Keys == h.Keys;
    } else {
      assert h[k := e].Keys == h.Keys + {k};
    }
  }

  /** Sorting the keys oldest-first puts a record of minimal age at the head. */
  lemma OldestFirst(h: map<string, Entry>, keys: seq<string>)
    requires |keys| > 0
    requires forall k :: k in keys <==> k in h
    ensures |SortDesc(keys, Age(h))| == |keys|
    ensures IsOldest(h, SortDesc(keys, Age(h))[0])
  {
    SortedHeadIsMax(keys, Age(h));
    var victim := SortDesc(keys, Age(h))[0];
    forall j | j in h
      ensures h[victim].updatedAt <= h[j].updatedAt
    {
      assert Age(h)(j) <= Age(h)(victim);
    }
  }

  /** The size cap of `saveHistory`: when `h` holds more than 100 records,
      the keys are sorted by ascending `updatedAt` and the first one is
      deleted. */
  method EvictOldest(h: map<string, Entry>) returns (after: map<string, Entry>)
    ensures Evicted(h, after)
    ensures |h| <= HistoryLimit ==> after == h
    ensures |h| > HistoryLimit ==> |after| == |h| - 1
    ensures after.Keys <= h.Keys
    ensures forall k :: k in after ==> after[k] == h[k]
  {
    var keys := KeysOf(h);
    if |keys| > HistoryLimit {
      var sortedKeys := SortDesc(keys, Age(h));
      OldestFirst(h, keys);
      var victim := sortedKeys[0];
      MapRemoveCard(h, victim);
      after := h - {victim};
    } else {
      after := h;
    }
  }

  /** `Object.keys(h)`: every key once, in an order the model leaves open. */
  method KeysOf(h: map<string, Entry>) returns (keys: seq<string>)
    ensures |keys| == |h|
    ensures forall k :: k in keys <==> k in h
  {
    keys := [];
    var rest := h.Keys;
    while rest != {}
      invariant rest <= h.Keys
      invariant forall k :: k in keys <==> k in h.Keys - rest
      invariant |keys| + |rest| == |h.Keys|
      decreases |rest|
    {
      var k :| k in rest;
      keys := keys + [k];
      rest := rest - {k};
    }
  }

  // ---------------------------------------------------------------------
  // Favourites
  // ---------------------------------------------------------------------

  datatype Favorite = Favorite(id: string, name: string, pic: string, typeName: string, addedAt: int)

  /** `favorites.some(item => item.id == id)`. */
  function HasId(favs: seq<Favorite>, id: string): (b: bool)
    ensures b <==> exists i :: 0 <= i < |favs| && favs[i].id == id
  {
    if favs == [] then false
    else favs[0].id == id || HasId(favs[1..], id)
  }

  /** `favorites.filter(item => item.id != id)`. */
  function WithoutId(favs: seq<Favorite>, id: string): (r: seq<Favorite>)
    ensures |r| <= |favs|
    ensures forall x :: x in r <==> x in favs && x.id != id
  {
    if favs == [] then []
    else (if favs[0].id != id then [favs[0]] else []) + WithoutId(favs[1..], id)
  }

  /** Filtering keeps relative order: it distributes over concatenation. */
  lemma {:induction false} WithoutIdAppend(a: seq<Favorite>, b: seq<Favorite>, id: string)
    ensures WithoutId(a + b, id) == WithoutId(a, id) + WithoutId(b, id)
  {
    if a == [] {
      assert a + b == b;
    } else {
      assert (a + b)[0] == a[0] && (a + b)[1..] == a[1..] + b;
      WithoutIdAppend(a[1..], b, id);
    }
  }

  /** Filtering out an id that no favourite carries changes nothing. */
  lemma {:induction false} WithoutAbsentId(favs: seq<Favorite>, id: string)
    requires !HasId(favs, id)
    ensures WithoutId(favs, id) == favs
  {
    if favs != [] {
      assert !HasId(favs[1..], id);
      WithoutAbsentId(favs[1..], id);
    }
  }

  ghost predicate UniqueIds(favs: seq<Favorite>) {
    forall i, j :: 0 <= i < j < |favs| ==> favs[i].id != favs[j].id
  }

  /** Filtering keeps favourite ids unique. */
  lemma {:induction false} WithoutIdUnique(favs: seq<Favorite>, id: string)
    requires UniqueIds(favs)
    ensures UniqueIds(WithoutId(favs, id))
  {
    if favs != [] {
      assert UniqueIds(favs[1..]) by {
        forall i, j | 0 <= i < j < |favs[1..]|
          ensures favs[1..][i].id != favs[1..][j].id
        {
          assert favs[1..][i] == favs[i + 1] && favs[1..][j] == favs[j + 1];
        }
      }
      WithoutIdUnique(favs[1..], id);
      var t := WithoutId(favs[1..], id);
      if favs[0].id != id {
        var r := [favs[0]] + t;
        assert WithoutId(favs, id) == r;
        forall i, j | 0 <= i < j < |r|
          ensures r[i].id != r[j].id
        {
          assert r[j] == t[j - 1] && r[j] in favs[1..];
          if i == 0 {
            var m :| 0 <= m < |favs[1..]| && favs[1..][m] == r[j];
            assert favs[m + 1] == r[j];
          } else {
            assert r[i] == t[i - 1];
          }
        }
      } else {
        assert WithoutId(favs, id) == t;
      }
    }
  }

  // ---------------------------------------------------------------------
  // Search history
  // ---------------------------------------------------------------------

  /** `searchHistory.filter(k => k !== keyword)`. */
  function WithoutKeyword(s: seq<string>, keyword: string): (r: seq<string>)
    ensures |r| <= |s|
    ensures forall x :: x in r <==> x in s && x != keyword
  {
    if s == [] then []
    else (if s[0] != keyword then [s[0]] else []) + WithoutKeyword(s[1..], keyword)
  }

  /** Filtering keeps order: it distributes over concatenation. */
  lemma {:induction false} WithoutKeywordAppend(a: seq<string>, b: seq<string>, keyword: string)
    ensures WithoutKeyword(a + b, keyword) == WithoutKeyword(a, keyword) + WithoutKeyword(b, keyword)
  {
    if a == [] {
      assert a + b == b;
    } else {
      assert (a + b)[0] == a[0] && (a + b)[1..] == a[1..] + b;
      WithoutKeywordAppend(a[1..], b, keyword);
    }
  }

  ghost predicate Distinct(s: seq<string>) {
    forall i, j :: 0 <= i < j < |s| ==> s[i] != s[j]
  }

  /** Filtering keeps a list free of repeats. */
  lemma {:induction false} WithoutKeywordUnique(s: seq<string>, keyword: string)
    requires Distinct(s)
    ensures Distinct(WithoutKeyword(s, keyword))
  {
    if s != [] {
      assert Distinct(s[1..]) by {
        forall i, j | 0 <= i < j < |s[1..]|
          ensures s[1..][i] != s[1..][j]
        {
          assert s[1..][i] == s[i + 1] && s[1..][j] == s[j + 1];
        }
      }
      WithoutKeywordUnique(s[1..], keyword);
      var t := WithoutKeyword(s[1..], keyword);
      if s[0] != keyword {
        var r := [s[0]] + t;
        assert WithoutKeyword(s, keyword) == r;
        forall i, j | 0 <= i < j < |r|
          ensures r[i] != r[j]
        {
          assert r[j] == t[j - 1] && r[j] in s[1..];
          if i == 0 {
            var m :| 0 <= m < |s[1..]| && s[1..][m] == r[j];
            assert s[m + 1] == r[j];
          } else {
            assert r[i] == t[i - 1];
          }
        }
      } else {
        assert WithoutKeyword(s, keyword) == t;
      }
    }
  }

  /** The list after `addSearchHistory(keyword)` for a non-empty keyword:
      the keyword moved to the front, then the oldest entry dropped if the
      list grew beyond the limit. */
  function PushKeyword(s: seq<string>, keyword: string): (r: seq<string>)
    ensures |r| >= 1 && r[0] == keyword && keyword !in r[1..]
    ensures |s| <= SearchHistoryLimit ==> |r| <= SearchHistoryLimit
    ensures forall x :: x in r ==> x == keyword || x in s
    ensures r[1..] <= WithoutKeyword(s, keyword)
    ensures |r| == if |WithoutKeyword(s, keyword)| < SearchHistoryLimit
                   then |WithoutKeyword(s, keyword)| + 1
                   else |WithoutKeyword(s, keyword)|
  {
    var w := WithoutKeyword(s, keyword);
    var l := [keyword] + w;
    assert l[1..] == w;
    if |l| > SearchHistoryLimit then
      var r := l[..|l| - 1];
      assert r[1..] == w[..|w| - 1];
      assert forall x :: x in r[1..] ==> x in w;
      r
    else l
  }

  /** Moving to the front keeps every other keyword in its old order, and
      drops exactly one, the oldest, when the others already fill the list. */
  lemma PushKeywordKeepsOthers(s: seq<string>, keyword: string)
    ensures var others := WithoutKeyword(s, keyword);
            var r := PushKeyword(s, keyword);
            |others| < SearchHistoryLimit ==> r == [keyword] + others
    ensures var others := WithoutKeyword(s, keyword);
            var r := PushKeyword(s, keyword);
            |others| >= SearchHistoryLimit ==> r == [keyword] + others[..|others| - 1]
  {
    var others := WithoutKeyword(s, keyword);
    var r := PushKeyword(s, keyword);
    assert r == [keyword] + r[1..];
    if |others| >= SearchHistoryLimit {
      assert r[1..] == others[..|others| - 1];
    }
  }

  /** A history without repeated keywords stays without them. */
  lemma PushKeywordUnique(s: seq<string>, keyword: string)
    requires Distinct(s)
    ensures Distinct(PushKeyword(s, keyword))
  {
    WithoutKeywordUnique(s, keyword);
    var w := WithoutKeyword(s, keyword);
    var r := PushKeyword(s, keyword);
    forall i, j | 0 <= i < j < |r|
      ensures r[i] != r[j]
    {
      assert r[j] == r[1..][j - 1] == w[j - 1];
      if i == 0 {
        assert r[j] in r[1..];
      } else {
        assert r[i] == r[1..][i - 1] == w[i - 1];
      }
    }
  }

  // ---------------------------------------------------------------------
  // Settings
  // ---------------------------------------------------------------------

  const DefaultSettings: map<string, Value> := map[
    "source" := Str("hongniu"),
    "skipIntro" := Bool(false),
    "autoSkipOutro" := Bool(false),
    "adBlock" := Bool(false),
    "speed" := Num(1.0)
  ]

  /** `{...old, ...updates}`: keys of `updates` win. */
  function MergeSettings(current: map<string, Value>, updates: map<string, Value>): (r: map<string, Value>)
    ensures r.Keys == current.Keys + updates.Keys
    ensures forall k :: k in updates ==> r[k] == updates[k]
    ensures forall k :: k in current && k !in updates ==> r[k] == current[k]
  {
    current + updates
  }

  /** Merging is idempotent: applying the same update twice is applying it once. */
  lemma MergeIdempotent(s: map<string, Value>, updates: map<string, Value>)
    ensures MergeSettings(MergeSettings(s, updates), updates) == MergeSettings(s, updates)
  {
  }

  // ---------------------------------------------------------------------
  // The store
  // ---------------------------------------------------------------------

  class Store {
    var history: map<string, Entry>
    var favorites: seq<Favorite>
    var searchHistory: seq<string>
    var settings: map<string, Value>

    /** A store over empty storage: every `_load` falls back to its default. */
    constructor()
      ensures history == map[] && favorites == [] && searchHistory == []
      ensures settings == DefaultSettings
    {
      history := map[];
      favorites := [];
      searchHistory := [];
      settings := DefaultSettings;
    }

    /** `saveHistory(vodId, data)`: records `data` stamped with `now` under
        `vodId`; when that makes more than 100 records, deletes one record of
        minimal `updatedAt` (possibly the new one, if the clock went back). */
    method SaveHistory(vodId: string, data: map<string, Value>, now: int)
      modifies this
      ensures favorites == old(favorites) && searchHistory == old(searchHistory) && settings == old(settings)
      ensures vodId == "" ==> history == old(history)
      ensures vodId != "" ==> Evicted(old(history)[vodId := Entry(data - {"updatedAt"}, now)], history)
      ensures |old(history)| <= HistoryLimit ==> |history| <= HistoryLimit
      ensures vodId != "" && vodId in history ==> history[vodId] == Entry(data - {"updatedAt"}, now)
      ensures vodId != "" && |old(history)| <= HistoryLimit && (vodId in old(history) || |old(history)| < HistoryLimit) ==>
                vodId in history
    {
      if vodId == "" {
        return;
      }
      var h := history[vodId := Entry(data - {"updatedAt"}, now)];
      AddCard(history, vodId, Entry(data - {"updatedAt"}, now));
      history := EvictOldest(h);
    }

    /** `getHistory(vodId)`: the record, or undefined. */
    function GetHistory(vodId: string): (r: Option<Entry>)
      reads this
      ensures r.Some? <==> vodId in history
      ensures r.Some? ==> r.value == history[vodId]
    {
      if vodId in history then Some(history[vodId]) else None
    }

    /** `getAllHistory()`: the records, newest first. */
    method GetAllHistory() returns (r: seq<Entry>)
      ensures multiset(r) == Values(history)
      ensures forall i, j :: 0 <= i < j < |r| ==> r[i].updatedAt >= r[j].updatedAt
    {
      var values: seq<Entry> := [];
      var rest := history;
      while rest != map[]
        invariant multiset(values) + Values(rest) == Values(history)
        decreases |rest|
      {
        assert rest.Keys != {};
        var k :| k in rest;
        ValuesRemove(rest, k);
        MapRemoveCard(rest, k);
        values := values + [rest[k]];
        rest := rest - {k};
      }
      r := SortDesc(values, Stamp);
      assert SortedDesc(r, Stamp);
    }

    /** `isFavorite(vodId)`. */
    predicate IsFavorite(vodId: string): (r: bool)
      reads this
      ensures r <==> exists i :: 0 <= i < |favorites| && favorites[i].id == vodId
    {
      HasId(favorites, vodId)
    }

    /** `addFavorite(vod)`: nothing if the id is already a favourite;
        otherwise the new favourite goes to the front. */
    method AddFavorite(vod: Vod, now: int)
      modifies this
      ensures history == old(history) && searchHistory == old(searchHistory) && settings == old(settings)
      ensures old(IsFavorite(vod.id)) ==> favorites == old(favorites)
      ensures !old(IsFavorite(vod.id)) ==>
                favorites == [Favorite(vod.id, vod.name, vod.pic, vod.typeName, now)] + old(favorites)
      ensures IsFavorite(vod.id)
      ensures UniqueIds(old(favorites)) ==> UniqueIds(favorites)
    {
      if IsFavorite(vod.id) {
        return;
      }
      var fav := Favorite(vod.id, vod.name, vod.pic, vod.typeName, now);
      favorites := [fav] + favorites;
      assert favorites[0] == fav;
    }

    /** `removeFavorite(vodId)`: keeps every other favourite, in order. */
    method RemoveFavorite(vodId: string)
      modifies this
      ensures history == old(history) && searchHistory == old(searchHistory) && settings == old(settings)
      ensures favorites == WithoutId(old(favorites), vodId)
      ensures !IsFavorite(vodId)
      ensures !old(IsFavorite(vodId)) ==> favorites == old(favorites)
      ensures UniqueIds(old(favorites)) ==> UniqueIds(favorites)
    {
      if !IsFavorite(vodId) {
        WithoutAbsentId(favorites, vodId);
      }
      if UniqueIds(favorites) {
        WithoutIdUnique(favorites, vodId);
      }
      favorites := WithoutId(favorites, vodId);
    }

    /** `addSearchHistory(keyword)`: an empty keyword changes nothing. */
    method AddSearchHistory(keyword: string)
      modifies this
      ensures history == old(history) && favorites == old(favorites) && settings == old(settings)
      ensures keyword == "" ==> searchHistory == old(searchHistory)
      ensures keyword != "" ==> searchHistory == PushKeyword(old(searchHistory), keyword)
    {
      if keyword == "" {
        return;
      }
      searchHistory := WithoutKeyword(searchHistory, keyword);
      searchHistory := [keyword] + searchHistory;
      if |searchHistory| > SearchHistoryLimit {
        searchHistory := searchHistory[..|searchHistory| - 1];
      }
    }

    /** `updateSettings(newSettings)`. */
    method UpdateSettings(newSettings: map<string, Value>)
      modifies this
      ensures history == old(history) && favorites == old(favorites) && searchHistory == old(searchHistory)
      ensures settings == MergeSettings(old(settings), newSettings)
    {
      settings := settings + newSettings;
    }
  }
}
