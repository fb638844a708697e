/** The part of the Fetch standard's `Headers` object that the two
    Cloudflare functions use. A header list is an ordered list of
    name/value pairs; names are stored lowercased and compared exactly, which
    is how `Headers` makes them case-insensitive. */
module Http {
  import opened Text

  datatype Header = Header(name: string, value: string)

  /** Every name is already lowercased, as a `Headers` object stores it. */
  predicate Normalized(h: seq<Header>) {
    forall e :: e in h ==> Lower(e.name) == e.name
  }

  /** The header list of a `Headers` object. Whatever case a server or a
      caller used, the list holds the lowercased name, so an exact name
      comparison is the case-insensitive one. */
  type HeaderList = h: seq<Header> | Normalized(h) witness []

  /** A response body: none, a text, or the upstream's body passed along. */
  datatype Body = NullBody | Text(text: string) | Stream(bytes: seq<int>)

  /** `new Response(body, init)`: status 200 and an empty status text
      unless `init` says otherwise. */
  datatype Response = Response(status: int, statusText: string, headers: HeaderList, body: Body)

  /** The values of the entries named `n`, in list order. */
  function ValuesOf(h: seq<Header>, n: string): seq<string> {
    if h == [] then []
    else (if h[0].name == n then [h[0].value] else []) + ValuesOf(h[1..], n)
  }

  /** The entries not named `n`, in list order. */
  function Others(h: seq<Header>, n: string): (r: seq<Header>)
    ensures ValuesOf(r, n) == []
    ensures forall e :: e in r ==> e in h
  {
    if h == [] then []
    else
      var rest := Others(h[1..], n);
      if h[0].name != n then
        assert ([h[0]] + rest)[1..] == rest;
        [h[0]] + rest
      else rest
  }

  /** Each entry's value is among the values of its name. */
  lemma {:induction false} ValueOfEntry(h: seq<Header>, e: Header)
    requires e in h
    ensures e.value in ValuesOf(h, e.name)
  {
    if h[0] != e {
      ValueOfEntry(h[1..], e);
    }
  }

  /** Dropping a name twice is dropping it once. */
  lemma {:induction false} OthersIdempotent(h: seq<Header>, n: string)
    ensures Others(Others(h, n), n) == Others(h, n)
  {
    if h != [] {
      OthersIdempotent(h[1..], n);
      var rest := Others(h[1..], n);
      if h[0].name != n {
        assert ([h[0]] + rest)[1..] == rest;
      } else {
        assert Others(h, n) == rest;
      }
    }
  }

  /** The entries whose name is not in `names`, in list order. */
  function Without(h: seq<Header>, names: set<string>): seq<Header> {
    if h == [] then []
    else (if h[0].name !in names then [h[0]] else []) + Without(h[1..], names)
  }

  /** The first entry named `n` takes `value`; later entries named `n` go. */
  function Replace(h: seq<Header>, n: string, value: string): (r: seq<Header>)
    requires ValuesOf(h, n) != []
    ensures ValuesOf(r, n) == [value]
    ensures Others(r, n) == Others(h, n)
    ensures forall e :: e in r ==> e in h || e == Header(n, value)
  {
    if h[0].name == n then
      var rest := Others(h[1..], n);
      assert ([Header(n, value)] + rest)[1..] == rest;
      OthersIdempotent(h[1..], n);
      [Header(n, value)] + rest
    else
      var rest := Replace(h[1..], n, value);
      assert ([h[0]] + rest)[1..] == rest;
      [h[0]] + rest
  }

  /** `headers.set(name, value)`: replaces the entries of that name, keeping
      the position of the first, or appends when there is none. */
  function SetHeader(h: seq<Header>, name: string, value: string): (r: seq<Header>)
    ensures ValuesOf(r, Lower(name)) == [value]
    ensures Others(r, Lower(name)) == Others(h, Lower(name))
    ensures Normalized(h) ==> Normalized(r)
  {
    var n := Lower(name);
    LowerIdempotent(name);
    if ValuesOf(h, n) != [] then Replace(h, n, value)
    else
      AppendAbsent(h, Header(n, value));
      h + [Header(n, value)]
  }

  /** Appending an entry of a name not yet present. */
  lemma {:induction false} AppendAbsent(h: seq<Header>, e: Header)
    requires ValuesOf(h, e.name) == []
    ensures ValuesOf(h + [e], e.name) == [e.value]
    ensures Others(h + [e], e.name) == Others(h, e.name)
  {
    if h == [] {
      assert [e][1..] == [];
    } else {
      assert (h + [e])[1..] == h[1..] + [e];
      AppendAbsent(h[1..], e);
    }
  }

  /** Dropping one name leaves the values of every other name alone. */
  lemma {:induction false} ValuesOfOthers(h: seq<Header>, n: string, m: string)
    requires n != m
    ensures ValuesOf(Others(h, m), n) == ValuesOf(h, n)
  {
    if h != [] {
      ValuesOfOthers(h[1..], n, m);
      var rest := Others(h[1..], m);
      if h[0].name != m {
        assert ([h[0]] + rest)[1..] == rest;
      } else {
        assert Others(h, m) == rest;
      }
    }
  }

  /** Dropping a name that `names` drops anyway changes nothing. */
  lemma {:induction false} WithoutOthers(h: seq<Header>, n: string, names: set<string>)
    requires n in names
    ensures Without(Others(h, n), names) == Without(h, names)
  {
    if h != [] {
      WithoutOthers(h[1..], n, names);
      var rest := Others(h[1..], n);
      if h[0].name != n {
        assert ([h[0]] + rest)[1..] == rest;
      } else {
        assert Others(h, n) == rest;
      }
    }
  }

  /** `set` of one name leaves the values of every other name alone. */
  lemma SetHeaderKeeps(h: seq<Header>, name: string, value: string, n: string)
    requires n != Lower(name)
    ensures ValuesOf(SetHeader(h, name, value), n) == ValuesOf(h, n)
  {
    ValuesOfOthers(SetHeader(h, name, value), n, Lower(name));
    ValuesOfOthers(h, n, Lower(name));
  }

  /** `set` of a name in `names` leaves the entries outside `names` alone. */
  lemma SetHeaderWithout(h: seq<Header>, name: string, value: string, names: set<string>)
    requires Lower(name) in names
    ensures Without(SetHeader(h, name, value), names) == Without(h, names)
  {
    WithoutOthers(SetHeader(h, name, value), Lower(name), names);
    WithoutOthers(h, Lower(name), names);
  }

  // ---------------------------------------------------------------------
  // Overlaying a record of headers
  // ---------------------------------------------------------------------

  /** The names of a record of headers, as `Headers` stores them. */
  function NamesOf(cs: seq<Header>): set<string> {
    set i | 0 <= i < |cs| :: Lower(cs[i].name)
  }

  /** No two names of the record coincide once lowercased. */
  ghost predicate DistinctNames(cs: seq<Header>) {
    forall i, j :: 0 <= i < j < |cs| ==> Lower(cs[i].name) != Lower(cs[j].name)
  }

  /** `set` of each entry of `cs` in turn onto `base`. A response built from
      a record, `new Response(body, {headers: record})`, carries
      `OverlayAll([], record)`. */
  function OverlayAll(base: seq<Header>, cs: seq<Header>): (r: seq<Header>)
    ensures Normalized(base) ==> Normalized(r)
    decreases |cs|
  {
    if cs == [] then base
    else
      var last := cs[|cs| - 1];
      SetHeader(OverlayAll(base, cs[..|cs| - 1]), last.name, last.value)
  }

  /** Every entry outside the record's names survives the overlay, in order. */
  lemma {:induction false} OverlayKeeps(base: seq<Header>, cs: seq<Header>, names: set<string>)
    requires NamesOf(cs) <= names
    ensures Without(OverlayAll(base, cs), names) == Without(base, names)
    decreases |cs|
  {
    if cs != [] {
      var init := cs[..|cs| - 1];
      var last := cs[|cs| - 1];
      assert NamesOf(init) <= names by {
        forall n | n in NamesOf(init)
          ensures n in names
        {
          var i :| 0 <= i < |init| && n == Lower(init[i].name);
          assert init[i] == cs[i];
        }
      }
      assert Lower(last.name) in NamesOf(cs);
      OverlayKeeps(base, init, names);
      SetHeaderWithout(OverlayAll(base, init), last.name, last.value, names);
    }
  }

  /** The type the Fetch standard's "extract a body" gives a string body. */
  const TextPlain: string := "text/plain;charset=UTF-8"

  /** `new Response(body, {status, headers: record})`: the record's headers,
      then, for a text body and a record without `Content-Type`, the entry
      `content-type: text/plain;charset=UTF-8` that the Response constructor
      appends (section "Response class" of the Fetch standard). */
  function RecordResponse(record: seq<Header>, status: int, body: Body): (r: Response)
    ensures r.status == status && r.statusText == "" && r.body == body
    ensures DistinctNames(record) ==>
              forall j :: 0 <= j < |record| ==> ValuesOf(r.headers, Lower(record[j].name)) == [record[j].value]
    ensures body.Text? && "content-type" !in NamesOf(record) ==>
              ValuesOf(r.headers, "content-type") == [TextPlain]
    ensures forall e :: e in r.headers ==>
              e.name in NamesOf(record) || (body.Text? && e == Header("content-type", TextPlain))
  {
    RecordHeaders(record);
    Response(status, "", WithBodyType(OverlayAll([], record), body), body)
  }

  /** The Response constructor's step for the body's type: a text body
      given to a header list without `content-type` appends the entry
      `content-type: text/plain;charset=UTF-8`; otherwise the list stays. */
  function WithBodyType(h: seq<Header>, body: Body): (r: seq<Header>)
    ensures Normalized(h) ==> Normalized(r)
    ensures forall n :: ValuesOf(h, n) != [] ==> ValuesOf(r, n) == ValuesOf(h, n)
    ensures body.Text? && ValuesOf(h, "content-type") == [] ==> ValuesOf(r, "content-type") == [TextPlain]
    ensures forall e :: e in r ==> e in h || (body.Text? && e == Header("content-type", TextPlain))
  {
    if body.Text? && ValuesOf(h, "content-type") == [] then
      var ct := Header("content-type", TextPlain);
      assert Lower(ct.name) == ct.name by { ContentTypeLower(); }
      forall n
        ensures ValuesOf(h + [ct], n) == ValuesOf(h, n) + (if ct.name == n then [ct.value] else [])
      {
        ValuesOfAppend(h, ct, n);
      }
      h + [ct]
    else h
  }

  lemma ContentTypeLower()
    ensures Lower("content-type") == "content-type"
  {
  }

  /** The headers a record gives a response: all lowercased, all named by
      the record, and with distinct names each carrying its record value. */
  lemma RecordHeaders(record: seq<Header>)
    ensures Normalized(OverlayAll([], record))
    ensures forall e :: e in OverlayAll([], record) ==> e.name in NamesOf(record)
    ensures "content-type" !in NamesOf(record) ==> ValuesOf(OverlayAll([], record), "content-type") == []
    ensures DistinctNames(record) ==>
              forall j :: 0 <= j < |record| ==> ValuesOf(OverlayAll([], record), Lower(record[j].name)) == [record[j].value]
  {
    var headers := OverlayAll([], record);
    OverlayKeeps([], record, NamesOf(record));
    WithoutEmpty(headers, NamesOf(record));
    if "content-type" !in NamesOf(record) {
      ValuesOutside(headers, "content-type");
    }
    if DistinctNames(record) {
      forall j | 0 <= j < |record|
        ensures ValuesOf(headers, Lower(record[j].name)) == [record[j].value]
      {
        OverlaySets([], record, j);
      }
    }
  }

  /** Nothing is left by `Without` exactly when every name is among `names`. */
  lemma {:induction false} WithoutEmpty(h: seq<Header>, names: set<string>)
    ensures Without(h, names) == [] <==> forall e :: e in h ==> e.name in names
  {
    if h != [] {
      WithoutEmpty(h[1..], names);
      assert forall e :: e in h ==> e == h[0] || e in h[1..];
    }
  }

  /** A name that no entry carries has no values. */
  lemma {:induction false} ValuesOutside(h: seq<Header>, n: string)
    requires forall e :: e in h ==> e.name != n
    ensures ValuesOf(h, n) == []
  {
    if h != [] {
      assert h[0] in h;
      ValuesOutside(h[1..], n);
    }
  }

  /** Appending an entry adds its value to its own name only. */
  lemma {:induction false} ValuesOfAppend(h: seq<Header>, e: Header, n: string)
    ensures ValuesOf(h + [e], n) == ValuesOf(h, n) + (if e.name == n then [e.value] else [])
  {
    if h == [] {
      assert [e][1..] == [];
    } else {
      assert (h + [e])[1..] == h[1..] + [e];
      ValuesOfAppend(h[1..], e, n);
    }
  }

  /** After the overlay each name of the record carries exactly the record's
      value, whatever `base` held under that name. */
  lemma {:induction false} OverlaySets(base: seq<Header>, cs: seq<Header>, j: nat)
    requires DistinctNames(cs) && j < |cs|
    ensures ValuesOf(OverlayAll(base, cs), Lower(cs[j].name)) == [cs[j].value]
    decreases |cs|
  {
    var init := cs[..|cs| - 1];
    var last := cs[|cs| - 1];
    if j < |cs| - 1 {
      assert DistinctNames(init) by {
        forall a, b | 0 <= a < b < |init|
          ensures Lower(init[a].name) != Lower(init[b].name)
        {
          assert init[a] == cs[a] && init[b] == cs[b];
        }
      }
      assert init[j] == cs[j];
      OverlaySets(base, init, j);
      SetHeaderKeeps(OverlayAll(base, init), last.name, last.value, Lower(cs[j].name));
    }
  }

  /** The `forEach` that copies a record of headers into a response's
      `Headers` with `set`. */
  method Overlay(base: seq<Header>, cs: seq<Header>) returns (h: seq<Header>)
    ensures h == OverlayAll(base, cs)
    ensures Normalized(base) ==> Normalized(h)
    ensures DistinctNames(cs) ==> forall j :: 0 <= j < |cs| ==> ValuesOf(h, Lower(cs[j].name)) == [cs[j].value]
    ensures Without(h, NamesOf(cs)) == Without(base, NamesOf(cs))
  {
    h := base;
    for i := 0 to |cs|
      invariant h == OverlayAll(base, cs[..i])
    {
      assert cs[..i + 1][..i] == cs[..i];
      h := SetHeader(h, cs[i].name, cs[i].value);
    }
    assert cs[..|cs|] == cs;
    if DistinctNames(cs) {
      forall j | 0 <= j < |cs|
        ensures ValuesOf(h, Lower(cs[j].name)) == [cs[j].value]
      {
        OverlaySets(base, cs, j);
      }
    }
    OverlayKeeps(base, cs, NamesOf(cs));
  }
}
