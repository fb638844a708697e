/** The detail modal of js/components/detail.js: choosing the best playback
    source among the `$$$`-separated groups of a video's play list, parsing
    the chosen group into episodes, and updating the modal's episode list. */
module Detail {
  import opened Common
  import opened Text
  import opened Sorting

  // ---------------------------------------------------------------------
  // Scoring
  // ---------------------------------------------------------------------

  /** A group is a candidate when it mentions an HLS or MP4 stream. */
  predicate Playable(group: string) {
    Contains(group, ".m3u8") || Contains(group, ".mp4")
  }

  /** The heuristic score of a whole group: +10 for HLS, +5 for a 1080p
      marker, +3 for a high-definition marker, -2 for plain HTTP. */
  function Score(group: string): (score: int)
    ensures -2 <= score <= 18
    ensures Contains(group, ".m3u8") ==> score >= 8
    ensures !Contains(group, ".m3u8") ==> score <= 8
  {
    (if Contains(group, ".m3u8") then 10 else 0)
    + (if Contains(group, "1080P") || Contains(group, "1080p") then 5 else 0)
    + (if Contains(group, "HD") || Contains(group, "高清") then 3 else 0)
    - (if Contains(group, "http:") then 2 else 0)
  }

  /** An HLS group served over HTTPS always outranks a group without HLS. */
  lemma HttpsHlsOutranks(hls: string, other: string)
    requires Contains(hls, ".m3u8") && !Contains(hls, "http:")
    requires !Contains(other, ".m3u8")
    ensures Score(hls) > Score(other)
  {
  }

  datatype Scored = Scored(source: string, score: int)

  function ScoreOf(x: Scored): int { x.score }

  /** `sources.filter(s => s.includes('.m3u8') || s.includes('.mp4'))`. */
  function Candidates(sources: seq<string>): (c: seq<string>)
    ensures |c| <= |sources|
    ensures forall x :: x in c <==> x in sources && Playable(x)
  {
    if sources == [] then []
    else (if Playable(sources[0]) then [sources[0]] else []) + Candidates(sources[1..])
  }

  /** `candidates.map(s => ({source: s, score}))`. */
  function Ranked(candidates: seq<string>): (r: seq<Scored>)
    ensures |r| == |candidates|
    ensures forall i :: 0 <= i < |r| ==> r[i] == Scored(candidates[i], Score(candidates[i]))
  {
    if candidates == [] then []
    else [Scored(candidates[0], Score(candidates[0]))] + Ranked(candidates[1..])
  }

  /** `Math.floor(rnd * n)` for a draw `rnd` of `Math.random()`. */
  function PickIndex(rnd: real, n: nat): (i: nat)
    requires 0.0 <= rnd < 1.0 && n > 0
    ensures i < n
  {
    assert 0.0 <= rnd * n as real < n as real;
    (rnd * n as real).Floor
  }

  /** With one group in the tier, every draw picks it. */
  lemma PickIndexOfOne(rnd: real)
    requires 0.0 <= rnd < 1.0
    ensures PickIndex(rnd, 1) == 0
  {
    assert rnd * 1 as real == rnd;
  }

  /** The draw `i / n` picks index `i`. */
  lemma PickIndexAt(i: nat, n: nat)
    requires i < n
    ensures 0.0 <= i as real / n as real < 1.0
    ensures PickIndex(i as real / n as real, n) == i
  {
    var q := i as real / n as real;
    assert q * n as real == i as real;
  }

  /** `selectBestSource(sources)`, with `rnd` standing for the value that
      `Math.random()` returns. */
  function SelectBestSource(sources: seq<string>, rnd: real): (r: Option<string>)
    requires 0.0 <= rnd < 1.0
    ensures r.None? <==> |sources| == 0
    ensures r.Some? ==> r.value in sources
    ensures |sources| > 0 && (forall s :: s in sources ==> !Playable(s)) ==> r == Some(sources[0])
  {
    if |sources| == 0 then None
    else
      var candidates := Candidates(sources);
      if |candidates| == 0 then Some(sources[0])
      else
        var sorted := SortDesc(Ranked(candidates), ScoreOf);
        RankedTier(candidates);
        var tier := Tier(sorted, ScoreOf, sorted[0].score);
        var chosen := tier[PickIndex(rnd, |tier|)];
        Some(chosen.source)
  }

  /** After ranking and sorting non-empty candidates, the tier of the head's
      score is non-empty and holds only candidates. */
  lemma RankedTier(c: seq<string>)
    requires |c| > 0
    ensures var sorted := SortDesc(Ranked(c), ScoreOf);
            |sorted| > 0 && sorted[0] in Tier(sorted, ScoreOf, sorted[0].score)
    ensures var sorted := SortDesc(Ranked(c), ScoreOf);
            forall x :: x in Tier(sorted, ScoreOf, sorted[0].score) ==> x.source in c
  {
    var ranked := Ranked(c);
    var sorted := SortDesc(ranked, ScoreOf);
    SortedHeadIsMax(ranked, ScoreOf);
    forall x | x in Tier(sorted, ScoreOf, sorted[0].score)
      ensures x.source in c
    {
      assert x in multiset(ranked);
      var i :| 0 <= i < |ranked| && ranked[i] == x;
    }
  }

  // ---------------------------------------------------------------------
  // A reference definition of the top tier, without sorting
  // ---------------------------------------------------------------------

  /** The largest score among non-empty `candidates`. */
  function MaxScore(candidates: seq<string>): (m: int)
    requires |candidates| > 0
    ensures forall x :: x in candidates ==> Score(x) <= m
    ensures exists x :: x in candidates && Score(x) == m
  {
    if |candidates| == 1 then Score(candidates[0])
    else
      var rest := MaxScore(candidates[1..]);
      assert forall x :: x in candidates ==> x == candidates[0] || x in candidates[1..];
      if Score(candidates[0]) >= rest then Score(candidates[0]) else rest
  }

  /** The candidates whose score is `k`, in their order of appearance. */
  function WithScore(candidates: seq<string>, k: int): (r: seq<string>)
    ensures forall x :: x in r ==> x in candidates && Score(x) == k
    ensures forall x :: x in candidates && Score(x) == k ==> x in r
  {
    if candidates == [] then []
    else (if Score(candidates[0]) == k then [candidates[0]] else []) + WithScore(candidates[1..], k)
  }

  /** The groups `selectBestSource` chooses among: the playable groups of
      maximal score, in play-list order. */
  function TopTier(sources: seq<string>): (t: seq<string>)
    ensures |Candidates(sources)| > 0 ==> |t| > 0
    ensures forall x :: x in t ==> x in sources && Playable(x)
  {
    var c := Candidates(sources);
    if |c| == 0 then []
    else WithScore(c, MaxScore(c))
  }

  function SourcesOf(xs: seq<Scored>): (r: seq<string>)
    ensures |r| == |xs|
    ensures forall i :: 0 <= i < |xs| ==> r[i] == xs[i].source
  {
    if xs == [] then [] else [xs[0].source] + SourcesOf(xs[1..])
  }

  lemma {:induction false} TierOfRanked(c: seq<string>, k: int)
    ensures SourcesOf(Tier(Ranked(c), ScoreOf, k)) == WithScore(c, k)
  {
    if c != [] {
      var r := Ranked(c);
      assert r[0] == Scored(c[0], Score(c[0]));
      assert r[1..] == Ranked(c[1..]);
      TierOfRanked(c[1..], k);
      var head := if Score(c[0]) == k then [r[0]] else [];
      var t := Tier(r[1..], ScoreOf, k);
      assert SourcesOf(head + t) == SourcesOf(head) + SourcesOf(t);
    }
  }

  /** The head of the sorted ranking carries the maximal score. */
  lemma HeadScoreIsMax(c: seq<string>)
    requires |c| > 0
    ensures |SortDesc(Ranked(c), ScoreOf)| > 0
    ensures SortDesc(Ranked(c), ScoreOf)[0].score == MaxScore(c)
  {
    var ranked := Ranked(c);
    var sorted := SortDesc(ranked, ScoreOf);
    SortedHeadIsMax(ranked, ScoreOf);
    var top := sorted[0].score;
    var m := MaxScore(c);
    var i :| 0 <= i < |ranked| && ranked[i] == sorted[0];
    assert c[i] in c;
    assert top <= m;
    var x :| x in c && Score(x) == m;
    var j :| 0 <= j < |c| && c[j] == x;
    assert ranked[j] in ranked;
    assert ScoreOf(ranked[j]) <= ScoreOf(sorted[0]);
  }

  /** The tier of the head's score in the sorted ranking is the reference
      top tier, in play-list order (the sort is stable). */
  lemma SortedTierIsTopTier(sources: seq<string>)
    requires |Candidates(sources)| > 0
    ensures var sorted := SortDesc(Ranked(Candidates(sources)), ScoreOf);
            |sorted| > 0 && SourcesOf(Tier(sorted, ScoreOf, sorted[0].score)) == TopTier(sources)
  {
    var c := Candidates(sources);
    var ranked := Ranked(c);
    HeadScoreIsMax(c);
    var top := MaxScore(c);
    SortKeepsTier(ranked, ScoreOf, top);
    TierOfRanked(c, top);
  }

  /** Sorting, taking the head's score and filtering on it picks exactly the
      reference top tier; the draw then indexes that tier. */
  lemma SelectMatchesTopTier(sources: seq<string>, rnd: real)
    requires 0.0 <= rnd < 1.0
    requires |Candidates(sources)| > 0
    ensures SelectBestSource(sources, rnd) == Some(TopTier(sources)[PickIndex(rnd, |TopTier(sources)|)])
  {
    var c := Candidates(sources);
    var sorted := SortDesc(Ranked(c), ScoreOf);
    RankedTier(c);
    SortedTierIsTopTier(sources);
    var tier := Tier(sorted, ScoreOf, sorted[0].score);
    var k := PickIndex(rnd, |tier|);
    assert SelectBestSource(sources, rnd) == Some(tier[k].source);
  }

  /** The chosen group is in the top tier: no playable group scores higher. */
  lemma SelectIsBest(sources: seq<string>, rnd: real, other: string)
    requires 0.0 <= rnd < 1.0
    requires other in sources && Playable(other)
    ensures SelectBestSource(sources, rnd).Some?
    ensures Playable(SelectBestSource(sources, rnd).value)
    ensures Score(other) <= Score(SelectBestSource(sources, rnd).value)
  {
    var c := Candidates(sources);
    assert other in c;
    SelectMatchesTopTier(sources, rnd);
    var t := TopTier(sources);
    assert t[PickIndex(rnd, |t|)] in t;
  }

  /** With a single group of top score, the choice does not depend on the draw. */
  lemma SelectDeterministic(sources: seq<string>, rnd1: real, rnd2: real)
    requires 0.0 <= rnd1 < 1.0 && 0.0 <= rnd2 < 1.0
    requires |TopTier(sources)| <= 1
    ensures SelectBestSource(sources, rnd1) == SelectBestSource(sources, rnd2)
  {
    if |Candidates(sources)| > 0 {
      SelectMatchesTopTier(sources, rnd1);
      SelectMatchesTopTier(sources, rnd2);
      PickIndexOfOne(rnd1);
      PickIndexOfOne(rnd2);
    }
  }

  /** Every group of the top tier is chosen for some draw: the draw
      `i / n` picks the i-th of the n top groups. */
  lemma SelectReachesEveryTopGroup(sources: seq<string>, i: nat)
    requires i < |TopTier(sources)|
    ensures var rnd := i as real / |TopTier(sources)| as real;
            0.0 <= rnd < 1.0 && SelectBestSource(sources, rnd) == Some(TopTier(sources)[i])
  {
    var n := |TopTier(sources)|;
    PickIndexAt(i, n);
    SelectMatchesTopTier(sources, i as real / n as real);
  }

  // ---------------------------------------------------------------------
  // Episode parsing
  // ---------------------------------------------------------------------

  /** `{name, url}`; `url` is undefined when the entry has no `$`. */
  datatype Episode = Episode(name: string, url: Option<string>)

  /** `const [name, url] = entry.split('$')`: the name is the text before the
      first `$`, the url the text between the first and the second `$`. */
  function ParseEntry(entry: string): (e: Episode)
    ensures '$' !in e.name
    ensures e.url.None? <==> '$' !in entry
    ensures e.url.None? ==> e.name == entry
    ensures e.url.Some? ==> '$' !in e.url.value
    ensures e.url.Some? ==> entry == e.name + "$" + e.url.value
                            || e.name + "$" + e.url.value + "$" <= entry
  {
    var parts := Split(entry, "$");
    EntryParts(entry);
    if |parts| == 1 then
      Episode(parts[0], None)
    else
      Episode(parts[0], Some(parts[1]))
  }

  /** What `entry.split('$')` yields in its first two pieces. */
  lemma EntryParts(entry: string)
    ensures var parts := Split(entry, "$");
            '$' !in parts[0] && (|parts| == 1 <==> '$' !in entry) && (|parts| == 1 ==> parts[0] == entry)
    ensures var parts := Split(entry, "$");
            |parts| > 1 ==> '$' !in parts[1] &&
                            (entry == parts[0] + "$" + parts[1] || parts[0] + "$" + parts[1] + "$" <= entry)
  {
    var parts := Split(entry, "$");
    ContainsChar(parts[0], '$');
    if |parts| > 1 {
      ContainsChar(parts[1], '$');
      assert entry == parts[0] + "$" + Join(parts[1..], "$");
      assert entry[|parts[0]|] == '$';
      if |parts| > 2 {
        assert Join(parts[1..], "$") == parts[1] + "$" + Join(parts[2..], "$");
        assert entry == parts[0] + "$" + parts[1] + "$" + Join(parts[2..], "$");
      }
    }
  }

  /** The entry text an episode is written as: `name$url`, or `name` alone. */
  function FormatEntry(e: Episode): string {
    match e.url
    case None => e.name
    case Some(u) => e.name + "$" + u
  }

  function CountChar(s: string, c: char): (n: nat)
    ensures n <= |s|
    ensures n == 0 <==> c !in s
  {
    if s == [] then 0 else (if s[0] == c then 1 else 0) + CountChar(s[1..], c)
  }

  lemma {:induction false} CountCharAppend(a: string, b: string, c: char)
    ensures CountChar(a + b, c) == CountChar(a, c) + CountChar(b, c)
  {
    if a != [] {
      assert (a + b)[1..] == a[1..] + b;
      CountCharAppend(a[1..], b, c);
    } else {
      assert a + b == b;
    }
  }

  /** A prefix holds no more of a character than the whole text. */
  lemma CountPrefix(p: string, s: string, c: char)
    ensures p <= s ==> CountChar(p, c) <= CountChar(s, c)
  {
    if p <= s {
      assert s == p + s[|p|..];
      CountCharAppend(p, s[|p|..], c);
    }
  }

  /** An entry with at most one `$` is written back exactly as it was read. */
  lemma FormatParseEntry(entry: string)
    requires CountChar(entry, '$') <= 1
    ensures FormatEntry(ParseEntry(entry)) == entry
  {
    var e := ParseEntry(entry);
    if e.url.Some? {
      var u := e.url.value;
      var p := e.name + "$" + u + "$";
      CountPrefix(p, entry, '$');
      CountCharAppend(e.name + "$" + u, "$", '$');
      CountCharAppend(e.name + "$", u, '$');
      CountCharAppend(e.name, "$", '$');
      assert CountChar(p, '$') >= 2;
    }
  }

  /** An episode whose name and url hold no `$` is read back from its text. */
  lemma ParseFormatEntry(e: Episode)
    requires '$' !in e.name && (e.url.Some? ==> '$' !in e.url.value)
    ensures ParseEntry(FormatEntry(e)) == e
  {
    ContainsChar(e.name, '$');
    if e.url.Some? {
      ContainsChar(e.url.value, '$');
      SeparableByChar([e.name, e.url.value], "$");
      SplitJoin([e.name, e.url.value], "$");
      assert Join([e.name, e.url.value], "$") == FormatEntry(e);
    } else {
      SeparableByChar([e.name], "$");
      SplitJoin([e.name], "$");
    }
  }

  /** `group.split('#').map(...)`: one episode per `#`-separated entry. */
  function ParseEpisodes(group: string): (eps: seq<Episode>)
    ensures |eps| >= 1
  {
    var entries := Split(group, "#");
    seq(|entries|, i requires 0 <= i < |entries| => ParseEntry(entries[i]))
  }

  /** The inverse of `ParseEpisodes`: entries joined with `#`. */
  function FormatEpisodes(eps: seq<Episode>): string {
    Join(seq(|eps|, i requires 0 <= i < |eps| => FormatEntry(eps[i])), "#")
  }

  /** One episode per `#`: the number of episodes is one more than the
      number of `#` characters in the group. */
  lemma {:induction false} EpisodeCount(group: string)
    ensures |ParseEpisodes(group)| == CountChar(group, '#') + 1
    decreases |group|
  {
    var entries := Split(group, "#");
    match IndexOf(group, "#")
    case None =>
      assert entries == [group];
      ContainsChar(group, '#');
    case Some(i) =>
      var rest := group[i + 1..];
      assert entries == [group[..i]] + Split(rest, "#");
      ContainsChar(group[..i], '#');
      assert group == group[..i] + "#" + rest;
      CountCharAppend(group[..i] + "#", rest, '#');
      CountCharAppend(group[..i], "#", '#');
      EpisodeCount(rest);
  }

  /** Round trip from text: when every entry holds at most one `$`, writing
      the parsed episodes back reproduces the group. */
  lemma EpisodesRoundTrip(group: string)
    requires forall entry :: entry in Split(group, "#") ==> CountChar(entry, '$') <= 1
    ensures FormatEpisodes(ParseEpisodes(group)) == group
  {
    var entries := Split(group, "#");
    var eps := ParseEpisodes(group);
    var texts := seq(|eps|, i requires 0 <= i < |eps| => FormatEntry(eps[i]));
    forall i | 0 <= i < |entries|
      ensures texts[i] == entries[i]
    {
      FormatParseEntry(entries[i]);
    }
    assert texts == entries;
  }

  /** Round trip from episodes: a non-empty list whose names and urls hold
      neither `#` nor `$` is parsed back from its text. */
  lemma EpisodesRoundTripBack(eps: seq<Episode>)
    requires |eps| >= 1
    requires forall i :: 0 <= i < |eps| ==> '#' !in eps[i].name && '$' !in eps[i].name
    requires forall i :: 0 <= i < |eps| && eps[i].url.Some? ==> '#' !in eps[i].url.value && '$' !in eps[i].url.value
    ensures ParseEpisodes(FormatEpisodes(eps)) == eps
  {
    var texts := seq(|eps|, i requires 0 <= i < |eps| => FormatEntry(eps[i]));
    forall i | 0 <= i < |texts|
      ensures !Contains(texts[i], "#")
    {
      ContainsChar(texts[i], '#');
    }
    SeparableByChar(texts, "#");
    SplitJoin(texts, "#");
    forall i | 0 <= i < |eps|
      ensures ParseEntry(texts[i]) == eps[i]
    {
      ParseFormatEntry(eps[i]);
    }
  }

  // ---------------------------------------------------------------------
  // The modal
  // ---------------------------------------------------------------------

  /** The episode list `renderEpisodes` shows for a non-empty play field:
      the episodes of a top-tier group when some group is playable, and of
      the first group otherwise. */
  function EpisodesFor(playField: string, rnd: real): (eps: seq<Episode>)
    requires 0.0 <= rnd < 1.0
    ensures |eps| >= 1
    ensures var sources := Split(playField, "$$$");
            |Candidates(sources)| == 0 ==> eps == ParseEpisodes(sources[0])
    ensures var sources := Split(playField, "$$$");
            |Candidates(sources)| > 0 ==> exists g :: g in TopTier(sources) && eps == ParseEpisodes(g)
  {
    var sources := Split(playField, "$$$");
    var target := SelectBestSource(sources, rnd);
    assert |Candidates(sources)| > 0 ==> target.Some? && target.value in TopTier(sources) by {
      if |Candidates(sources)| > 0 {
        SelectMatchesTopTier(sources, rnd);
      }
    }
    ParseEpisodes(target.GetOr(sources[0]))
  }

  /** Groups joined with `$$$` come back from `split('$$$')` when none holds
      `$$$` and none but the last ends in `$`. */
  lemma SeparableGroups(gs: seq<string>)
    requires forall i :: 0 <= i < |gs| ==> !Contains(gs[i], "$$$")
    requires forall i :: 0 <= i < |gs| - 1 ==> gs[i] == [] || gs[i][|gs[i]| - 1] != '$'
    ensures Separable(gs, "$$$")
  {
    forall i | 0 <= i < |gs| - 1
      ensures IndexOf(gs[i] + "$$$", "$$$") == Some(|gs[i]|)
    {
      var p := gs[i];
      var u := p + "$$$";
      assert OccursAt(u, "$$$", |p|) by { assert u[|p|..|p| + 3] == "$$$"; }
      forall j | 0 <= j < |p|
        ensures !OccursAt(u, "$$$", j)
      {
        if j + 3 <= |p| {
          assert p[j..j + 3] == u[j..j + 3];
          if OccursAt(u, "$$$", j) {
            ContainsAt(p, "$$$", j);
          }
        } else {
          assert u[|p| - 1] == p[|p| - 1] != '$';
          assert u[j..j + 3][|p| - 1 - j] == u[|p| - 1];
        }
      }
    }
  }

  /** A text with no `$` after its first character holds no `$$$`. */
  lemma NoLaterDollar(s: string)
    requires forall k :: 1 <= k < |s| ==> s[k] != '$'
    ensures !Contains(s, "$$$")
  {
    forall j: nat | j + 3 <= |s|
      ensures !OccursAt(s, "$$$", j)
    {
      assert s[j..j + 3][1] == s[j + 1] != '$';
    }
    ContainsIff(s, "$$$");
  }

  /** A group ending in `$` followed by another is not read back: the
      separator is found one place early, and the `$` moves to the start of
      the next group. */
  lemma DollarEndedGroupShifts(p: string, t: string)
    requires '$' !in p && '$' !in t
    ensures Split(p + "$" + "$$$" + t, "$$$") == [p, "$" + t]
  {
    var q := "$" + t;
    var gs := [p, q];
    assert forall k :: 1 <= k < |p| ==> p[k] in p;
    NoLaterDollar(p);
    assert forall k :: 1 <= k < |q| ==> q[k] == t[k - 1];
    NoLaterDollar(q);
    assert p == [] || p[|p| - 1] in p;
    SeparableGroups(gs);
    SplitJoin(gs, "$$$");
    assert Join(gs, "$$$") == p + "$$$" + Join([q], "$$$");
    DollarMoves(p, t);
  }

  lemma DollarMoves(p: string, t: string)
    ensures p + "$$$" + ("$" + t) == p + "$" + "$$$" + t
  {
    assert "$$$" + ("$" + t) == "$" + "$$$" + t;
  }

  /** End to end: in a play field of `$$$`-joined groups, the one HLS group
      served over HTTPS among groups without HLS is the one whose episodes
      are shown, whatever the draw. */
  lemma PlayFieldPrefersHttpsHls(gs: seq<string>, i: nat, rnd: real)
    requires 0.0 <= rnd < 1.0 && i < |gs|
    requires forall j :: 0 <= j < |gs| ==> !Contains(gs[j], "$$$")
    requires forall j :: 0 <= j < |gs| - 1 ==> gs[j] == [] || gs[j][|gs[j]| - 1] != '$'
    requires Contains(gs[i], ".m3u8") && !Contains(gs[i], "http:")
    requires forall j :: 0 <= j < |gs| && j != i ==> !Contains(gs[j], ".m3u8")
    ensures EpisodesFor(Join(gs, "$$$"), rnd) == ParseEpisodes(gs[i])
  {
    SeparableGroups(gs);
    SplitJoin(gs, "$$$");
    SelectPrefersHttpsHls(gs, i, rnd);
  }

  function Names(eps: seq<Episode>): (names: seq<string>)
    ensures |names| == |eps|
    ensures forall i :: 0 <= i < |eps| ==> names[i] == eps[i].name
  {
    seq(|eps|, i requires 0 <= i < |eps| => eps[i].name)
  }

  class DetailModal {
    /** `this.episodes`; an unset field is the empty list, which the play
        button treats alike (both mean "nothing to play"). */
    var episodes: seq<Episode>
    /** The labels of the buttons in `#episodeList`, in document order. */
    var buttons: seq<string>

    constructor()
      ensures episodes == [] && buttons == []
    {
      episodes := [];
      buttons := [];
    }

    /** `renderEpisodes(vod)`: clears the button list; for an absent or empty
        play field stops there; otherwise sets `episodes` to the parsed
        episodes of the chosen group and adds one button per episode. */
    method RenderEpisodes(vod: Vod, rnd: real)
      requires 0.0 <= rnd < 1.0
      modifies this
      ensures vod.playUrl.None? || vod.playUrl == Some("") ==> episodes == old(episodes) && buttons == []
      ensures vod.playUrl.Some? && vod.playUrl.value != "" ==>
                episodes == EpisodesFor(vod.playUrl.value, rnd) && buttons == Names(episodes)
    {
      buttons := [];
      if vod.playUrl.None? || vod.playUrl.value == "" {
        return;
      }
      episodes := EpisodesFor(vod.playUrl.value, rnd);
      AddButtons(episodes);
    }

    /** `episodes.forEach(ep => listEl.appendChild(button labelled ep.name))`. */
    method AddButtons(eps: seq<Episode>)
      modifies this
      ensures episodes == old(episodes)
      ensures buttons == old(buttons) + Names(eps)
    {
      var i := 0;
      while i < |eps|
        invariant 0 <= i <= |eps|
        invariant episodes == old(episodes)
        invariant buttons == old(buttons) + Names(eps[..i])
      {
        assert Names(eps[..i + 1]) == Names(eps[..i]) + [eps[i].name];
        buttons := buttons + [eps[i].name];
        i := i + 1;
      }
      assert eps[..i] == eps;
    }
  }

  // ---------------------------------------------------------------------
  // Worked examples
  // ---------------------------------------------------------------------

  /** One HLS group served over HTTPS among groups without HLS (for
      instance an MP4 group over HTTP, score -2, against an HLS group over
      HTTPS, score 10) is chosen whatever the draw. */
  lemma SelectPrefersHttpsHls(sources: seq<string>, i: nat, rnd: real)
    requires 0.0 <= rnd < 1.0
    requires i < |sources|
    requires Contains(sources[i], ".m3u8") && !Contains(sources[i], "http:")
    requires forall j :: 0 <= j < |sources| && j != i ==> !Contains(sources[j], ".m3u8")
    ensures SelectBestSource(sources, rnd) == Some(sources[i])
  {
    SelectIsBest(sources, rnd, sources[i]);
    var r := SelectBestSource(sources, rnd).value;
    if !Contains(r, ".m3u8") {
      HttpsHlsOutranks(sources[i], r);
    }
  }

  /** A group of two well-formed entries parses into its two episodes, in order. */
  lemma TwoEpisodes(n1: string, u1: string, n2: string, u2: string)
    requires '#' !in n1 && '$' !in n1 && '#' !in u1 && '$' !in u1
    requires '#' !in n2 && '$' !in n2 && '#' !in u2 && '$' !in u2
    ensures ParseEpisodes(n1 + "$" + u1 + "#" + n2 + "$" + u2)
            == [Episode(n1, Some(u1)), Episode(n2, Some(u2))]
  {
    var eps := [Episode(n1, Some(u1)), Episode(n2, Some(u2))];
    var texts := [n1 + "$" + u1, n2 + "$" + u2];
    assert FormatEntry(eps[0]) == texts[0] && FormatEntry(eps[1]) == texts[1];
    assert seq(|eps|, i requires 0 <= i < |eps| => FormatEntry(eps[i])) == texts;
    assert Join(texts, "#") == texts[0] + "#" + texts[1];
    var group := n1 + "$" + u1 + "#" + n2 + "$" + u2;
    assert group == texts[0] + "#" + texts[1];
    assert FormatEpisodes(eps) == group;
    EpisodesRoundTripBack(eps);
  }

  /** An entry without `$` is kept, with an undefined url, not dropped:
      `"ep1#E2$http://x/2.mp4"` gives two episodes, the first without url. */
  lemma EntryWithoutUrlKept(n1: string, n2: string, u2: string)
    requires '#' !in n1 && '$' !in n1
    requires '#' !in n2 && '$' !in n2 && '#' !in u2 && '$' !in u2
    ensures ParseEpisodes(n1 + "#" + n2 + "$" + u2) == [Episode(n1, None), Episode(n2, Some(u2))]
  {
    var eps := [Episode(n1, None), Episode(n2, Some(u2))];
    var texts := [n1, n2 + "$" + u2];
    assert FormatEntry(eps[0]) == texts[0] && FormatEntry(eps[1]) == texts[1];
    assert seq(|eps|, i requires 0 <= i < |eps| => FormatEntry(eps[i])) == texts;
    assert Join(texts, "#") == texts[0] + "#" + texts[1];
    assert n1 + "#" + n2 + "$" + u2 == texts[0] + "#" + texts[1];
    EpisodesRoundTripBack(eps);
  }

  /** The two-group play field: an MP4 group over HTTP, then an HLS group
      over HTTPS with two episodes. The second group is chosen and its two
      episodes come back, in order, whatever the draw. */
  lemma TwoGroupPlayField(g1: string, n1: string, u1: string, n2: string, u2: string, rnd: real)
    requires 0.0 <= rnd < 1.0
    requires !Contains(g1, ".m3u8") && !Contains(g1, "$$$") && (g1 == [] || g1[|g1| - 1] != '$')
    requires '#' !in n1 && '$' !in n1 && '#' !in u1 && '$' !in u1
    requires '#' !in n2 && '$' !in n2 && '#' !in u2 && '$' !in u2
    requires var g2 := n1 + "$" + u1 + "#" + n2 + "$" + u2;
             Contains(g2, ".m3u8") && !Contains(g2, "http:") && !Contains(g2, "$$$")
    ensures EpisodesFor(g1 + "$$$" + (n1 + "$" + u1 + "#" + n2 + "$" + u2), rnd)
            == [Episode(n1, Some(u1)), Episode(n2, Some(u2))]
  {
    var g2 := n1 + "$" + u1 + "#" + n2 + "$" + u2;
    var gs := [g1, g2];
    assert Join(gs, "$$$") == g1 + "$$$" + Join([g2], "$$$");
    PlayFieldPrefersHttpsHls(gs, 1, rnd);
    TwoEpisodes(n1, u1, n2, u2);
  }
}
