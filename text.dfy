/** The string operations of JavaScript that the core relies on:
    `String.prototype.indexOf`, `includes`, `split` with a non-empty
    separator, and `Array.prototype.join`. */
module Text {
  import opened Common

  /** `d` occurs in `s` starting at index `i`. */
  predicate OccursAt(s: string, d: string, i: nat) {
    i + |d| <= |s| && s[i..i + |d|] == d
  }

  /** `s.indexOf(d, from)`: the first index at or after `from` where `d` occurs. */
  function IndexOfFrom(s: string, d: string, from: nat): (r: Option<nat>)
    requires from <= |s|
    ensures r.Some? ==> from <= r.value && OccursAt(s, d, r.value)
    ensures r.Some? ==> forall j :: from <= j < r.value ==> !OccursAt(s, d, j)
    ensures r.None? ==> forall j :: from <= j ==> !OccursAt(s, d, j)
    decreases |s| - from
  {
    if OccursAt(s, d, from) then Some(from)
    else if from == |s| then None
    else IndexOfFrom(s, d, from + 1)
  }

  function IndexOf(s: string, d: string): Option<nat> {
    IndexOfFrom(s, d, 0)
  }

  /** `s.includes(d)`. */
  predicate Contains(s: string, d: string) {
    IndexOf(s, d).Some?
  }

  /** `includes` holds exactly when the needle occurs somewhere. */
  lemma ContainsIff(s: string, d: string)
    ensures Contains(s, d) <==> exists i: nat :: OccursAt(s, d, i)
  {
  }

  /** An occurrence is a witness for `includes`. */
  lemma ContainsAt(s: string, d: string, i: nat)
    requires OccursAt(s, d, i)
    ensures Contains(s, d)
  {
  }

  /** For a one-character needle, `includes` is plain membership. */
  lemma ContainsChar(s: string, c: char)
    ensures Contains(s, [c]) <==> c in s
  {
    ContainsIff(s, [c]);
    if c in s {
      var i :| 0 <= i < |s| && s[i] == c;
      assert OccursAt(s, [c], i);
    }
    if Contains(s, [c]) {
      var i: nat :| OccursAt(s, [c], i);
      assert s[i] == s[i..i + 1][0];
    }
  }

  /** `parts.join(d)`. */
  function Join(parts: seq<string>, d: string): string {
    if |parts| == 0 then ""
    else if |parts| == 1 then parts[0]
    else parts[0] + d + Join(parts[1..], d)
  }

  /** `s.split(d)` for a non-empty separator: the pieces between the
      non-overlapping occurrences of `d`, found from left to right. The
      last two ensures (no piece holds `d`, and the separator after each
      piece is the first occurrence of `d` in that piece followed by it)
      pin the result down: `SplitJoin` shows that any list meeting them is
      what `split` returns for its join. */
  function Split(s: string, d: string): (parts: seq<string>)
    requires |d| > 0
    ensures |parts| >= 1
    ensures Join(parts, d) == s
    ensures Separable(parts, d)
    decreases |s|
  {
    match IndexOf(s, d)
    case None => [s]
    case Some(i) =>
      PrefixBeforeFirst(s, d, i);
      FirstOccurrencePrefix(s[..i + |d|], s[i + |d|..], d, i);
      assert s[..i + |d|] + s[i + |d|..] == s;
      assert s[..i + |d|] == s[..i] + d;
      var rest := Split(s[i + |d|..], d);
      assert s == s[..i] + d + s[i + |d|..];
      var parts := [s[..i]] + rest;
      assert forall k :: 1 <= k < |parts| ==> parts[k] == rest[k - 1];
      parts
  }

  /** Joining `parts` with `d` puts each separator where `split` finds it:
      no part contains `d`, and in each part but the last followed by `d`
      the first occurrence of `d` is that separator. */
  predicate Separable(parts: seq<string>, d: string) {
    (forall i :: 0 <= i < |parts| ==> !Contains(parts[i], d)) &&
    (forall i :: 0 <= i < |parts| - 1 ==> IndexOf(parts[i] + d, d) == Some(|parts[i]|))
  }

  /** The text before the first occurrence of `d` does not contain `d`. */
  lemma PrefixBeforeFirst(s: string, d: string, i: nat)
    requires |d| > 0 && i <= |s|
    requires forall j :: 0 <= j < i ==> !OccursAt(s, d, j)
    ensures !Contains(s[..i], d)
  {
    forall j: nat | OccursAt(s[..i], d, j)
      ensures false
    {
      assert s[..i][j..j + |d|] == s[j..j + |d|];
      assert OccursAt(s, d, j);
    }
    ContainsIff(s[..i], d);
  }

  /** An occurrence that ends inside `u` is the first one in `u` exactly
      when it is the first one in `u + t`. */
  lemma FirstOccurrencePrefix(u: string, t: string, d: string, k: nat)
    requires k + |d| <= |u|
    ensures IndexOf(u, d) == Some(k) <==> IndexOf(u + t, d) == Some(k)
  {
    var s := u + t;
    forall j: nat | j <= k
      ensures OccursAt(u, d, j) <==> OccursAt(s, d, j)
    {
      assert s[j..j + |d|] == u[j..j + |d|];
    }
  }

  /** With a one-character separator that occurs in no piece, the first
      separator of `p + d + t` is the one right after `p`. */
  lemma FirstSeparator(p: string, d: string, t: string)
    requires |d| == 1 && !Contains(p, d)
    ensures IndexOf(p + d + t, d) == Some(|p|)
  {
    var s := p + d + t;
    assert OccursAt(s, d, |p|) by { assert s[|p|..|p| + 1] == d; }
    forall j | 0 <= j < |p|
      ensures !OccursAt(s, d, j)
    {
      if OccursAt(s, d, j) {
        assert p[j..j + 1] == s[j..j + 1];
        ContainsAt(p, d, j);
      }
    }
  }

  /** A one-character separator that occurs in no part separates the parts. */
  lemma SeparableByChar(parts: seq<string>, d: string)
    requires |d| == 1
    requires forall i :: 0 <= i < |parts| ==> !Contains(parts[i], d)
    ensures Separable(parts, d)
  {
    forall i | 0 <= i < |parts| - 1
      ensures IndexOf(parts[i] + d, d) == Some(|parts[i]|)
    {
      FirstSeparator(parts[i], d, "");
      assert parts[i] + d + "" == parts[i] + d;
    }
  }

  /** Splitting undoes joining for parts the separator separates. */
  lemma {:induction false} SplitJoin(parts: seq<string>, d: string)
    requires |d| > 0 && |parts| >= 1
    requires Separable(parts, d)
    ensures Split(Join(parts, d), d) == parts
  {
    if |parts| == 1 {
      assert IndexOf(parts[0], d).None?;
    } else {
      var p := parts[0];
      var t := Join(parts[1..], d);
      FirstOccurrencePrefix(p + d, t, d, |p|);
      var s := p + d + t;
      assert (p + d) + t == s;
      assert s[..|p|] == p;
      assert s[|p| + |d|..] == t;
      assert Separable(parts[1..], d) by {
        assert forall i :: 0 <= i < |parts[1..]| ==> parts[1..][i] == parts[i + 1];
      }
      SplitJoin(parts[1..], d);
      assert Split(s, d) == [p] + Split(t, d);
    }
  }

  /** `String(n)` for an integer: its decimal digits, with a leading '-'
      when negative. */
  function Decimal(n: int): (s: string)
    ensures |s| >= 1
    decreases if n < 0 then 1 - n else n
  {
    if n < 0 then "-" + Decimal(-n)
    else if n < 10 then [Digit(n)]
    else Decimal(n / 10) + [Digit(n % 10)]
  }

  function Digit(n: int): char
    requires 0 <= n < 10
  {
    "0123456789"[n]
  }

  /** ASCII lower-casing, as the Fetch standard applies to header names. */
  function LowerChar(c: char): (r: char)
    ensures !('A' <= r <= 'Z')
  {
    if 'A' <= c <= 'Z' then (c as int + 32) as char else c
  }

  function Lower(s: string): (r: string)
    ensures |r| == |s|
    ensures forall i :: 0 <= i < |s| ==> r[i] == LowerChar(s[i])
  {
    seq(|s|, i requires 0 <= i < |s| => LowerChar(s[i]))
  }

  lemma LowerIdempotent(s: string)
    ensures Lower(Lower(s)) == Lower(s)
  {
  }
}
