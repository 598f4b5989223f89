// Merging what several sources found (internal/indexer/multi.go): copies of
// their results one after another, each torrent once, most seeded first.
module SearchMerge {
  import opened Runs

  datatype Result = Result(title: string, size: int, seeders: int, leechers: int, tracker: string, link: string)

  // ------------------------------------------------------------------
  // The hash in a magnet link
  // ------------------------------------------------------------------

  function LowerChar(c: char): char {
    if 'A' <= c <= 'Z' then c - 'A' + 'a' else c
  }

  const UPPER := "ABCDEFGHIJKLMNOPQRSTUVWXYZ"
  const LOWER := "abcdefghijklmnopqrstuvwxyz"

  // The letters are lowered, each to its own, and nothing else is.
  lemma LettersAreLowered(c: char)
    ensures forall k | 0 <= k < 26 :: LowerChar(UPPER[k]) == LOWER[k]
    ensures LowerChar(c) != c ==> c in UPPER
  {
    if LowerChar(c) != c {
      assert UPPER[c as int - 'A' as int] == c;
    }
  }

  function Lower(s: string): (r: string)
    ensures |r| == |s| && forall i | 0 <= i < |s| :: r[i] == LowerChar(s[i])
  {
    seq(|s|, i requires 0 <= i < |s| => LowerChar(s[i]))
  }

  const MARKER := "xt=urn:btih:"

  // Where `sub` begins in s from i on.
  function IndexFrom(s: string, sub: string, i: nat): (r: Option<nat>)
    requires i <= |s|
    ensures r.Some? ==> i <= r.value <= |s| - |sub| && sub <= s[r.value..]
    decreases |s| - i
  {
    if sub <= s[i..] then Some(i) else if i == |s| then None else IndexFrom(s, sub, i + 1)
  }

  function UpTo(h: string, stops: set<char>): (r: string)
    ensures r <= h
  {
    if h == "" || h[0] in stops then "" else [h[0]] + UpTo(h[1..], stops)
  }

  function InfoHash(link: string): string {
    match IndexFrom(Lower(link), MARKER, 0)
    case None => ""
    case Some(i) => Lower(UpTo(link[i + |MARKER|..], {'&', '/', '?'}))
  }

  // Letter case in a link makes no difference to its hash.
  lemma CaseDoesNotMatter(link: string)
    ensures InfoHash(Lower(link)) == InfoHash(link)
  {
    LowerTwice(link);
    var l := Lower(link);
    match IndexFrom(l, MARKER, 0)
    case None =>
    case Some(i) =>
      assert l[i + |MARKER|..] == Lower(link[i + |MARKER|..]);
      UpToLower(link[i + |MARKER|..]);
      LowerTwice(UpTo(link[i + |MARKER|..], {'&', '/', '?'}));
  }

  lemma LowerTwice(s: string)
    ensures Lower(Lower(s)) == Lower(s)
  {
  }

  lemma {:induction false} UpToLower(h: string)
    ensures UpTo(Lower(h), {'&', '/', '?'}) == Lower(UpTo(h, {'&', '/', '?'}))
    decreases |h|
  {
    if h != "" {
      assert Lower(h)[1..] == Lower(h[1..]);
      UpToLower(h[1..]);
    }
  }

  // The hash of a magnet link is what stands after the marker, up to the
  // next parameter.
  lemma HashIsRead(pre: string, h: string, tail: string)
    requires forall i | 0 <= i < |pre| :: LowerChar(pre[i]) != 'x'
    requires forall i | 0 <= i < |h| :: h[i] !in {'&', '/', '?'}
    requires tail == "" || tail[0] in {'&', '/', '?'}
    ensures InfoHash(pre + MARKER + (h + tail)) == Lower(h)
  {
    var link := pre + MARKER + (h + tail);
    LowerAppend(pre + MARKER, h + tail);
    LowerAppend(pre, MARKER);
    MarkerIsLower();
    MarkerFound(Lower(pre), MARKER, Lower(h + tail));
    assert link[|pre| + |MARKER|..] == h + tail;
    UpToStops(h, tail);
  }

  lemma MarkerFound(pre: string, sub: string, rest: string)
    requires sub != "" && forall i | 0 <= i < |pre| :: pre[i] != sub[0]
    ensures IndexFrom(pre + sub + rest, sub, 0) == Some(|pre|)
  {
    var s := pre + sub + rest;
    assert s[|pre|..|pre| + |sub|] == sub;
    FindsAt(s, sub, 0, |pre|);
  }

  lemma LowerAppend(a: string, b: string)
    ensures Lower(a + b) == Lower(a) + Lower(b)
  {
  }

  lemma MarkerIsLower()
    ensures Lower(MARKER) == MARKER
  {
    assert forall i | 0 <= i < |MARKER| :: MARKER[i] in {'x', 't', '=', 'u', 'r', 'n', ':', 'b', 'i', 'h'};
  }

  lemma {:induction false} FindsAt(s: string, sub: string, i: nat, at: nat)
    requires sub != "" && i <= at <= |s| - |sub| && s[at..at + |sub|] == sub
    requires forall k | i <= k < at :: s[k] != sub[0]
    ensures IndexFrom(s, sub, i) == Some(at)
    decreases at - i
  {
    if i == at {
      assert s[at..][..|sub|] == sub;
    } else {
      assert s[i..][0] == s[i];
      FindsAt(s, sub, i + 1, at);
    }
  }

  lemma {:induction false} UpToStops(h: string, tail: string)
    requires forall i | 0 <= i < |h| :: h[i] !in {'&', '/', '?'}
    requires tail == "" || tail[0] in {'&', '/', '?'}
    ensures UpTo(h + tail, {'&', '/', '?'}) == h
    decreases |h|
  {
    if h == "" {
      assert h + tail == tail;
    } else {
      assert (h + tail)[1..] == h[1..] + tail;
      UpToStops(h[1..], tail);
    }
  }

  // ------------------------------------------------------------------
  // Each torrent once
  // ------------------------------------------------------------------

  // What tells torrents apart; "" is nothing to compare.
  function LinkHash(r: Result): string {
    InfoHash(r.link)
  }

  function Hashes(key: Result -> string, rs: seq<Result>): set<string> {
    set i | 0 <= i < |rs| && key(rs[i]) != "" :: key(rs[i])
  }

  // The result at i repeats the torrent of an earlier one.
  predicate Repeats(key: Result -> string, rs: seq<Result>, i: nat)
    requires i < |rs|
  {
    key(rs[i]) != "" && key(rs[i]) in Hashes(key, rs[..i])
  }

  // The results that repeat none, in order.
  function Distinct(key: Result -> string, rs: seq<Result>): seq<Result> {
    if rs == [] then []
    else
      var n := |rs| - 1;
      if Repeats(key, rs, n) then Distinct(key, rs[..n]) else Distinct(key, rs[..n]) + [rs[n]]
  }

  lemma DistinctSnoc(key: Result -> string, rs: seq<Result>, i: nat)
    requires i < |rs|
    ensures Distinct(key, rs[..i + 1]) ==
            if Repeats(key, rs, i) then Distinct(key, rs[..i]) else Distinct(key, rs[..i]) + [rs[i]]
    ensures Hashes(key, rs[..i + 1]) == Hashes(key, rs[..i]) + if key(rs[i]) == "" then {} else {key(rs[i])}
  {
    var longer := rs[..i + 1];
    assert longer[..i] == rs[..i];
    forall h
      ensures h in Hashes(key, longer) <==> h in Hashes(key, rs[..i]) || (h == key(rs[i]) && h != "")
    {
      if h in Hashes(key, rs[..i]) {
        var k :| 0 <= k < i && key(rs[..i][k]) != "" && h == key(rs[..i][k]);
        assert longer[k] == rs[..i][k];
      }
      if h == key(rs[i]) && h != "" {
        assert longer[i] == rs[i];
      }
    }
  }

  // The filter in place: what is kept is written over the front of the
  // array it is read from, never ahead of the reading.
  method Dedupe(rs: array<Result>, key: Result -> string) returns (kept: nat)
    modifies rs
    ensures kept <= rs.Length && rs[..kept] == Distinct(key, old(rs[..]))
  {
    ghost var all := rs[..];
    var seen: set<string> := {};
    kept := 0;
    var i := 0;
    while i < rs.Length
      invariant 0 <= kept <= i <= rs.Length
      invariant rs[i..] == all[i..] && rs[..kept] == Distinct(key, all[..i]) && seen == Hashes(key, all[..i])
    {
      DistinctSnoc(key, all, i);
      var r := rs[i];
      assert r == rs[i..][0] == all[i..][0] == all[i];
      var h := key(r);
      i := i + 1;
      if h == "" {
        rs[kept], kept := r, kept + 1;
      } else if h !in seen {
        seen := seen + {h};
        rs[kept], kept := r, kept + 1;
      }
    }
    assert all[..rs.Length] == all;
  }

  // The results without a hash.
  function Unhashed(key: Result -> string, rs: seq<Result>): seq<Result> {
    if rs == [] then []
    else
      var rest, last := Unhashed(key, rs[..|rs| - 1]), rs[|rs| - 1];
      if key(last) == "" then rest + [last] else rest
  }

  predicate NoneTwice(key: Result -> string, rs: seq<Result>) {
    forall i, j | 0 <= i < j < |rs| :: key(rs[i]) != "" ==> key(rs[i]) != key(rs[j])
  }

  // In the result no hash comes twice, every hash there was is there, and
  // every result without one, as often as it was.
  lemma {:induction false} DistinctIs(key: Result -> string, rs: seq<Result>)
    ensures var d := Distinct(key, rs);
            NoneTwice(key, d) && Hashes(key, d) == Hashes(key, rs) && Unhashed(key, d) == Unhashed(key, rs)
    decreases |rs|
  {
    if rs != [] {
      var n := |rs| - 1;
      var d := Distinct(key, rs[..n]);
      DistinctIs(key, rs[..n]);
      DistinctSnoc(key, rs, n);
      assert rs[..n + 1] == rs;
      if !Repeats(key, rs, n) {
        AppendKeeps(key, d, rs[n]);
      }
    }
  }

  lemma AppendKeeps(key: Result -> string, d: seq<Result>, r: Result)
    requires NoneTwice(key, d) && (key(r) == "" || key(r) !in Hashes(key, d))
    ensures NoneTwice(key, d + [r])
    ensures Hashes(key, d + [r]) == Hashes(key, d) + if key(r) == "" then {} else {key(r)}
    ensures Unhashed(key, d + [r]) == Unhashed(key, d) + if key(r) == "" then [r] else []
  {
    var e := d + [r];
    DistinctSnoc(key, e, |d|);
    assert e[..|d| + 1] == e && e[..|d|] == d;
    forall i | 0 <= i < |d| && key(d[i]) != ""
      ensures key(d[i]) != key(r)
    {
      assert key(d[i]) in Hashes(key, d);
    }
  }

  lemma RepeatsInPrefix(key: Result -> string, rs: seq<Result>, n: nat, i: nat)
    requires i < n <= |rs|
    ensures Repeats(key, rs[..n], i) == Repeats(key, rs, i)
  {
    assert rs[..n][..i] == rs[..i];
  }

  // The kept results are some of the given ones in their order: at[k] is
  // where the k-th comes from, and nothing before it has its hash.
  lemma {:induction false} DistinctKeepsFirsts(key: Result -> string, rs: seq<Result>) returns (at: seq<nat>)
    ensures |at| == |Distinct(key, rs)|
    ensures forall k | 0 <= k < |at| :: at[k] < |rs| && rs[at[k]] == Distinct(key, rs)[k]
    ensures forall k | 0 <= k < |at| :: !Repeats(key, rs, at[k])
    ensures forall j, k | 0 <= j < k < |at| :: at[j] < at[k]
    decreases |rs|
  {
    at := [];
    if rs != [] {
      var n := |rs| - 1;
      at := DistinctKeepsFirsts(key, rs[..n]);
      forall k | 0 <= k < |at|
        ensures !Repeats(key, rs, at[k])
      {
        RepeatsInPrefix(key, rs, n, at[k]);
      }
      if !Repeats(key, rs, n) {
        at := at + [n];
      }
    }
  }

  // ------------------------------------------------------------------
  // Most seeded first
  // ------------------------------------------------------------------

  predicate Descending(rs: seq<Result>) {
    forall i, j | 0 <= i < j < |rs| :: rs[i].seeders >= rs[j].seeders
  }

  // The results with this many seeders, in order.
  function With(rs: seq<Result>, seeders: int): seq<Result> {
    if rs == [] then []
    else if rs[0].seeders == seeders then [rs[0]] + With(rs[1..], seeders)
    else With(rs[1..], seeders)
  }

  // b is a, sorted, with ties left in the order they were in.
  ghost predicate IsStableSort(a: seq<Result>, b: seq<Result>) {
    Descending(b) && forall seeders: int :: With(b, seeders) == With(a, seeders)
  }

  // Before the first with fewer seeders, so after those with as many.
  function InsertAfterTies(rs: seq<Result>, r: Result): seq<Result> {
    if rs == [] then [r]
    else if rs[0].seeders < r.seeders then [r] + rs
    else [rs[0]] + InsertAfterTies(rs[1..], r)
  }

  function StableSort(rs: seq<Result>): seq<Result> {
    if rs == [] then [] else InsertAfterTies(StableSort(rs[..|rs| - 1]), rs[|rs| - 1])
  }

  lemma {:induction false} WithAppend(a: seq<Result>, b: seq<Result>, seeders: int)
    ensures With(a + b, seeders) == With(a, seeders) + With(b, seeders)
    decreases |a|
  {
    if a == [] {
      assert a + b == b;
    } else {
      assert (a + b)[1..] == a[1..] + b;
      WithAppend(a[1..], b, seeders);
    }
  }

  lemma {:induction false} WithNone(rs: seq<Result>, seeders: int)
    requires forall i | 0 <= i < |rs| :: rs[i].seeders != seeders
    ensures With(rs, seeders) == []
    decreases |rs|
  {
    if rs != [] {
      WithNone(rs[1..], seeders);
    }
  }

  lemma WithHead(rs: seq<Result>)
    requires rs != []
    ensures With(rs, rs[0].seeders) != []
  {
  }

  lemma {:induction false} InsertIsStable(rs: seq<Result>, r: Result, seeders: int)
    requires Descending(rs)
    ensures Descending(InsertAfterTies(rs, r))
    ensures With(InsertAfterTies(rs, r), seeders) == With(rs + [r], seeders)
    ensures forall x :: x in InsertAfterTies(rs, r) <==> x in rs || x == r
    decreases |rs|
  {
    WithAppend(rs, [r], seeders);
    if rs != [] {
      assert rs == [rs[0]] + rs[1..];
      if rs[0].seeders < r.seeders {
        WithAppend([r], rs, seeders);
        if seeders == r.seeders {
          WithNone(rs, seeders);
        }
      } else {
        InsertIsStable(rs[1..], r, seeders);
        InsertInTail(rs, r);
        WithAppend(rs[1..], [r], seeders);
        assert InsertAfterTies(rs, r)[1..] == InsertAfterTies(rs[1..], r);
      }
    }
  }

  lemma InsertInTail(rs: seq<Result>, r: Result)
    requires rs != [] && Descending(rs) && rs[0].seeders >= r.seeders && Descending(InsertAfterTies(rs[1..], r))
    requires forall x :: x in InsertAfterTies(rs[1..], r) <==> x in rs[1..] || x == r
    ensures Descending([rs[0]] + InsertAfterTies(rs[1..], r))
  {
    var more := InsertAfterTies(rs[1..], r);
    forall k | 0 <= k < |more|
      ensures rs[0].seeders >= more[k].seeders
    {
      assert more[k] in more;
      if more[k] != r {
        var j :| 0 <= j < |rs[1..]| && rs[1..][j] == more[k];
        assert rs[j + 1] == more[k];
      }
    }
  }

  lemma {:induction false} StableSortIs(rs: seq<Result>)
    ensures IsStableSort(rs, StableSort(rs))
    decreases |rs|
  {
    if rs != [] {
      var n := |rs| - 1;
      StableSortIs(rs[..n]);
      assert rs[..n] + [rs[n]] == rs;
      InsertIsStable(StableSort(rs[..n]), rs[n], 0);
      forall seeders: int
        ensures With(StableSort(rs), seeders) == With(rs, seeders)
      {
        InsertIsStable(StableSort(rs[..n]), rs[n], seeders);
        WithAppend(StableSort(rs[..n]), [rs[n]], seeders);
        WithAppend(rs[..n], [rs[n]], seeders);
      }
    }
  }

  // There is only one such order, whatever the sorting algorithm.
  lemma {:induction false} StableSortIsUnique(a: seq<Result>, b: seq<Result>)
    requires Descending(a) && Descending(b) && forall seeders: int :: With(a, seeders) == With(b, seeders)
    ensures a == b
    decreases |a|
  {
    if a == [] {
      if b != [] {
        WithHead(b);
      }
    } else {
      HeadOfWith(a, b);
      HeadOfWith(b, a);
      assert a[0] == b[0] by {
        assert With(a, a[0].seeders)[0] == a[0] && With(b, b[0].seeders)[0] == b[0];
      }
      forall seeders: int
        ensures With(a[1..], seeders) == With(b[1..], seeders)
      {
        assert With(a, seeders) == With(b, seeders);
        if a[0].seeders == seeders {
          assert With(a[1..], seeders) == With(a, seeders)[1..] && With(b[1..], seeders) == With(b, seeders)[1..];
        }
      }
      StableSortIsUnique(a[1..], b[1..]);
      assert a == [a[0]] + a[1..] && b == [b[0]] + b[1..];
    }
  }

  // The first of a has at most as many seeders as the first of b.
  lemma HeadOfWith(a: seq<Result>, b: seq<Result>)
    requires a != [] && Descending(b) && With(a, a[0].seeders) == With(b, a[0].seeders)
    ensures b != [] && a[0].seeders <= b[0].seeders
  {
    assert With(a, a[0].seeders) != [];
    if forall i | 0 <= i < |b| :: b[i].seeders != a[0].seeders {
      WithNone(b, a[0].seeders);
      assert false;
    }
  }

  // ------------------------------------------------------------------
  // The search
  // ------------------------------------------------------------------

  // What one source answered. Its results may be a slice it keeps.
  datatype Answer = Answer(results: array<Result>, failed: bool)

  function Merged(answers: seq<Answer>): seq<Result>
    reads set a | a in answers :: a.results
  {
    if answers == [] then []
    else
      var last := answers[|answers| - 1];
      Merged(answers[..|answers| - 1]) + if last.failed then [] else last.results[..]
  }

  lemma MergedSnoc(answers: seq<Answer>, i: nat)
    requires i < |answers|
    ensures Merged(answers[..i + 1]) ==
            Merged(answers[..i]) + if answers[i].failed then [] else answers[i].results[..]
  {
    assert answers[..i + 1][..i] == answers[..i];
  }

  // The copy that is filtered in place and sorted.
  method Best(merged: seq<Result>) returns (r: seq<Result>)
    ensures r == StableSort(Distinct(LinkHash, merged))
  {
    var copy := new Result[|merged|](k requires 0 <= k < |merged| => merged[k]);
    assert copy[..] == merged;
    var kept := Dedupe(copy, LinkHash);
    r := StableSort(copy[..kept]);
  }

  // The results of the sources that did not fail, in the order the sources
  // were given, each torrent once, best first. Only every source failing
  // is a failure. No source's own slice is written to.
  method Search(answers: seq<Answer>) returns (r: Option<seq<Result>>)
    ensures r.None? <==> forall i | 0 <= i < |answers| :: answers[i].failed
    ensures r.Some? ==> r.value == StableSort(Distinct(LinkHash, Merged(answers)))
  {
    var merged: seq<Result> := [];
    var failed := 0;
    var i := 0;
    while i < |answers|
      invariant 0 <= i <= |answers| && 0 <= failed <= i
      invariant merged == Merged(answers[..i])
      invariant failed == i <==> forall k | 0 <= k < i :: answers[k].failed
    {
      MergedSnoc(answers, i);
      if answers[i].failed {
        failed := failed + 1;
      } else {
        merged := merged + answers[i].results[..];
      }
      i := i + 1;
    }
    assert answers[..|answers|] == answers;
    if failed == |answers| {
      return None;
    }
    var best := Best(merged);
    return Some(best);
  }
}
