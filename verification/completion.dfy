// Tab in the palette (internal/tui/complete.go): which names match, what
// they have in common, and the line that comes of it. The directory a path
// is looked up in, and the prefix matched in it, are given. A line and the
// names are text; what Tab makes of them is bytes, because the prefix that
// several names have in common is cut byte by byte.
module Completion {
  import opened Runs
  import opened Palette
  import opened Utf8

  // ------------------------------------------------------------------
  // Completing again
  // ------------------------------------------------------------------

  lemma LocateSnoc(line: string, c: char)
    ensures Located(line + [c]) == Locate(Located(line), |line|, c)
  {
    assert (line + [c])[..|line|] == line;
  }

  lemma {:induction false} LocateBare(p: string, w: string)
    requires Neutral(Scanned(p)) && w != "" && AllPlain(w)
    ensures Located(p + w) == Location(|p|, None, true)
    decreases |w|
  {
    var n := |w| - 1;
    assert p + w == (p + w[..n]) + [w[n]];
    LocateSnoc(p + w[..n], w[n]);
    if n == 0 {
      ScannersAgree(p);
      assert p + w[..n] == p;
    } else {
      LocateBare(p, w[..n]);
    }
  }

  lemma {:induction false} LocateQuoted(p: string, q: char, w: string)
    requires Neutral(Scanned(p)) && IsQuote(q) && q !in w
    ensures Located(p + [q] + w) == Location(|p|, Some(q), true)
    decreases |w|
  {
    if w == "" {
      ScannersAgree(p);
      LocateSnoc(p, q);
      assert p + [q] + w == p + [q];
    } else {
      var n := |w| - 1;
      LocateQuoted(p, q, w[..n]);
      assert p + [q] + w == (p + [q] + w[..n]) + [w[n]];
      LocateSnoc(p + [q] + w[..n], w[n]);
    }
  }

  lemma QuotedIsLocated(p: string, q: char, s: string)
    requires Neutral(Scanned(p)) && IsQuote(q) && q !in s
    ensures LastArg(p + ([q] + s + [q])) == PathArg(|p|, s, Some(q))
  {
    var w := [q] + s + [q];
    QuotedWordStart(p, q, s);
    assert (p + w)[|p|..] == w;
    QuotedIsUnquoted(q, s);
  }

  lemma QuotedWordStart(p: string, q: char, s: string)
    requires Neutral(Scanned(p)) && IsQuote(q) && q !in s
    ensures WordStart(p + ([q] + s + [q])) == |p|
  {
    Regroup(p, q, s);
    LocateQuoted(p, q, s);
    ClosingStays(p + [q] + s, q, |p|);
  }

  lemma ClosingStays(line: string, q: char, start: nat)
    requires Located(line) == Location(start, Some(q), true)
    ensures WordStart(line + [q]) == start
  {
    LocateSnoc(line, q);
  }

  lemma QuotedIsUnquoted(q: char, s: string)
    requires IsQuote(q)
    ensures Unquoted([q] + s + [q]) == PathArg(0, s, Some(q))
  {
    var w := [q] + s + [q];
    assert w[1..] == s + [q];
    assert (s + [q])[..|s|] == s;
  }

  lemma BareIsLocated(p: string, s: string)
    requires Neutral(Scanned(p)) && s != "" && AllPlain(s)
    ensures LastArg(p + s) == PathArg(|p|, s, None)
  {
    LocateBare(p, s);
    assert (p + s)[|p|..] == s;
  }

  // After a completion Tab finds the completed text where it found the
  // typed one, so it can be completed further.
  lemma CompletionCanGoOn(line: string, p: string, s: string, quote: Option<char>)
    requires p == line[..LastArg(line).start] && quote == LastArg(line).quote
    requires s != "" && Quotable(p, s, quote)
    ensures LastArg(p + QuoteArg(s, quote)).start == |p| && LastArg(p + QuoteArg(s, quote)).text == s
  {
    OpenedWithAQuote(line);
    WordStartIsNeutral(line);
    if quote.Some? {
      QuotedIsLocated(p, quote.value, s);
    } else if exists i :: 0 <= i < |s| && IsBlank(s[i]) {
      assert "'" + s + "'" == ['\''] + s + ['\''];
      QuotedIsLocated(p, '\'', s);
    } else {
      BareIsLocated(p, s);
    }
  }

  // ------------------------------------------------------------------
  // Names in common
  // ------------------------------------------------------------------

  predicate BeginsAll<T(==)>(p: seq<T>, names: seq<seq<T>>) {
    forall i | 0 <= i < |names| :: p <= names[i]
  }

  // p begins every name, and nothing longer does.
  ghost predicate IsLongestCommon<T(!new)>(p: seq<T>, names: seq<seq<T>>) {
    BeginsAll(p, names) && forall q: seq<T> | BeginsAll(q, names) :: q <= p
  }

  lemma CutKeepsCommon<T>(common: seq<T>, names: seq<seq<T>>, i: nat, q: seq<T>)
    requires i < |names| && common != [] && !(common <= names[i]) && BeginsAll(q, names) && q <= common
    ensures q <= common[..|common| - 1]
  {
    assert q <= names[i];
    assert q != common;
  }

  // Cut from the first name until it begins every other.
  method LongestCommonPrefix<T(==,!new)>(names: seq<seq<T>>) returns (common: seq<T>)
    ensures if names == [] then common == [] else IsLongestCommon(common, names)
  {
    if names == [] {
      return [];
    }
    common := names[0];
    var i := 1;
    while i < |names|
      invariant 1 <= i <= |names|
      invariant forall k | 0 <= k < i :: common <= names[k]
      invariant forall q: seq<T> | BeginsAll(q, names) :: q <= common
    {
      while !(common <= names[i])
        invariant forall k | 0 <= k < i :: common <= names[k]
        invariant forall q: seq<T> | BeginsAll(q, names) :: q <= common
        decreases |common|
      {
        forall q: seq<T> | BeginsAll(q, names)
          ensures q <= common[..|common| - 1]
        {
          CutKeepsCommon(common, names, i, q);
        }
        common := common[..|common| - 1];
        if common == [] {
          return;
        }
      }
      i := i + 1;
    }
  }

  function EncodeAll(names: seq<string>): (r: seq<seq<byte>>)
    ensures |r| == |names| && forall i | 0 <= i < |r| :: r[i] == Encode(names[i])
  {
    seq(|names|, i requires 0 <= i < |names| => Encode(names[i]))
  }

  // Where the common bytes end, the name ends or a character of it begins.
  predicate PartsAtACharacter(common: seq<byte>, name: string) {
    |common| < |Encode(name)| ==> !Continues(Encode(name)[|common|])
  }

  predicate EndsOnACharacter(common: seq<byte>, names: seq<string>) {
    forall i | 0 <= i < |names| :: PartsAtACharacter(common, names[i])
  }

  lemma PartIsTextExactly(common: seq<byte>, name: string)
    requires common <= Encode(name)
    ensures IsText(common) <==> PartsAtACharacter(common, name)
  {
    BeginningIsTextExactly(common, name);
    if |common| < |Encode(name)| {
      assert Encode(name)[|common|..][0] == Encode(name)[|common|];
    }
  }

  // It cuts bytes, not characters: what names have in common is whole
  // characters exactly when, where each longer name goes on, it goes on with
  // the first byte of one.
  lemma CommonIsTextExactly(names: seq<string>, common: seq<byte>)
    requires names != [] && IsLongestCommon(common, EncodeAll(names))
    ensures IsText(common) <==> EndsOnACharacter(common, names)
  {
    forall i | 0 <= i < |names|
      ensures IsText(common) <==> PartsAtACharacter(common, names[i])
    {
      assert common <= EncodeAll(names)[i];
      PartIsTextExactly(common, names[i]);
    }
    assert IsText(common) <==> PartsAtACharacter(common, names[0]);
  }

  // Whole characters in common are the longest prefix in characters, too.
  lemma CommonText(names: seq<string>, common: string)
    requires names != [] && IsLongestCommon(Encode(common), EncodeAll(names))
    ensures IsLongestCommon(common, names)
  {
    forall i | 0 <= i < |names|
      ensures common <= names[i]
    {
      assert Encode(common) <= EncodeAll(names)[i];
      PrefixInCharacters(common, names[i]);
    }
    forall q | BeginsAll(q, names)
      ensures q <= common
    {
      ShorterInBytes(q, names, Encode(common));
      PrefixInCharacters(q, common);
    }
  }

  lemma ShorterInBytes(q: string, names: seq<string>, common: seq<byte>)
    requires names != [] && BeginsAll(q, names) && IsLongestCommon(common, EncodeAll(names))
    ensures Encode(q) <= common
  {
    forall i | 0 <= i < |names|
      ensures Encode(q) <= EncodeAll(names)[i]
    {
      assert names[i] == q + names[i][|q|..];
      EncodeAppend(q, names[i][|q|..]);
    }
    assert BeginsAll(Encode(q), EncodeAll(names));
  }

  lemma PartsBy<T>(common: seq<T>, a: seq<T>, b: seq<T>, k: nat)
    requires common <= a && common <= b && k < |a| && k < |b| && a[k] != b[k]
    ensures |common| <= k
  {
    assert forall i | 0 <= i < |common| :: common[i] == a[i] && common[i] == b[i];
  }

  // Half of a character can be all that two names have in common.
  method CommonHalfOfACharacter() returns (common: seq<byte>)
    ensures common == [0xC3] && !IsText(common)
  {
    var names := ["\U{E9}", "\U{E8}"];
    var a, b := Encode(names[0]), Encode(names[1]);
    assert a == [0xC3, 0xA9] && b == [0xC3, 0xA8];
    common := LongestCommonPrefix([a, b]);
    assert BeginsAll([0xC3], [a, b]);
    assert [0xC3] <= common && common <= [a, b][0] && common <= [a, b][1];
    PartsBy(common, a, b, 1);
    assert common == [0xC3];
    assert a[1..] == [0xA9] && !Starts(a[1..]);
    BeginningIsTextExactly(common, names[0]);
  }

  // ------------------------------------------------------------------
  // Matching and completing
  // ------------------------------------------------------------------

  datatype Entry = Entry(name: string, dir: bool)

  // A dotfile is offered only when the prefix asks for one.
  predicate Offered(e: Entry, prefix: string) {
    prefix <= e.name && ("." <= e.name ==> "." <= prefix)
  }

  // Which names Tab offers, character by character: those that go on from
  // what was typed, and of the ones hidden by a dot only those whose dot was
  // typed. So with nothing typed all but the hidden are.
  lemma OfferedExactly(e: Entry, prefix: string)
    ensures Offered(e, prefix) <==>
            && |prefix| <= |e.name| && (forall i | 0 <= i < |prefix| :: e.name[i] == prefix[i])
            && (e.name != "" && e.name[0] == '.' ==> prefix != "" && prefix[0] == '.')
    ensures Offered(e, "") <==> e.name == "" || e.name[0] != '.'
  {
    assert "." <= e.name <==> e.name != "" && e.name[0] == '.';
    assert "." <= prefix <==> prefix != "" && prefix[0] == '.';
  }

  // That the name begins with the prefix is compared byte by byte, too.
  lemma BeginsInBytes(prefix: string, name: string)
    ensures Encode(prefix) <= Encode(name) <==> prefix <= name
  {
    if Encode(prefix) <= Encode(name) {
      PrefixInCharacters(prefix, name);
    } else if prefix <= name {
      assert name == prefix + name[|prefix|..];
      EncodeAppend(prefix, name[|prefix|..]);
    }
  }

  // The offered ones, in the order of the directory.
  function Matches(items: seq<Entry>, prefix: string): seq<Entry> {
    if items == [] then []
    else
      var n := |items| - 1;
      Matches(items[..n], prefix) + if Offered(items[n], prefix) then [items[n]] else []
  }

  // at says where each match stands: every offered item is a match, once,
  // and the matches keep the items' order.
  lemma {:induction false} MatchesExactly(items: seq<Entry>, prefix: string) returns (at: seq<nat>)
    ensures |at| == |Matches(items, prefix)|
    ensures forall k | 0 <= k < |at| :: at[k] < |items| && items[at[k]] == Matches(items, prefix)[k]
    ensures forall j, k | 0 <= j < k < |at| :: at[j] < at[k]
    ensures forall i: nat | i < |items| :: i in at <==> Offered(items[i], prefix)
    decreases |items|
  {
    if items == [] {
      at := [];
    } else {
      var n := |items| - 1;
      var before := MatchesExactly(items[..n], prefix);
      at := before + if Offered(items[n], prefix) then [n] else [];
      forall i: nat | i < |items|
        ensures i in at <==> Offered(items[i], prefix)
      {
        assert i < n ==> items[..n][i] == items[i];
        assert i == n ==> i !in before;
      }
    }
  }

  lemma MatchesAreOffered(items: seq<Entry>, prefix: string)
    ensures forall e :: e in Matches(items, prefix) <==> e in items && Offered(e, prefix)
  {
    var at := MatchesExactly(items, prefix);
    forall e | e in items && Offered(e, prefix)
      ensures e in Matches(items, prefix)
    {
      var i :| 0 <= i < |items| && items[i] == e;
      assert i in at;
    }
    forall e | e in Matches(items, prefix)
      ensures e in items && Offered(e, prefix)
    {
      var k :| 0 <= k < |at| && Matches(items, prefix)[k] == e;
      assert at[k] in at;
    }
  }

  method MatchesIn(items: seq<Entry>, prefix: string) returns (found: seq<Entry>)
    ensures found == Matches(items, prefix)
  {
    found := [];
    var i := 0;
    while i < |items|
      invariant 0 <= i <= |items| && found == Matches(items[..i], prefix)
    {
      assert items[..i + 1][..i] == items[..i];
      if Offered(items[i], prefix) {
        found := found + [items[i]];
      }
      i := i + 1;
    }
    assert items[..i] == items;
  }

  function TrimSuffix(s: string, suffix: string): string {
    if EndsIn(s, suffix) then s[..|s| - |suffix|] else s
  }

  function JoinCompletion(typed: string, prefix: string, e: Entry): string {
    TrimSuffix(typed, prefix) + e.name + if e.dir then "/" else ""
  }

  predicate EndsIn(s: string, suffix: string) {
    |suffix| <= |s| && s[|s| - |suffix|..] == suffix
  }

  // The completed text goes on from what was typed when the typed text ends
  // in the prefix; when it does not, as with a lone ~, the whole name is
  // put after it.
  lemma JoinGoesOn(typed: string, prefix: string, e: Entry)
    requires prefix <= e.name
    ensures var rest := e.name[|prefix|..] + if e.dir then "/" else "";
            JoinCompletion(typed, prefix, e) == if EndsIn(typed, prefix) then typed + rest else typed + prefix + rest
  {
    var more := e.name[|prefix|..];
    assert e.name == prefix + more;
    if EndsIn(typed, prefix) {
      SuffixBack(typed, prefix);
      assert TrimSuffix(typed, prefix) + (prefix + more) == (TrimSuffix(typed, prefix) + prefix) + more;
    } else {
      assert typed + (prefix + more) == typed + prefix + more;
    }
  }

  // Where the typed text is the prefix itself, what is completed is the name.
  lemma JoinOfAName(prefix: string, e: Entry)
    requires prefix <= e.name
    ensures JoinCompletion(prefix, prefix, e) == e.name + if e.dir then "/" else ""
  {
    assert prefix[|prefix| - |prefix|..] == prefix;
  }

  lemma JoinExtends(typed: string, prefix: string, e: Entry)
    requires prefix <= e.name
    ensures typed <= JoinCompletion(typed, prefix, e)
  {
    JoinGoesOn(typed, prefix, e);
  }

  lemma SuffixBack(typed: string, prefix: string)
    requires EndsIn(typed, prefix)
    ensures TrimSuffix(typed, prefix) + prefix == typed
  {
  }

  predicate IsNotAPath(s: string) {
    "magnet:" <= s || "http://" <= s || "https://" <= s
  }

  // An argument is no path exactly when it begins as a link does.
  lemma LinksAreNoPaths(s: string)
    ensures IsNotAPath(s) <==> exists n :: 0 <= n <= |s| && s[..n] in {"magnet:", "http://", "https://"}
  {
    assert "magnet:" <= s ==> s[..7] == "magnet:";
    assert "http://" <= s ==> s[..7] == "http://";
    assert "https://" <= s ==> s[..8] == "https://";
  }

  function NamesOf(es: seq<Entry>): (names: seq<string>)
    ensures |names| == |es| && forall i | 0 <= i < |es| :: names[i] == es[i].name
  {
    seq(|es|, i requires 0 <= i < |es| => es[i].name)
  }

  // Whether Tab does anything on this line at all.
  predicate Completes(line: string, pathCommands: set<string>) {
    && Args(line) != [] && Args(line)[0] in pathCommands
    && LastArg(line).start != 0 && !IsNotAPath(LastArg(line).text)
  }

  // The line with the argument Tab is on replaced.
  function Replaced(line: string, prefix: string, e: Entry): string {
    var a := LastArg(line);
    line[..a.start] + QuoteArg(JoinCompletion(a.text, prefix, e), a.quote)
  }

  // quoteArg on bytes: a blank is a byte of its own.
  function QuoteBytes(s: seq<byte>, quote: Option<char>): seq<byte> {
    if quote.Some? then Encode([quote.value]) + s + Encode([quote.value])
    else if ' ' as nat in s || '\t' as nat in s then Encode("'") + s + Encode("'")
    else s
  }

  // The line with the argument Tab is on extended to these bytes.
  function ReplacedBytes(line: string, prefix: string, common: seq<byte>): seq<byte> {
    var a := LastArg(line);
    Encode(line[..a.start]) + QuoteBytes(Encode(TrimSuffix(a.text, prefix)) + common, a.quote)
  }

  // What several matches make of the line: it grows to the bytes they have
  // in common, if those are more than was typed.
  ghost predicate Extended(line: string, prefix: string, matches: seq<Entry>, completed: seq<byte>) {
    exists common: seq<byte> ::
      && IsLongestCommon(common, EncodeAll(NamesOf(matches))) && Encode(prefix) <= common
      && completed == if common == Encode(prefix) then Encode(line) else ReplacedBytes(line, prefix, common)
  }

  method CompletePath(line: string, pathCommands: set<string>, prefix: string, items: seq<Entry>)
    returns (completed: seq<byte>, candidates: seq<string>)
    ensures !Completes(line, pathCommands) || Matches(items, prefix) == [] ==>
              completed == Encode(line) && candidates == []
    ensures var found := Matches(items, prefix);
            Completes(line, pathCommands) && |found| == 1 ==>
              completed == Encode(Replaced(line, prefix, found[0])) && candidates == []
    ensures var found := Matches(items, prefix);
            Completes(line, pathCommands) && |found| > 1 ==>
              candidates == NamesOf(found) && Extended(line, prefix, found, completed)
  {
    var fields := SplitArgs(line);
    if |fields| == 0 || fields[0] !in pathCommands {
      return Encode(line), [];
    }
    var arg := LastPathArg(line);
    if arg.start == 0 || IsNotAPath(arg.text) {
      return Encode(line), [];
    }
    var found := MatchesIn(items, prefix);
    if |found| == 0 {
      return Encode(line), [];
    }
    if |found| == 1 {
      return Encode(line[..arg.start] + QuoteArg(JoinCompletion(arg.text, prefix, found[0]), arg.quote)), [];
    }
    candidates := NamesOf(found);
    var common := LongestCommonPrefix(EncodeAll(candidates));
    MatchesAreOffered(items, prefix);
    PrefixInCommon(found, prefix, common);
    completed := Encode(line);
    if |common| > |Encode(prefix)| {
      completed := Encode(line[..arg.start]) + QuoteBytes(Encode(TrimSuffix(arg.text, prefix)) + common, arg.quote);
    }
    assert Extended(line, prefix, found, completed);
  }

  lemma PrefixInCommon(found: seq<Entry>, prefix: string, common: seq<byte>)
    requires found != [] && (forall e | e in found :: Offered(e, prefix))
    requires IsLongestCommon(common, EncodeAll(NamesOf(found)))
    ensures Encode(prefix) <= common && (|common| <= |Encode(prefix)| ==> common == Encode(prefix))
  {
    forall i | 0 <= i < |found|
      ensures prefix <= NamesOf(found)[i]
    {
      assert found[i] in found;
    }
    ShorterInBytes(prefix, NamesOf(found), common);
  }

  // ---- when the completed line is text ----

  // On text, quoting bytes is quoting characters.
  lemma QuoteEncodes(s: string, quote: Option<char>)
    ensures QuoteBytes(Encode(s), quote) == Encode(QuoteArg(s, quote))
  {
    if quote.Some? {
      AroundText([quote.value], s, [quote.value]);
    } else {
      AsciiIsItself(s, ' ');
      AsciiIsItself(s, '\t');
      AroundText("'", s, "'");
    }
  }

  lemma ReplacedEncodes(line: string, prefix: string, common: string)
    ensures ReplacedBytes(line, prefix, Encode(common)) == Encode(Replaced(line, prefix, Entry(common, false)))
  {
    var a := LastArg(line);
    var trimmed := TrimSuffix(a.text, prefix);
    EncodeAppend(trimmed, common);
    assert trimmed + common + "" == trimmed + common;
    QuoteEncodes(trimmed + common, a.quote);
    EncodeAppend(line[..a.start], QuoteArg(trimmed + common, a.quote));
  }

  // The text around the bytes that quoting puts into the line.
  function Around(quote: Option<char>, s: seq<byte>): string {
    if quote.Some? then [quote.value] else if ' ' as nat in s || '\t' as nat in s then "'" else ""
  }

  lemma QuotedAround(s: seq<byte>, quote: Option<char>)
    ensures QuoteBytes(s, quote) == Encode(Around(quote, s)) + s + Encode(Around(quote, s))
  {
  }

  lemma Regrouped(line: seq<byte>, q: seq<byte>, trimmed: seq<byte>, common: seq<byte>)
    ensures line + (q + (trimmed + common) + q) == (line + q + trimmed) + common + q
  {
  }

  lemma ReplacedIsTextExactly(line: string, prefix: string, common: seq<byte>)
    ensures IsText(ReplacedBytes(line, prefix, common)) <==> IsText(common)
  {
    var a := LastArg(line);
    var trimmed := TrimSuffix(a.text, prefix);
    var s := Encode(trimmed) + common;
    var q := Around(a.quote, s);
    QuotedAround(s, a.quote);
    var before := line[..a.start] + q + trimmed;
    AroundText(line[..a.start], q, trimmed);
    Regrouped(Encode(line[..a.start]), Encode(q), Encode(trimmed), common);
    BetweenTextsExactly(before, common, q);
  }

  // What Tab makes of several matches is a line of text exactly when the
  // names part at the first byte of a character; then it is the line with
  // the longest prefix the names have in common put in, if that is more than
  // was typed. Otherwise Tab leaves half a character in the line.
  lemma CompletedIsTextExactly(line: string, prefix: string, matches: seq<Entry>, common: seq<byte>)
    requires matches != [] && IsLongestCommon(common, EncodeAll(NamesOf(matches))) && common != Encode(prefix)
    ensures IsText(ReplacedBytes(line, prefix, common)) <==> EndsOnACharacter(common, NamesOf(matches))
    ensures EndsOnACharacter(common, NamesOf(matches)) ==>
              exists c :: IsLongestCommon(c, NamesOf(matches)) && Encode(c) == common
                     && ReplacedBytes(line, prefix, common) == Encode(Replaced(line, prefix, Entry(c, false)))
  {
    ReplacedIsTextExactly(line, prefix, common);
    CommonIsTextExactly(NamesOf(matches), common);
    if c :| Encode(c) == common {
      CommonText(NamesOf(matches), c);
      ReplacedEncodes(line, prefix, c);
    }
  }

  // One match, put together: Enter then runs the same arguments with the
  // completed text last, and a second Tab goes on from it.
  lemma OneMatchReadsBack(line: string, prefix: string, e: Entry, p: string, a: PathArg, joined: string)
    requires Offered(e, prefix) && a == LastArg(line) && p == line[..a.start]
    requires joined == JoinCompletion(a.text, prefix, e) && joined != "" && Quotable(p, joined, a.quote)
    ensures Args(p + QuoteArg(joined, a.quote)) == ArgsBefore(p) + [joined]
    ensures a.text <= joined && LastArg(p + QuoteArg(joined, a.quote)).text == joined
  {
    CompletionReadsBack(line, p, joined, a.quote);
    CompletionCanGoOn(line, p, joined, a.quote);
    JoinExtends(a.text, prefix, e);
  }
}
