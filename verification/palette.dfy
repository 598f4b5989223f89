// The palette's two readers of a command line (internal/tui/palette.go,
// complete.go): splitArgs, which cuts it into arguments, and lastPathArg,
// which finds the argument Tab completes; and quoteArg, which puts a
// completed argument back.
module Palette {
  import opened Runs

  // What unicode.IsSpace, and so strings.TrimSpace, takes for a space.
  predicate IsSpace(c: char) {
    var n := c as int;
    || 9 <= n <= 13 || n == 0x20 || n == 0x85 || n == 0xA0 || n == 0x1680 || 0x2000 <= n <= 0x200A
    || n == 0x2028 || n == 0x2029 || n == 0x202F || n == 0x205F || n == 0x3000
  }

  // The code points with the White_Space property, one by one.
  const WHITE_SPACE: set<int> := {
    0x09, 0x0A, 0x0B, 0x0C, 0x0D, 0x20, 0x85, 0xA0, 0x1680, 0x2000, 0x2001, 0x2002, 0x2003, 0x2004, 0x2005, 0x2006,
    0x2007, 0x2008, 0x2009, 0x200A, 0x2028, 0x2029, 0x202F, 0x205F, 0x3000}

  lemma SpacesAre(c: char)
    ensures IsSpace(c) <==> c as int in WHITE_SPACE
  {
  }

  predicate IsQuote(c: char) {
    c == '\'' || c == '"'
  }

  predicate IsBlank(c: char) {
    c == ' ' || c == '\t'
  }

  // Neither ends a word nor begins a quoted run.
  predicate IsPlain(c: char) {
    !IsQuote(c) && !IsBlank(c)
  }

  function TrimLeft(s: string): (r: string)
    ensures |r| <= |s| && r == s[|s| - |r|..]
    ensures r == s <==> s == "" || !IsSpace(s[0])
  {
    if s != "" && IsSpace(s[0]) then TrimLeft(s[1..]) else s
  }

  function TrimRight(s: string): (r: string)
    ensures |r| <= |s| && r == s[..|r|]
    ensures r == s <==> s == "" || !IsSpace(s[|s| - 1])
  {
    if s != "" && IsSpace(s[|s| - 1]) then TrimRight(s[..|s| - 1]) else s
  }

  function TrimSpace(s: string): string {
    TrimRight(TrimLeft(s))
  }

  // ------------------------------------------------------------------
  // splitArgs
  // ------------------------------------------------------------------

  //  open   cur holds an argument, even an empty one
  datatype Scan = Scan(args: seq<string>, cur: string, quote: Option<char>, open: bool)

  function Next(s: Scan, c: char): Scan {
    if s.quote.Some? then
      if c == s.quote.value then s.(quote := None) else s.(cur := s.cur + [c])
    else if IsQuote(c) then s.(quote := Some(c), open := true)
    else if IsBlank(c) then
      if s.open || s.cur != "" then Scan(s.args + [s.cur], "", None, false) else s
    else s.(cur := s.cur + [c])
  }

  function Scanned(line: string): Scan {
    if line == "" then Scan([], "", None, false) else Next(Scanned(line[..|line| - 1]), line[|line| - 1])
  }

  function Finish(s: Scan): seq<string> {
    if s.open || s.cur != "" then s.args + [s.cur] else s.args
  }

  function Args(line: string): seq<string> {
    Finish(Scanned(TrimSpace(line)))
  }

  // The loop of splitArgs, over the trimmed line.
  method ScanLine(line: string) returns (args: seq<string>)
    ensures args == Finish(Scanned(line))
  {
    args := [];
    var cur, quote, open: bool := "", None, false;
    var i := 0;
    while i < |line|
      invariant 0 <= i <= |line|
      invariant Scan(args, cur, quote, open) == Scanned(line[..i])
    {
      assert line[..i + 1][..i] == line[..i];
      var r := line[i];
      if quote.Some? {
        if r == quote.value {
          quote := None;
        } else {
          cur := cur + [r];
        }
      } else if r == '\'' || r == '"' {
        quote, open := Some(r), true;
      } else if r == ' ' || r == '\t' {
        if open || cur != "" {
          args, cur, open := args + [cur], "", false;
        }
      } else {
        cur := cur + [r];
      }
      i := i + 1;
    }
    assert line[..|line|] == line;
    if open || cur != "" {
      args := args + [cur];
    }
  }

  method SplitArgs(line: string) returns (args: seq<string>)
    ensures args == Args(line)
  {
    args := ScanLine(TrimSpace(line));
  }

  // ------------------------------------------------------------------
  // lastPathArg
  // ------------------------------------------------------------------

  datatype Location = Location(start: nat, quote: Option<char>, inWord: bool)

  function Locate(l: Location, i: nat, c: char): Location {
    if l.quote.Some? then
      if c == l.quote.value then l.(quote := None) else l
    else if IsQuote(c) then Location(if l.inWord then l.start else i, Some(c), true)
    else if IsBlank(c) then Location(i + 1, None, false)
    else if l.inWord then l else l.(start := i, inWord := true)
  }

  function Located(line: string): (l: Location)
    ensures l.start <= |line|
  {
    if line == "" then Location(0, None, false)
    else Locate(Located(line[..|line| - 1]), |line| - 1, line[|line| - 1])
  }

  // The argument a line ends on: where it begins, its text without its
  // quotes, and the quote it was opened with.
  datatype PathArg = PathArg(start: nat, text: string, quote: Option<char>)

  function WordStart(line: string): (start: nat)
    ensures start <= |line|
  {
    var l := Located(line);
    if !l.inWord && l.quote.None? then |line| else l.start
  }

  function Unquoted(raw: string): PathArg {
    if raw != "" && IsQuote(raw[0]) then
      var body := raw[1..];
      var text := if body != "" && body[|body| - 1] == raw[0] then body[..|body| - 1] else body;
      PathArg(0, text, Some(raw[0]))
    else PathArg(0, raw, None)
  }

  function LastArg(line: string): (a: PathArg)
    ensures a.start <= |line|
  {
    Unquoted(line[WordStart(line)..]).(start := WordStart(line))
  }

  method LastPathArg(line: string) returns (arg: PathArg)
    ensures arg == LastArg(line)
  {
    var start: nat := |line|;
    var quote, inWord := None, false;
    var i := 0;
    while i < |line|
      invariant 0 <= i <= |line|
      invariant Located(line[..i]) == Location(if i == 0 then 0 else start, quote, inWord)
    {
      assert line[..i + 1][..i] == line[..i];
      var r := line[i];
      if quote.Some? {
        if r == quote.value {
          quote := None;
        }
      } else if r == '\'' || r == '"' {
        if !inWord {
          start, inWord := i, true;
        }
        quote := Some(r);
      } else if r == ' ' || r == '\t' {
        if inWord {
          inWord := false;
        }
        start := i + 1;
      } else {
        if !inWord {
          start, inWord := i, true;
        }
      }
      i := i + 1;
    }
    assert line[..|line|] == line;
    if !inWord && quote.None? {
      start := |line|;
    }
    var raw := line[start..];
    var q: Option<char> := None;
    if raw != "" && (raw[0] == '\'' || raw[0] == '"') {
      q := Some(raw[0]);
      raw := raw[1..];
      if raw != "" && raw[|raw| - 1] == q.value {
        raw := raw[..|raw| - 1];
      }
    }
    arg := PathArg(start, raw, q);
  }

  // ------------------------------------------------------------------
  // quoteArg
  // ------------------------------------------------------------------

  function QuoteArg(s: string, quote: Option<char>): string {
    if quote.Some? then [quote.value] + s + [quote.value]
    else if exists i :: 0 <= i < |s| && IsBlank(s[i]) then "'" + s + "'"
    else s
  }

  // ------------------------------------------------------------------
  // The two scanners agree
  // ------------------------------------------------------------------

  // Between words.
  predicate Neutral(s: Scan) {
    s.quote.None? && s.cur == "" && !s.open
  }

  lemma ScanSnoc(line: string, c: char)
    ensures Scanned(line + [c]) == Next(Scanned(line), c)
  {
    assert (line + [c])[..|line|] == line;
  }

  // They are inside the same quotes and inside a word at the same time, and
  // where lastPathArg says a word begins, splitArgs is between words.
  lemma {:induction false} ScannersAgree(line: string)
    ensures var s, l := Scanned(line), Located(line);
            && s.quote == l.quote && (l.inWord <==> s.open || s.cur != "")
            && (l.quote.Some? ==> l.inWord && IsQuote(l.quote.value))
            && Neutral(Scanned(if l.inWord then line[..l.start] else line))
    decreases |line|
  {
    if line != "" {
      var before := line[..|line| - 1];
      ScannersAgree(before);
      var l := Located(before);
      assert before[..l.start] == line[..l.start];
    }
  }

  lemma WordStartIsNeutral(line: string)
    ensures Neutral(Scanned(line[..WordStart(line)]))
  {
    ScannersAgree(line);
    assert line[..|line|] == line;
  }

  // ------------------------------------------------------------------
  // Trimming does not move a word start
  // ------------------------------------------------------------------

  lemma {:induction false} NeutralExactly(line: string)
    ensures Neutral(Scanned(line)) <==> Scanned(line).quote.None? && (line == "" || IsBlank(line[|line| - 1]))
    decreases |line|
  {
    if line != "" {
      var s, c := Scanned(line[..|line| - 1]), line[|line| - 1];
      ScannersAgree(line[..|line| - 1]);
      assert s.quote.Some? ==> s.open || s.cur != "";
      if s.quote.None? && !IsBlank(c) && !IsQuote(c) {
        assert Next(s, c).cur == s.cur + [c];
      }
    }
  }

  lemma {:induction false} QuoteIgnoresLead(c: char, line: string)
    requires !IsQuote(c)
    ensures Scanned([c] + line).quote == Scanned(line).quote
    decreases |line|
  {
    if line == "" {
      ScanSnoc("", c);
      assert "" + [c] == [c] + line;
    } else {
      var n := |line| - 1;
      QuoteIgnoresLead(c, line[..n]);
      assert ([c] + line)[..n + 1] == [c] + line[..n];
    }
  }

  lemma {:induction false} TrimLeftNeutral(p: string)
    requires Neutral(Scanned(p))
    ensures Neutral(Scanned(TrimLeft(p)))
    decreases |p|
  {
    if p != "" && IsSpace(p[0]) {
      QuoteIgnoresLead(p[0], p[1..]);
      assert [p[0]] + p[1..] == p;
      NeutralExactly(p);
      NeutralExactly(p[1..]);
      TrimLeftNeutral(p[1..]);
    }
  }

  lemma {:induction false} TrimLeftAppend(p: string, w: string)
    ensures TrimLeft(p + w) == if TrimLeft(p) == "" then TrimLeft(w) else TrimLeft(p) + w
    decreases |p|
  {
    if p == "" {
      assert p + w == w;
    } else if IsSpace(p[0]) {
      assert (p + w)[1..] == p[1..] + w;
      TrimLeftAppend(p[1..], w);
    }
  }

  // ------------------------------------------------------------------
  // No scan makes characters up
  // ------------------------------------------------------------------

  function Total(args: seq<string>): nat {
    if args == [] then 0 else Total(args[..|args| - 1]) + |args[|args| - 1]|
  }

  // The characters a scan has kept.
  function Kept(s: Scan): nat {
    Total(s.args) + |s.cur|
  }

  lemma TotalSnoc(args: seq<string>, a: string)
    ensures Total(args + [a]) == Total(args) + |a|
  {
    assert (args + [a])[..|args|] == args;
  }

  lemma FinishKeeps(s: Scan)
    ensures Total(Finish(s)) == Kept(s)
  {
    TotalSnoc(s.args, s.cur);
  }

  lemma NextKeeps(s: Scan, c: char)
    ensures Kept(Next(s, c)) == Kept(s) + if (if s.quote.Some? then c != s.quote.value else IsPlain(c)) then 1 else 0
  {
    TotalSnoc(s.args, s.cur);
  }

  lemma {:induction false} ScanKeeps(p: string, x: string)
    ensures Kept(Scanned(p)) <= Kept(Scanned(p + x)) <= Kept(Scanned(p)) + |x|
    decreases |x|
  {
    if x == "" {
      assert p + x == p;
    } else {
      var n := |x| - 1;
      ScanKeeps(p, x[..n]);
      assert p + x == (p + x[..n]) + [x[n]];
      ScanSnoc(p + x[..n], x[n]);
      NextKeeps(Scanned(p + x[..n]), x[n]);
    }
  }

  // ------------------------------------------------------------------
  // One more word after a word start
  // ------------------------------------------------------------------

  predicate AllPlain(w: string) {
    forall i | 0 <= i < |w| :: IsPlain(w[i])
  }

  // Reading w has come to s from between words at s0.
  ghost predicate BareRead(s0: Scan, w: string, s: Scan) {
    if AllPlain(w) then s == s0.(cur := w) else Kept(s) < Kept(s0) + |w|
  }

  lemma BareNext(s0: Scan, w: string, s: Scan, c: char)
    requires Neutral(s0) && BareRead(s0, w, s)
    ensures BareRead(s0, w + [c], Next(s, c))
  {
    NextKeeps(s, c);
    assert (w + [c])[|w|] == c;
    if AllPlain(w + [c]) {
      assert forall i | 0 <= i < |w| :: w[i] == (w + [c])[i];
    }
  }

  lemma {:induction false} ScanBare(p: string, w: string)
    requires Neutral(Scanned(p))
    ensures BareRead(Scanned(p), w, Scanned(p + w))
    decreases |w|
  {
    if w == "" {
      assert p + w == p;
    } else {
      var n := |w| - 1;
      ScanBare(p, w[..n]);
      assert p + w == (p + w[..n]) + [w[n]] && w == w[..n] + [w[n]];
      ScanSnoc(p + w[..n], w[n]);
      BareNext(Scanned(p), w[..n], Scanned(p + w[..n]), w[n]);
    }
  }

  // After an opening quote: the run goes on as long as the quote does not
  // come again; once it has, characters have been lost for good.
  lemma {:induction false} ScanQuoted(p: string, q: char, w: string)
    requires Neutral(Scanned(p)) && IsQuote(q)
    ensures var s := Scanned(p + [q] + w);
            && (q !in w ==> s == Scanned(p).(cur := w, quote := Some(q), open := true))
            && (q in w && s.quote.None? ==> Kept(s) + 1 <= Kept(Scanned(p)) + |w|)
            && (q in w && s.quote.Some? ==> Kept(s) + 2 <= Kept(Scanned(p)) + |w|)
    decreases |w|
  {
    if w == "" {
      ScanSnoc(p, q);
      assert p + [q] + w == p + [q];
    } else {
      var n := |w| - 1;
      var before := p + [q] + w[..n];
      ScanQuoted(p, q, w[..n]);
      assert p + [q] + w == before + [w[n]] && w == w[..n] + [w[n]];
      ScanSnoc(before, w[n]);
      NextKeeps(Scanned(before), w[n]);
    }
  }

  // ------------------------------------------------------------------
  // What splitArgs reads after a word start
  // ------------------------------------------------------------------

  // The arguments before a word start.
  function ArgsBefore(p: string): seq<string> {
    Scanned(TrimLeft(p)).args
  }

  lemma KeptBefore(p: string)
    requires Neutral(Scanned(p))
    ensures Neutral(Scanned(TrimLeft(p))) && Kept(Scanned(TrimLeft(p))) == Total(ArgsBefore(p))
  {
    TrimLeftNeutral(p);
  }

  // A shorter line keeps no more.
  lemma PrefixKeeps(left: string, w: string, x: string)
    requires |x| < |left| + |w| && x == (left + w)[..|x|]
    ensures Total(Finish(Scanned(x))) < Kept(Scanned(left)) + |w| || w == ""
  {
    FinishKeeps(Scanned(x));
    if |x| <= |left| {
      assert x + left[|x|..] == left;
      ScanKeeps(x, left[|x|..]);
    } else {
      assert x == left + w[..|x| - |left|];
      ScanKeeps(left, w[..|x| - |left|]);
    }
  }

  // Neither end of w is a space to be trimmed.
  predicate Whole(p: string, w: string)
    requires w != ""
  {
    !IsSpace(w[|w| - 1]) && (TrimLeft(p) == "" ==> !IsSpace(w[0]))
  }

  // splitArgs scans p without its leading spaces and then w, if w is
  // whole; otherwise characters of w are lost.
  lemma WholeLine(p: string, w: string)
    requires w != "" && Whole(p, w)
    ensures TrimSpace(p + w) == TrimLeft(p) + w
  {
    TrimLeftAppend(p, w);
    NothingToTrim(TrimLeft(p), w);
  }

  lemma NothingToTrim(left: string, w: string)
    requires w != "" && !IsSpace(w[|w| - 1])
    ensures TrimRight(left + w) == left + w
    ensures left == "" ==> left + w == w
    ensures !IsSpace(w[0]) ==> TrimLeft(w) == w
  {
    assert (left + w)[|left + w| - 1] == w[|w| - 1];
  }

  lemma CutLine(p: string, w: string)
    requires w != "" && Neutral(Scanned(p)) && !Whole(p, w)
    ensures Total(Args(p + w)) < Total(ArgsBefore(p)) + |w|
  {
    CutIs(p, w);
    KeptBefore(p);
    CutReads(TrimLeft(p), w, TrimSpace(p + w), Total(ArgsBefore(p)));
  }

  // What is left of a line that is not whole.
  predicate Cut(left: string, w: string, x: string) {
    if left == "" then |x| < |w| else |x| < |left| + |w| && x == (left + w)[..|x|]
  }

  lemma CutIs(p: string, w: string)
    requires w != "" && !Whole(p, w)
    ensures Cut(TrimLeft(p), w, TrimSpace(p + w))
  {
    TrimLeftAppend(p, w);
    if TrimLeft(p) == "" {
      CutBothEnds(w, TrimLeft(w));
    } else {
      CutRight(TrimLeft(p) + w, w);
    }
  }

  lemma CutBothEnds(w: string, y: string)
    requires w != "" && y == TrimLeft(w) && (IsSpace(w[|w| - 1]) || IsSpace(w[0]))
    ensures |TrimRight(y)| < |w|
  {
    if y == w {
      CutRight(w, w);
    }
  }

  lemma CutRight(y: string, w: string)
    requires y != "" && w != "" && |w| <= |y| && y[|y| - 1] == w[|w| - 1] && IsSpace(w[|w| - 1])
    ensures |TrimRight(y)| < |y| && TrimRight(y) == y[..|TrimRight(y)|]
  {
  }

  lemma CutReads(left: string, w: string, x: string, before: nat)
    requires w != "" && Cut(left, w, x) && Kept(Scanned(left)) == before
    ensures Total(Finish(Scanned(x))) < before + |w|
  {
    if left == "" {
      CutAlone(w, x);
    } else {
      PrefixKeeps(left, w, x);
    }
  }

  lemma CutAlone(w: string, x: string)
    requires |x| < |w|
    ensures Total(Finish(Scanned(x))) < |w|
  {
    assert "" + x == x;
    FinishKeeps(Scanned(x));
    ScanKeeps("", x);
  }

  // A bare word is read as it stands exactly when nothing in it is special
  // and nothing of it is trimmed.
  lemma BareWordReads(p: string, w: string)
    requires w != "" && Neutral(Scanned(p))
    ensures Args(p + w) == ArgsBefore(p) + [w] <==> AllPlain(w) && Whole(p, w)
  {
    TotalSnoc(ArgsBefore(p), w);
    if Whole(p, w) {
      WholeLine(p, w);
      KeptBefore(p);
      ScanBare(TrimLeft(p), w);
      FinishKeeps(Scanned(TrimLeft(p) + w));
    } else {
      CutLine(p, w);
    }
  }

  // A quoted run that is closed is read as its text exactly when the text
  // does not hold the quote itself.
  lemma ClosedRunReads(p: string, q: char, text: string)
    requires IsQuote(q) && Neutral(Scanned(p))
    ensures Args(p + ([q] + text + [q])) == ArgsBefore(p) + [text] <==> q !in text
  {
    ClosedRunLine(p, q, text);
    KeptBefore(p);
    ScanClosed(TrimLeft(p), q, text);
    TotalSnoc(ArgsBefore(p), text);
  }

  lemma ClosedRunLine(p: string, q: char, text: string)
    requires IsQuote(q)
    ensures TrimSpace(p + ([q] + text + [q])) == (TrimLeft(p) + [q] + text) + [q]
  {
    var w := [q] + text + [q];
    QuotedEnds(p, w);
    Regroup(TrimLeft(p), q, text);
  }

  lemma Regroup(left: string, q: char, text: string)
    ensures left + ([q] + text + [q]) == (left + [q] + text) + [q]
  {
  }

  lemma QuotedEnds(p: string, w: string)
    requires w != "" && IsQuote(w[0]) && IsQuote(w[|w| - 1])
    ensures TrimSpace(p + w) == TrimLeft(p) + w
  {
    assert !IsSpace('\'') && !IsSpace('"');
    WholeLine(p, w);
  }

  lemma ScanClosed(left: string, q: char, text: string)
    requires IsQuote(q) && Neutral(Scanned(left))
    ensures var args := Finish(Scanned((left + [q] + text) + [q]));
            && (q !in text ==> args == Scanned(left).args + [text])
            && (q in text ==> Total(args) < Kept(Scanned(left)) + |text|)
  {
    ScanQuoted(left, q, text);
    ScanSnoc(left + [q] + text, q);
    NextKeeps(Scanned(left + [q] + text), q);
    FinishKeeps(Scanned((left + [q] + text) + [q]));
  }

  // One that is not closed loses any spaces it ends in.
  lemma OpenRunReads(p: string, q: char, text: string)
    requires IsQuote(q) && Neutral(Scanned(p))
    ensures Args(p + ([q] + text)) == ArgsBefore(p) + [text] <==>
              q !in text && (text == "" || !IsSpace(text[|text| - 1]))
  {
    TotalSnoc(ArgsBefore(p), text);
    KeptBefore(p);
    var left := TrimLeft(p);
    var kept := TrimRight(text);
    OpenRunLine(p, q, text);
    ScanQuoted(left, q, kept);
    FinishKeeps(Scanned(left + [q] + kept));
  }

  lemma LeadingQuoteStays(p: string, w: string)
    requires w != "" && IsQuote(w[0])
    ensures TrimLeft(p + w) == TrimLeft(p) + w
  {
    assert !IsSpace('\'') && !IsSpace('"');
    TrimLeftAppend(p, w);
    if TrimLeft(p) == "" {
      assert TrimLeft(p) + w == w;
    }
  }

  lemma OpenRunLine(p: string, q: char, text: string)
    requires IsQuote(q)
    ensures TrimSpace(p + ([q] + text)) == TrimLeft(p) + [q] + TrimRight(text)
  {
    var left, w := TrimLeft(p), [q] + text;
    assert w[0] == q;
    LeadingQuoteStays(p, w);
    RegroupOpen(left, q, text);
    QuoteEndsTrim(left, q, text);
  }

  lemma RegroupOpen(left: string, q: char, text: string)
    ensures left + ([q] + text) == (left + [q]) + text
  {
  }

  lemma QuoteEndsTrim(left: string, q: char, text: string)
    requires IsQuote(q)
    ensures TrimRight((left + [q]) + text) == (left + [q]) + TrimRight(text)
  {
    assert !IsSpace('\'') && !IsSpace('"');
    TrimRightAppend(left + [q], text);
  }

  lemma {:induction false} TrimRightAppend(a: string, text: string)
    requires a != "" && !IsSpace(a[|a| - 1])
    ensures TrimRight(a + text) == a + TrimRight(text)
    decreases |text|
  {
    if text != "" && IsSpace(text[|text| - 1]) {
      assert (a + text)[..|a + text| - 1] == a + text[..|text| - 1];
      TrimRightAppend(a, text[..|text| - 1]);
    }
  }

  // ------------------------------------------------------------------
  // The arguments before the word are the line before it, read alone
  // ------------------------------------------------------------------

  function TrimBlanks(s: string): (r: string)
    ensures |r| <= |s| && r == s[..|r|] && (r == "" || !IsBlank(r[|r| - 1]))
    ensures TrimRight(s) == TrimRight(r)
  {
    if s != "" && IsBlank(s[|s| - 1]) then TrimBlanks(s[..|s| - 1]) else s
  }

  lemma {:induction false} BlanksEndWord(s: string)
    requires Neutral(Scanned(s))
    ensures Finish(Scanned(TrimBlanks(s))) == Scanned(s).args && Scanned(TrimBlanks(s)).quote.None?
    decreases |s|
  {
    if s != "" {
      var before := s[..|s| - 1];
      NeutralExactly(s);
      ScannersAgree(before);
      if Neutral(Scanned(before)) {
        BlanksEndWord(before);
      } else {
        NeutralExactly(before);
        assert TrimBlanks(s) == TrimBlanks(before) == before;
      }
    }
  }

  // The last word of p does not end in a space that is no separator.
  predicate EndsCleanly(p: string) {
    var b := TrimBlanks(TrimLeft(p)); b == "" || !IsSpace(b[|b| - 1])
  }

  // The line before a word, read alone, gives the arguments before it
  // exactly when it ends cleanly.
  lemma ArgsBeforeExactly(p: string)
    requires Neutral(Scanned(p))
    ensures Args(p) == ArgsBefore(p) <==> EndsCleanly(p)
  {
    if EndsCleanly(p) {
      CleanEndReads(p);
    } else {
      OddEndDiffers(p);
    }
  }

  lemma CleanEndReads(p: string)
    requires Neutral(Scanned(p)) && EndsCleanly(p)
    ensures Args(p) == ArgsBefore(p)
  {
    TrimLeftNeutral(p);
    BlanksEndWord(TrimLeft(p));
  }

  lemma OddEndDiffers(p: string)
    requires Neutral(Scanned(p)) && !EndsCleanly(p)
    ensures Args(p) != ArgsBefore(p)
  {
    var left := TrimLeft(p);
    TrimLeftNeutral(p);
    BlanksEndWord(left);
    OddSpaceLost(TrimBlanks(left));
  }

  lemma OddSpaceLost(b: string)
    requires b != "" && IsSpace(b[|b| - 1]) && !IsBlank(b[|b| - 1]) && Scanned(b).quote.None?
    ensures Finish(Scanned(TrimRight(b))) != Finish(Scanned(b))
  {
    LastIsKept(b);
    var x := TrimRight(b);
    PrefixKeepsLess(b[..|b| - 1], x);
    FinishKeeps(Scanned(b));
    FinishKeeps(Scanned(x));
  }

  lemma LastIsKept(b: string)
    requires b != "" && IsPlain(b[|b| - 1]) && Scanned(b).quote.None?
    ensures Kept(Scanned(b)) == Kept(Scanned(b[..|b| - 1])) + 1
  {
    ScannersAgree(b[..|b| - 1]);
    NextKeeps(Scanned(b[..|b| - 1]), b[|b| - 1]);
  }

  lemma PrefixKeepsLess(b: string, x: string)
    requires |x| <= |b| && x == b[..|x|]
    ensures Kept(Scanned(x)) <= Kept(Scanned(b))
  {
    assert x + b[|x|..] == b;
    ScanKeeps(x, b[|x|..]);
  }

  // ------------------------------------------------------------------
  // What Tab reads is what Enter runs
  // ------------------------------------------------------------------

  // A word lastPathArg can tell the text of: bare, or one quoted run; with
  // no spaces at its ends for splitArgs to trim.
  predicate Readable(p: string, raw: string)
    requires raw != ""
  {
    var a := Unquoted(raw);
    if a.quote.None? then AllPlain(raw) && Whole(p, raw)
    else a.quote.value !in a.text && (|raw| == |a.text| + 2 || a.text == "" || !IsSpace(a.text[|a.text| - 1]))
  }

  // The text lastPathArg reports is splitArgs' last argument, after the
  // arguments before it, exactly on those.
  lemma TextIsLastArg(line: string)
    requires LastArg(line).start < |line|
    ensures var a := LastArg(line);
            Args(line) == ArgsBefore(line[..a.start]) + [a.text] <==> Readable(line[..a.start], line[a.start..])
  {
    var a := LastArg(line);
    var p, raw := line[..a.start], line[a.start..];
    WordStartIsNeutral(line);
    assert p + raw == line;
    if a.quote.None? {
      BareWordReads(p, raw);
    } else if |raw| == |a.text| + 2 {
      assert raw == [a.quote.value] + a.text + [a.quote.value];
      ClosedRunReads(p, a.quote.value, a.text);
    } else {
      assert raw == [a.quote.value] + a.text;
      OpenRunReads(p, a.quote.value, a.text);
    }
  }

  // What can be put back as one argument.
  predicate Quotable(p: string, s: string, quote: Option<char>)
    requires s != ""
  {
    if quote.Some? then quote.value !in s
    else if exists i :: 0 <= i < |s| && IsBlank(s[i]) then '\'' !in s
    else AllPlain(s) && Whole(p, s)
  }

  // Text put back after a word start reads as that one argument exactly
  // when it is quotable.
  lemma PutBackReads(p: string, s: string, quote: Option<char>)
    requires s != "" && Neutral(Scanned(p)) && (quote.Some? ==> IsQuote(quote.value))
    ensures Args(p + QuoteArg(s, quote)) == ArgsBefore(p) + [s] <==> Quotable(p, s, quote)
  {
    if quote.Some? {
      ClosedRunReads(p, quote.value, s);
    } else if exists i :: 0 <= i < |s| && IsBlank(s[i]) {
      assert "'" + s + "'" == ['\''] + s + ['\''];
      ClosedRunReads(p, '\'', s);
    } else {
      BareWordReads(p, s);
    }
  }

  lemma OpenedWithAQuote(line: string)
    ensures LastArg(line).quote.Some? ==> IsQuote(LastArg(line).quote.value)
  {
  }

  // Text put back by Tab reads as that one argument again, after the same
  // arguments, exactly when it is quotable.
  lemma CompletionReadsBack(line: string, p: string, s: string, quote: Option<char>)
    requires s != "" && p == line[..LastArg(line).start] && quote == LastArg(line).quote
    ensures Args(p + QuoteArg(s, quote)) == ArgsBefore(p) + [s] <==> Quotable(p, s, quote)
  {
    OpenedWithAQuote(line);
    WordStartIsNeutral(line);
    PutBackReads(p, s, quote);
  }

  // In particular for text free of quotes that does not begin or end in a
  // space, after a line whose words do not end in odd spaces.
  lemma PlainCompletionReadsBack(line: string, p: string, s: string, quote: Option<char>)
    requires p == line[..LastArg(line).start] && quote == LastArg(line).quote
    requires s != "" && !IsSpace(s[0]) && !IsSpace(s[|s| - 1]) && forall i | 0 <= i < |s| :: !IsQuote(s[i])
    requires EndsCleanly(p)
    ensures Args(p + QuoteArg(s, quote)) == Args(p) + [s]
  {
    OpenedWithAQuote(line);
    WordStartIsNeutral(line);
    ArgsBeforeExactly(p);
    PutBackReads(p, s, quote);
    QuoteFreeIsQuotable(p, s, quote);
  }

  lemma QuoteFreeIsQuotable(p: string, s: string, quote: Option<char>)
    requires s != "" && !IsSpace(s[0]) && !IsSpace(s[|s| - 1]) && forall i | 0 <= i < |s| :: !IsQuote(s[i])
    requires quote.Some? ==> IsQuote(quote.value)
    ensures Quotable(p, s, quote)
  {
  }

  // A name that ends in a no-break space, or any space that is no
  // separator, is never read back when it is put back bare.
  lemma OddSpaceIsNotReadBack(line: string, p: string, s: string)
    requires p == line[..LastArg(line).start] && LastArg(line).quote == None
    requires s != "" && IsSpace(s[|s| - 1]) && forall i | 0 <= i < |s| :: !IsBlank(s[i])
    ensures Args(p + QuoteArg(s, None)) != ArgsBefore(p) + [s]
  {
    CompletionReadsBack(line, p, s, None);
  }
}
