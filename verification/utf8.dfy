// Text as Go keeps it: the UTF-8 bytes of its characters (RFC 3629, section
// 3), and where in them one character ends and the next begins.
module Utf8 {

  type byte = n: nat | n < 256

  function Encoded(c: char): seq<byte> {
    var n := c as nat;
    if n < 0x80 then [n]
    else if n < 0x800 then [0xC0 + n / 64, 0x80 + n % 64]
    else if n < 0x10000 then [0xE0 + n / 4096, 0x80 + n / 64 % 64, 0x80 + n % 64]
    else [0xF0 + n / 262144 % 8, 0x80 + n / 4096 % 64, 0x80 + n / 64 % 64, 0x80 + n % 64]
  }

  function Encode(s: string): seq<byte> {
    if s == "" then [] else Encoded(s[0]) + Encode(s[1..])
  }

  // A byte that goes on with a character begun before it.
  predicate Continues(b: byte) {
    0x80 <= b < 0xC0
  }

  // No character is left unfinished in front of these bytes.
  predicate Starts(b: seq<byte>) {
    b == [] || !Continues(b[0])
  }

  ghost predicate IsText(b: seq<byte>) {
    exists s :: Encode(s) == b
  }

  // The length of a character by its first byte.
  function Width(first: byte): nat {
    if first < 0x80 then 1 else if first < 0xE0 then 2 else if first < 0xF0 then 3 else 4
  }

  lemma EncodedShape(c: char)
    ensures var e := Encoded(c);
            && e != [] && !Continues(e[0]) && |e| == Width(e[0])
            && forall i | 1 <= i < |e| :: Continues(e[i])
  {
  }

  // The number of the character these bytes encode.
  function Decoded(e: seq<byte>): int
    requires 1 <= |e| <= 4
  {
    match |e|
    case 1 => e[0] as int
    case 2 => (e[0] as int - 0xC0) * 64 + (e[1] as int - 0x80)
    case 3 => (e[0] as int - 0xE0) * 4096 + (e[1] as int - 0x80) * 64 + (e[2] as int - 0x80)
    case _ =>
      (e[0] as int - 0xF0) * 262144 + (e[1] as int - 0x80) * 4096 + (e[2] as int - 0x80) * 64
      + (e[3] as int - 0x80)
  }

  lemma DecodedIs(c: char)
    ensures Decoded(Encoded(c)) == c as int
  {
    var n := c as nat;
    assert n / 4096 == n / 64 / 64 && n / 262144 == n / 4096 / 64;
  }

  lemma EncodedOnce(c: char, d: char)
    requires Encoded(c) == Encoded(d)
    ensures c == d
  {
    DecodedIs(c);
    DecodedIs(d);
  }

  lemma EncodeStarts(s: string)
    ensures Starts(Encode(s))
  {
    if s != "" {
      EncodedShape(s[0]);
    }
  }

  lemma {:induction false} EncodeAppend(a: string, b: string)
    ensures Encode(a + b) == Encode(a) + Encode(b)
    decreases |a|
  {
    if a == "" {
      assert a + b == b;
    } else {
      assert (a + b)[1..] == a[1..] + b;
      EncodeAppend(a[1..], b);
    }
  }

  lemma CutInCharacter(s: string, k: nat)
    requires s != "" && 0 < k < |Encoded(s[0])|
    ensures k <= |Encode(s)| && !Starts(Encode(s)[k..])
  {
    EncodedShape(s[0]);
    assert Encode(s)[k..][0] == Encoded(s[0])[k];
  }

  // Bytes of a text cut off in front of a start are the bytes of its first
  // characters.
  lemma {:induction false} CutAtStart(s: string, k: nat) returns (m: nat)
    requires k <= |Encode(s)| && Starts(Encode(s)[k..])
    ensures m <= |s| && Encode(s[..m]) == Encode(s)[..k]
    decreases |s|
  {
    if k == 0 {
      m := 0;
    } else if k < |Encoded(s[0])| {
      CutInCharacter(s, k);
    } else {
      EncodedShape(s[0]);
      RestOfCut(Encoded(s[0]), Encode(s[1..]), k);
      var n := CutAtStart(s[1..], k - |Encoded(s[0])|);
      m := n + 1;
      CutOneMore(s, k, n);
    }
  }

  lemma RestOfCut(e: seq<byte>, rest: seq<byte>, k: nat)
    requires |e| <= k <= |e + rest|
    ensures (e + rest)[k..] == rest[k - |e|..]
    ensures (e + rest)[..k] == e + rest[..k - |e|]
  {
  }

  lemma CutOneMore(s: string, k: nat, n: nat)
    requires s != "" && |Encoded(s[0])| <= k <= |Encode(s)| && n < |s|
    requires Encode(s[1..][..n]) == Encode(s[1..])[..k - |Encoded(s[0])|]
    ensures Encode(s[..n + 1]) == Encode(s)[..k]
  {
    RestOfCut(Encoded(s[0]), Encode(s[1..]), k);
    assert s[..n + 1][0] == s[0] && s[..n + 1][1..] == s[1..][..n];
  }

  // Two texts with the same bytes at their beginning have the same
  // characters there.
  lemma {:induction false} PrefixInCharacters(a: string, s: string)
    requires Encode(a) <= Encode(s)
    ensures a <= s && Starts(Encode(s)[|Encode(a)|..])
    decreases |a|
  {
    if a == "" {
      EncodeStarts(s);
    } else {
      EncodedShape(a[0]);
      assert s != "";
      EncodedShape(s[0]);
      var e, f := Encoded(a[0]), Encoded(s[0]);
      assert Encode(a)[0] == e[0] && Encode(s)[0] == f[0];
      assert e == Encode(a)[..|e|] == Encode(s)[..|e|] == f;
      EncodedOnce(a[0], s[0]);
      assert Encode(a) == e + Encode(a[1..]) && Encode(s) == e + Encode(s[1..]);
      assert Encode(a)[|e|..] == Encode(a[1..]) && Encode(s)[|e|..] == Encode(s[1..]);
      PrefixInCharacters(a[1..], s[1..]);
      assert Encode(s)[|Encode(a)|..] == Encode(s[1..])[|Encode(a[1..])|..];
    }
  }

  // The beginning of a text's bytes is a text exactly when the first byte
  // it leaves out does not go on with a character.
  lemma BeginningIsTextExactly(b: seq<byte>, s: string)
    requires b <= Encode(s)
    ensures IsText(b) <==> Starts(Encode(s)[|b|..])
  {
    if Starts(Encode(s)[|b|..]) {
      var m := CutAtStart(s, |b|);
      assert Encode(s[..m]) == b;
    } else if IsText(b) {
      var a :| Encode(a) == b;
      PrefixInCharacters(a, s);
    }
  }

  lemma AroundText(before: string, s: string, after: string)
    ensures Encode(before + s + after) == Encode(before) + Encode(s) + Encode(after)
  {
    EncodeAppend(before, s);
    EncodeAppend(before + s, after);
  }

  lemma WithinText(before: string, b: seq<byte>, after: string, u: string)
    requires Encode(u) == Encode(before) + b + Encode(after)
    ensures IsText(b)
  {
    assert Encode(u)[..|Encode(before)|] == Encode(before);
    PrefixInCharacters(before, u);
    var rest := u[|before|..];
    EncodeAppend(before, rest);
    assert before + rest == u;
    EndIsText(b, after, rest, Encode(before));
  }

  lemma EndIsText(b: seq<byte>, after: string, rest: string, lead: seq<byte>)
    requires lead + Encode(rest) == lead + b + Encode(after)
    ensures IsText(b)
  {
    assert Encode(rest) == (lead + Encode(rest))[|lead|..] == (lead + b + Encode(after))[|lead|..] == b + Encode(after);
    assert Encode(rest)[|b|..] == Encode(after) && Encode(rest)[..|b|] == b;
    EncodeStarts(after);
    BeginningIsTextExactly(b, rest);
  }

  // Between two texts, bytes make a text exactly when they are one.
  lemma BetweenTextsExactly(before: string, b: seq<byte>, after: string)
    ensures IsText(Encode(before) + b + Encode(after)) <==> IsText(b)
  {
    if IsText(b) {
      TextBetween(before, b, after);
    } else if IsText(Encode(before) + b + Encode(after)) {
      var u :| Encode(u) == Encode(before) + b + Encode(after);
      WithinText(before, b, after, u);
    }
  }

  lemma TextBetween(before: string, b: seq<byte>, after: string)
    requires IsText(b)
    ensures IsText(Encode(before) + b + Encode(after))
  {
    var s :| Encode(s) == b;
    AroundText(before, s, after);
    IsTextOf(before + s + after, Encode(before) + b + Encode(after));
  }

  lemma IsTextOf(s: string, b: seq<byte>)
    requires Encode(s) == b
    ensures IsText(b)
  {
  }

  // A byte below 0x80 is the character it stands for.
  lemma {:induction false} AsciiIsItself(s: string, c: char)
    requires c as nat < 0x80
    ensures c as nat in Encode(s) <==> c in s
    decreases |s|
  {
    if s != "" {
      AsciiIsItself(s[1..], c);
      AsciiInCharacter(s[0], c);
      assert s == [s[0]] + s[1..];
    }
  }

  lemma AsciiInCharacter(d: char, c: char)
    requires c as nat < 0x80
    ensures c as nat in Encoded(d) <==> c == d
  {
  }
}
