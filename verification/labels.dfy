// The labels in use (internal/tui/label.go: labelsInUse): each label some
// torrent is filed under with how many are, most used first and in
// alphabetical order within a count.
module Labels {

  datatype LabelUse = LabelUse(name: string, count: nat)

  // Go's order on strings.
  predicate Less(a: string, b: string) {
    if b == "" then false
    else if a == "" then true
    else if a[0] != b[0] then a[0] < b[0]
    else Less(a[1..], b[1..])
  }

  lemma {:induction false} LessIsTotal(a: string, b: string)
    ensures Less(a, b) || Less(b, a) || a == b
    ensures !(Less(a, b) && Less(b, a)) && !Less(a, a)
    decreases |a|
  {
    if a != "" {
      LessIsTotal(a[1..], if b == "" then "" else b[1..]);
      LessIsTotal(a[1..], a[1..]);
      if b != "" && a[0] == b[0] && a[1..] == b[1..] {
        assert a == [a[0]] + a[1..] && b == [b[0]] + b[1..];
      }
    }
  }

  lemma {:induction false} LessIsTransitive(a: string, b: string, c: string)
    requires Less(a, b) && Less(b, c)
    ensures Less(a, c)
    decreases |a|
  {
    if a != "" && a[0] == b[0] && b[0] == c[0] {
      LessIsTransitive(a[1..], b[1..], c[1..]);
    }
  }

  predicate Before(a: LabelUse, b: LabelUse) {
    if a.count != b.count then a.count > b.count else Less(a.name, b.name)
  }

  lemma BeforeIsTotal(a: LabelUse, b: LabelUse)
    ensures Before(a, b) || Before(b, a) || a == b
    ensures !(Before(a, b) && Before(b, a)) && !Before(a, a)
  {
    LessIsTotal(a.name, b.name);
    LessIsTotal(a.name, a.name);
  }

  lemma BeforeIsTransitive(a: LabelUse, b: LabelUse, c: LabelUse)
    requires Before(a, b) && Before(b, c)
    ensures Before(a, c)
  {
    if a.count == b.count == c.count {
      LessIsTransitive(a.name, b.name, c.name);
    }
  }

  predicate Ordered(uses: seq<LabelUse>) {
    forall i, j | 0 <= i < j < |uses| :: Before(uses[i], uses[j])
  }

  // How many torrents, by their labels, carry this one.
  function CountOf(labels: seq<string>, name: string): nat {
    if labels == [] then 0
    else CountOf(labels[..|labels| - 1], name) + if labels[|labels| - 1] == name then 1 else 0
  }

  // Exactly the labels in use with their counts, in order.
  ghost predicate IsLabelList(labels: seq<string>, uses: seq<LabelUse>) {
    && Ordered(uses)
    && forall u: LabelUse :: u in uses <==> u.name != "" && u.count > 0 && u.count == CountOf(labels, u.name)
  }

  // There is only one such list.
  lemma {:induction false} OrderedSame(a: seq<LabelUse>, b: seq<LabelUse>)
    requires Ordered(a) && Ordered(b) && forall u :: u in a <==> u in b
    ensures a == b
    decreases |a|
  {
    if a == [] {
      if b != [] {
        FirstIsIn(b);
      }
    } else {
      assert a[0] in a && a[0] in b;
      assert b[0] in b && b[0] in a;
      var i :| 0 <= i < |b| && b[i] == a[0];
      var j :| 0 <= j < |a| && a[j] == b[0];
      BeforeIsTotal(a[0], b[0]);
      assert a[0] == b[0];
      forall u | u in a[1..] || u in b[1..]
        ensures u in a[1..] && u in b[1..]
      {
        if u in a[1..] {
          assert u in a;
          TailWithout(a, b, u);
        } else {
          assert u in b;
          TailWithout(b, a, u);
        }
      }
      OrderedSame(a[1..], b[1..]);
      assert a == [a[0]] + a[1..] && b == [b[0]] + b[1..];
    }
  }

  lemma FirstIsIn(b: seq<LabelUse>)
    requires b != []
    ensures b[0] in b
  {
  }

  lemma TailWithout(a: seq<LabelUse>, b: seq<LabelUse>, u: LabelUse)
    requires a != [] && b != [] && Ordered(a) && a[0] == b[0] && u in a[1..] && u in b
    ensures u in b[1..]
  {
    BeforeIsTotal(a[0], a[0]);
    var k :| 0 <= k < |a[1..]| && a[1..][k] == u;
    assert Before(a[0], a[k + 1]);
    var i :| 0 <= i < |b| && b[i] == u;
    assert b[1..][i - 1] == u;
  }

  // ------------------------------------------------------------------
  // The list as a function
  // ------------------------------------------------------------------

  // The names in use, each once.
  function Names(labels: seq<string>): seq<string> {
    if labels == [] then []
    else
      var rest, name := Names(labels[..|labels| - 1]), labels[|labels| - 1];
      if name == "" || name in rest then rest else rest + [name]
  }

  function Insert(uses: seq<LabelUse>, u: LabelUse): seq<LabelUse> {
    if uses == [] then [u]
    else if Before(u, uses[0]) then [u] + uses
    else [uses[0]] + Insert(uses[1..], u)
  }

  function Sorted(uses: seq<LabelUse>): seq<LabelUse> {
    if uses == [] then [] else Insert(Sorted(uses[..|uses| - 1]), uses[|uses| - 1])
  }

  function Counted(names: seq<string>, labels: seq<string>): (r: seq<LabelUse>)
    ensures |r| == |names| && forall i | 0 <= i < |r| :: r[i] == LabelUse(names[i], CountOf(labels, names[i]))
  {
    seq(|names|, i requires 0 <= i < |names| => LabelUse(names[i], CountOf(labels, names[i])))
  }

  function Uses(labels: seq<string>): seq<LabelUse> {
    Sorted(Counted(Names(labels), labels))
  }

  lemma {:induction false} InsertKeeps(uses: seq<LabelUse>, u: LabelUse)
    requires Ordered(uses) && u !in uses
    ensures Ordered(Insert(uses, u)) && forall v :: v in Insert(uses, u) <==> v in uses || v == u
    decreases |uses|
  {
    if uses != [] {
      var first, rest := uses[0], uses[1..];
      assert uses == [first] + rest;
      if Before(u, first) {
        forall k | 0 <= k < |uses|
          ensures Before(u, uses[k])
        {
          if k > 0 {
            BeforeIsTransitive(u, first, uses[k]);
          }
        }
      } else {
        InsertKeeps(rest, u);
        BeforeIsTotal(u, first);
        var more := Insert(rest, u);
        forall k | 0 <= k < |more|
          ensures Before(first, more[k])
        {
          assert more[k] in more;
          if more[k] != u {
            var j :| 0 <= j < |rest| && rest[j] == more[k];
            assert uses[j + 1] == more[k];
          }
        }
      }
    }
  }

  lemma {:induction false} SortedKeeps(uses: seq<LabelUse>)
    requires forall i, j | 0 <= i < j < |uses| :: uses[i] != uses[j]
    ensures Ordered(Sorted(uses)) && forall u :: u in Sorted(uses) <==> u in uses
    decreases |uses|
  {
    if uses != [] {
      var n := |uses| - 1;
      SortedKeeps(uses[..n]);
      assert uses == uses[..n] + [uses[n]];
      InsertKeeps(Sorted(uses[..n]), uses[n]);
    }
  }

  lemma {:induction false} NamesAreThoseInUse(labels: seq<string>)
    ensures forall i, j | 0 <= i < j < |Names(labels)| :: Names(labels)[i] != Names(labels)[j]
    ensures forall name :: name in Names(labels) <==> name != "" && CountOf(labels, name) > 0
    decreases |labels|
  {
    if labels != [] {
      NamesAreThoseInUse(labels[..|labels| - 1]);
    }
  }

  // The list is complete, has nothing else, and is in order.
  lemma UsesIsTheList(labels: seq<string>)
    ensures IsLabelList(labels, Uses(labels))
  {
    var names := Names(labels);
    var counted := Counted(names, labels);
    NamesAreThoseInUse(labels);
    SortedKeeps(counted);
    forall u: LabelUse
      ensures u in counted <==> u.name != "" && u.count > 0 && u.count == CountOf(labels, u.name)
    {
      if u.name in names {
        var i :| 0 <= i < |names| && names[i] == u.name;
        assert counted[i] in counted;
      }
    }
  }

  // No two rows of the list have the same name.
  lemma NamesOnce(labels: seq<string>, i: nat, j: nat)
    requires i < |Uses(labels)| && j < |Uses(labels)| && Uses(labels)[i].name == Uses(labels)[j].name
    ensures i == j
  {
    UsesIsTheList(labels);
    var uses := Uses(labels);
    assert uses[i] in uses && uses[j] in uses;
    BeforeIsTotal(uses[i], uses[j]);
  }

  // ------------------------------------------------------------------
  // The list as it is built
  // ------------------------------------------------------------------

  method CountLabels(labels: seq<string>) returns (counts: map<string, nat>)
    ensures forall name :: name in counts <==> name != "" && CountOf(labels, name) > 0
    ensures forall name | name in counts :: counts[name] == CountOf(labels, name)
  {
    counts := map[];
    var i := 0;
    while i < |labels|
      invariant 0 <= i <= |labels|
      invariant forall name :: name in counts <==> name != "" && CountOf(labels[..i], name) > 0
      invariant forall name | name in counts :: counts[name] == CountOf(labels[..i], name)
    {
      assert labels[..i + 1][..i] == labels[..i];
      var name := labels[i];
      if name != "" {
        counts := counts[name := (if name in counts then counts[name] else 0) + 1];
      }
      i := i + 1;
    }
    assert labels[..|labels|] == labels;
  }

  // Whatever order the counts are walked in, sorting gives the one list.
  method LabelsInUse(labels: seq<string>) returns (uses: seq<LabelUse>)
    ensures uses == Uses(labels)
  {
    var counts := CountLabels(labels);
    uses := [];
    var todo := counts.Keys;
    while todo != {}
      invariant todo <= counts.Keys && Ordered(uses)
      invariant forall u: LabelUse :: u in uses <==> u.name in counts && u.name !in todo && u.count == counts[u.name]
    {
      var name :| name in todo;
      InsertKeeps(uses, LabelUse(name, counts[name]));
      uses := Insert(uses, LabelUse(name, counts[name]));
      todo := todo - {name};
    }
    UsesIsTheList(labels);
    OrderedSame(uses, Uses(labels));
  }
}
