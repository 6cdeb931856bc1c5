/** The order of strings, and sorting them. */
module Strings {
  import opened Wrappers

  predicate Less(a: string, b: string)
    decreases |a|
  {
    b != [] && (a == [] || a[0] < b[0] || (a[0] == b[0] && Less(a[1..], b[1..])))
  }

  lemma {:induction false} NotLess(a: string)
    ensures !Less(a, a)
    decreases |a|
  {
    if a != [] {
      NotLess(a[1..]);
    }
  }

  ghost predicate StrictlySorted(words: seq<string>) {
    forall i, j :: 0 <= i < j < |words| ==> Less(words[i], words[j])
  }

  lemma {:induction false} LessTotal(a: string, b: string)
    ensures a == b || Less(a, b) || Less(b, a)
    decreases |a|
  {
    if a != [] && b != [] && a[0] == b[0] {
      LessTotal(a[1..], b[1..]);
      assert a == [a[0]] + a[1..] && b == [b[0]] + b[1..];
    }
  }

  lemma {:induction false} LessAsymmetric(a: string, b: string)
    requires Less(a, b)
    ensures !Less(b, a)
    decreases |a|
  {
    if a != [] && a[0] == b[0] {
      LessAsymmetric(a[1..], b[1..]);
    }
  }

  lemma {:induction false} LessTransitive(a: string, b: string, c: string)
    requires Less(a, b) && Less(b, c)
    ensures Less(a, c)
    decreases |a|
  {
    if a != [] && a[0] == b[0] && b[0] == c[0] {
      LessTransitive(a[1..], b[1..], c[1..]);
    }
  }

  /** A set of strings has one strictly sorted list. */
  lemma {:induction false} SortedUnique(a: seq<string>, b: seq<string>)
    requires StrictlySorted(a) && StrictlySorted(b) && forall w :: w in a <==> w in b
    ensures a == b
    decreases |a|
  {
    hide Less;
    assert a != [] ==> a[0] in a;
    assert b != [] ==> b[0] in b;
    if a != [] && b != [] {
      SameLeast(a, b);
      forall w ensures w in a[1..] <==> w in b[1..] {
        TailMembers(a, w);
        TailMembers(b, w);
      }
      SortedUnique(a[1..], b[1..]);
      assert a == [a[0]] + a[1..] && b == [b[0]] + b[1..];
    }
  }

  lemma SameLeast(a: seq<string>, b: seq<string>)
    requires StrictlySorted(a) && StrictlySorted(b) && a != [] && b != [] && forall w :: w in a <==> w in b
    ensures a[0] == b[0]
  {
    hide Less;
    assert a[0] in b && b[0] in a by {
      assert a[0] in a && b[0] in b;
    }
    var i :| 0 <= i < |b| && b[i] == a[0];
    var j :| 0 <= j < |a| && a[j] == b[0];
    assert i == 0 || Less(b[0], a[0]);
    assert j == 0 || Less(a[0], b[0]);
    if Less(a[0], b[0]) {
      LessAsymmetric(a[0], b[0]);
    }
  }

  lemma TailMembers(a: seq<string>, w: string)
    requires StrictlySorted(a) && a != []
    ensures w in a[1..] <==> w in a && w != a[0]
  {
    hide Less;
    assert a == [a[0]] + a[1..];
    forall i | 0 < i < |a| ensures a[i] != a[0] {
      assert Less(a[0], a[i]);
      NotLess(a[0]);
    }
    if w in a[1..] {
      var i :| 0 <= i < |a[1..]| && a[1..][i] == w;
      assert a[i + 1] == w;
    }
  }

  /** sort.Strings over the members of a set, which come in any order. */
  method SortStrings(words: set<string>) returns (sorted: seq<string>)
    ensures StrictlySorted(sorted) && forall w :: w in sorted <==> w in words
  {
    hide Less, StrictlySorted;
    var todo := words;
    sorted := [];
    NoneSorted();
    while todo != {}
      invariant todo <= words && StrictlySorted(sorted)
      invariant forall w :: w in sorted <==> w in words && w !in todo
      decreases |todo|
    {
      SomeMember(todo);
      var w :| w in todo;
      todo := todo - {w};
      sorted := InsertString(sorted, w);
    }
  }

  lemma NoneSorted()
    ensures StrictlySorted([])
  {
  }

  method InsertString(sorted: seq<string>, w: string) returns (r: seq<string>)
    requires StrictlySorted(sorted) && w !in sorted
    ensures StrictlySorted(r) && forall x :: x in r <==> x in sorted || x == w
  {
    hide Less;
    var i := 0;
    while i < |sorted| && Less(sorted[i], w)
      invariant i <= |sorted|
      invariant forall j :: 0 <= j < i ==> Less(sorted[j], w)
    {
      i := i + 1;
    }
    StringsAfter(sorted, i, w);
    r := sorted[..i] + [w] + sorted[i..];
    assert sorted == sorted[..i] + sorted[i..];
    assert forall k :: 0 <= k < |r| ==> r[k] == if k < i then sorted[k] else if k == i then w else sorted[k - 1];
  }

  lemma StringsAfter(sorted: seq<string>, i: nat, w: string)
    requires StrictlySorted(sorted) && w !in sorted && i <= |sorted| && (i < |sorted| ==> !Less(sorted[i], w))
    ensures forall j :: i <= j < |sorted| ==> Less(w, sorted[j])
  {
    hide Less;
    forall j | i <= j < |sorted| ensures Less(w, sorted[j]) {
      LessTotal(sorted[i], w);
      if i < j {
        LessTransitive(w, sorted[i], sorted[j]);
      }
    }
  }

  /** Byte by byte: the first place where two texts differ decides, and a text comes before
      those it begins. */
  lemma {:induction false} LessIff(a: string, b: string)
    ensures Less(a, b) <==>
      || (|a| < |b| && a == b[..|a|])
      || exists i :: 0 <= i < |a| && i < |b| && a[..i] == b[..i] && a[i] < b[i]
    decreases |a|
  {
    if a != [] && b != [] && a[0] == b[0] {
      LessIff(a[1..], b[1..]);
      assert a == [a[0]] + a[1..] && b == [b[0]] + b[1..];
      assert |a| <= |b| ==> b[..|a|] == [b[0]] + b[1..][..|a| - 1];
      if i :| 0 <= i < |a| && i < |b| && a[..i] == b[..i] && a[i] < b[i] {
        assert a[1..][..i - 1] == a[..i][1..] && b[1..][..i - 1] == b[..i][1..];
      }
      if i :| 0 <= i < |a[1..]| && i < |b[1..]| && a[1..][..i] == b[1..][..i] && a[1..][i] < b[1..][i] {
        assert a[..i + 1] == [a[0]] + a[1..][..i] && b[..i + 1] == [b[0]] + b[1..][..i];
        assert a[i + 1] < b[i + 1];
      }
    } else if a != [] && b != [] {
      assert a[..0] == b[..0];
      forall i | 0 < i <= |a| && i <= |b| ensures a[..i] != b[..i] {
        assert a[..i][0] == a[0] && b[..i][0] == b[0];
      }
    }
  }
}
