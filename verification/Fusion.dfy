/** Reciprocal-rank fusion as the three search paths share it: scores summed per id, the
    order of first sight, and a sort on score, first sight and id
    (internal/query/hybrid.go, internal/query/multi.go, internal/similar/dispatch.go). */
module Fusion {
  import opened Wrappers
  import opened Strings

  /** One appearance of an id in a list, and what it adds to the id's score. */
  datatype Note = Note(id: string, gain: real)

  function ScoreOf(notes: seq<Note>, id: string): real {
    if notes == [] then 0.0
    else
      var last := notes[|notes| - 1];
      ScoreOf(notes[..|notes| - 1], id) + if last.id == id then last.gain else 0.0
  }

  /** The ids in the order in which they first appear. */
  function Order(notes: seq<Note>): seq<string> {
    if notes == [] then []
    else
      var before, last := Order(notes[..|notes| - 1]), notes[|notes| - 1].id;
      if last in before then before else before + [last]
  }

  ghost predicate Distinct(ids: seq<string>) {
    forall i, j :: 0 <= i < j < |ids| ==> ids[i] != ids[j]
  }

  ghost predicate Injective(firstSeen: map<string, nat>) {
    forall a, b :: a in firstSeen && b in firstSeen && a != b ==> firstSeen[a] != firstSeen[b]
  }

  /** The comparison of the three sorts. */
  predicate Before(final: map<string, real>, firstSeen: map<string, nat>, a: string, b: string)
    requires a in final && b in final && a in firstSeen && b in firstSeen
  {
    if final[a] != final[b] then final[a] > final[b]
    else if firstSeen[a] != firstSeen[b] then firstSeen[a] < firstSeen[b]
    else Less(a, b)
  }

  ghost predicate Sorted(r: seq<string>, final: map<string, real>, firstSeen: map<string, nat>) {
    && (forall i :: 0 <= i < |r| ==> r[i] in final && r[i] in firstSeen)
    && forall i, j :: 0 <= i < j < |r| ==> Before(final, firstSeen, r[i], r[j])
  }

  /** All ids, best first. */
  ghost predicate IsRanking(r: seq<string>, final: map<string, real>, firstSeen: map<string, nat>) {
    && (forall id :: id in r <==> id in final)
    && Sorted(r, final, firstSeen)
  }

  /** There is one ranking only, so the order in which a map yields its keys and the way
      the sort works cannot show. */
  lemma {:induction false} RankingUnique(r: seq<string>, s: seq<string>, final: map<string, real>, firstSeen: map<string, nat>)
    requires final.Keys <= firstSeen.Keys && Injective(firstSeen)
    requires IsRanking(r, final, firstSeen) && IsRanking(s, final, firstSeen)
    ensures r == s
    decreases |r|
  {
    assert r != [] ==> r[0] in r && r[0] in final;
    assert s != [] ==> s[0] in s && s[0] in final;
    if r != [] && s != [] {
      SameFirst(r, s, final, firstSeen);
      var rest := final - {r[0]};
      RestRanks(r, final, firstSeen);
      RestRanks(s, final, firstSeen);
      RankingUnique(r[1..], s[1..], rest, firstSeen);
      assert r == [r[0]] + r[1..] && s == [s[0]] + s[1..];
    }
  }

  lemma NotBefore(final: map<string, real>, firstSeen: map<string, nat>, a: string, b: string)
    requires a in final && b in final && a in firstSeen && b in firstSeen && Injective(firstSeen)
    ensures a != b ==> (Before(final, firstSeen, a, b) <==> !Before(final, firstSeen, b, a))
  {
    hide Less;
  }

  lemma SameFirst(r: seq<string>, s: seq<string>, final: map<string, real>, firstSeen: map<string, nat>)
    requires r != [] && s != [] && Injective(firstSeen)
    requires IsRanking(r, final, firstSeen) && IsRanking(s, final, firstSeen)
    ensures r[0] == s[0]
  {
    assert r[0] in r && s[0] in s;
    var i :| 0 <= i < |s| && s[i] == r[0];
    var j :| 0 <= j < |r| && r[j] == s[0];
    NotBefore(final, firstSeen, r[0], s[0]);
    hide Before;
    assert i > 0 ==> Before(final, firstSeen, s[0], s[i]);
    assert j > 0 ==> Before(final, firstSeen, r[0], r[j]);
  }

  lemma SortedDistinct(r: seq<string>, final: map<string, real>, firstSeen: map<string, nat>)
    requires Sorted(r, final, firstSeen)
    ensures Distinct(r)
  {
    forall i, j | 0 <= i < j < |r| ensures r[i] != r[j] {
      assert Before(final, firstSeen, r[i], r[j]);
      NotSelf(final, firstSeen, r[i]);
    }
  }

  lemma NotSelf(final: map<string, real>, firstSeen: map<string, nat>, a: string)
    requires a in final && a in firstSeen
    ensures !Before(final, firstSeen, a, a)
  {
    NotLess(a);
  }

  lemma RestRanks(r: seq<string>, final: map<string, real>, firstSeen: map<string, nat>)
    requires r != [] && IsRanking(r, final, firstSeen)
    ensures IsRanking(r[1..], final - {r[0]}, firstSeen)
  {
    SortedDistinct(r, final, firstSeen);
    var rest := final - {r[0]};
    forall id ensures id in r[1..] <==> id in rest {
      assert id in r <==> id in final;
      assert r == [r[0]] + r[1..];
    }
    forall i | 0 <= i < |r[1..]| ensures r[1..][i] in rest && r[1..][i] in firstSeen {
      assert r[1..][i] == r[i + 1];
    }
    forall i, j | 0 <= i < j < |r[1..]| ensures Before(rest, firstSeen, r[1..][i], r[1..][j]) {
      assert Before(final, firstSeen, r[i + 1], r[j + 1]);
    }
  }

  // ---- sorting

  /** Inserts an id where it belongs among sorted ones. */
  method InsertSorted(r: seq<string>, id: string, final: map<string, real>, firstSeen: map<string, nat>) returns (s: seq<string>)
    requires Sorted(r, final, firstSeen) && id in final && id in firstSeen && id !in r && Injective(firstSeen)
    ensures Sorted(s, final, firstSeen)
    ensures forall x :: x in s <==> x in r || x == id
  {
    var i := 0;
    while i < |r| && Before(final, firstSeen, r[i], id)
      invariant i <= |r|
      invariant forall j :: 0 <= j < i ==> Before(final, firstSeen, r[j], id)
    {
      i := i + 1;
    }
    s := r[..i] + [id] + r[i..];
    AllAfter(r, i, id, final, firstSeen);
    InsertedSorted(r, i, id, final, firstSeen);
    assert r == r[..i] + r[i..];
    hide Sorted, Before;
  }

  lemma AllAfter(r: seq<string>, i: nat, id: string, final: map<string, real>, firstSeen: map<string, nat>)
    requires Sorted(r, final, firstSeen) && id in final && id in firstSeen && id !in r && Injective(firstSeen)
    requires i <= |r| && (i < |r| ==> !Before(final, firstSeen, r[i], id))
    ensures forall j :: i <= j < |r| ==> Before(final, firstSeen, id, r[j])
  {
    forall j | i <= j < |r| ensures Before(final, firstSeen, id, r[j]) {
      NotBefore(final, firstSeen, r[i], id);
      if i < j {
        assert Before(final, firstSeen, r[i], r[j]);
        Transitive(final, firstSeen, id, r[i], r[j]);
      }
    }
  }

  lemma Transitive(final: map<string, real>, firstSeen: map<string, nat>, a: string, b: string, c: string)
    requires a in final && b in final && c in final && a in firstSeen && b in firstSeen && c in firstSeen
    requires Injective(firstSeen) && Before(final, firstSeen, a, b) && Before(final, firstSeen, b, c)
    ensures Before(final, firstSeen, a, c)
  {
    NotSelf(final, firstSeen, a);
    NotSelf(final, firstSeen, b);
    hide Less;
  }

  lemma InsertedSorted(r: seq<string>, i: nat, id: string, final: map<string, real>, firstSeen: map<string, nat>)
    requires Sorted(r, final, firstSeen) && id in final && id in firstSeen && i <= |r|
    requires forall j :: 0 <= j < i ==> Before(final, firstSeen, r[j], id)
    requires forall j :: i <= j < |r| ==> Before(final, firstSeen, id, r[j])
    ensures Sorted(r[..i] + [id] + r[i..], final, firstSeen)
  {
    var s := r[..i] + [id] + r[i..];
    hide Before;
    assert forall k :: 0 <= k < |s| ==> s[k] == if k < i then r[k] else if k == i then id else r[k - 1];
  }

  /** Sorts the ids of a map, taken in whatever order it yields them. */
  method Rank(final: map<string, real>, firstSeen: map<string, nat>) returns (r: seq<string>)
    requires final.Keys <= firstSeen.Keys && Injective(firstSeen)
    ensures IsRanking(r, final, firstSeen)
  {
    var todo := final.Keys;
    r := [];
    hide Before, Injective;
    while todo != {}
      invariant todo <= final.Keys && Sorted(r, final, firstSeen)
      invariant forall id :: id in r <==> id in final && id !in todo
      decreases |todo|
    {
      SomeMember(todo);
      var id :| id in todo;
      todo := todo - {id};
      r := InsertSorted(r, id, final, firstSeen);
    }
  }

  // ---- the tables

  /** The running totals of a fusion. */
  class Tally {
    var scores: map<string, real>
    var firstSeen: map<string, nat>
    var order: nat
    ghost var notes: seq<Note>

    ghost predicate Valid()
      reads this
    {
      && (forall id :: id in scores <==> id in Order(notes))
      && (forall id :: id in firstSeen <==> id in Order(notes))
      && (forall id :: id in scores ==> scores[id] == ScoreOf(notes, id))
      && (forall i :: 0 <= i < |Order(notes)| ==> Order(notes)[i] in firstSeen && firstSeen[Order(notes)[i]] == i)
      && order == |Order(notes)|
    }

    constructor ()
      ensures Valid() && notes == []
    {
      scores, firstSeen, order, notes := map[], map[], 0, [];
    }

    method Add(id: string, gain: real)
      requires Valid()
      modifies this
      ensures Valid() && notes == old(notes) + [Note(id, gain)]
    {
      OrderSnoc(notes, Note(id, gain));
      ScoreSnoc(notes, Note(id, gain));
      SeenOnly(notes, id);
      hide Order, ScoreOf;
      scores := scores[id := (if id in scores then scores[id] else 0.0) + gain];
      if id !in firstSeen {
        firstSeen := firstSeen[id := order];
        order := order + 1;
      }
      notes := notes + [Note(id, gain)];
    }

    lemma Distinguishes()
      requires Valid()
      ensures Injective(firstSeen) && scores.Keys == firstSeen.Keys
    {
      var o := Order(notes);
      hide Order, ScoreOf;
      forall a, b | a in firstSeen && b in firstSeen && a != b ensures firstSeen[a] != firstSeen[b] {
        var i :| 0 <= i < |o| && o[i] == a;
        var j :| 0 <= j < |o| && o[j] == b;
      }
      assert forall id :: id in scores.Keys <==> id in firstSeen.Keys;
    }
  }

  lemma OrderSnoc(notes: seq<Note>, n: Note)
    ensures Order(notes + [n]) == if n.id in Order(notes) then Order(notes) else Order(notes) + [n.id]
  {
    assert (notes + [n])[..|notes|] == notes;
  }

  lemma ScoreSnoc(notes: seq<Note>, n: Note)
    ensures forall id :: ScoreOf(notes + [n], id) == ScoreOf(notes, id) + if n.id == id then n.gain else 0.0
  {
    assert (notes + [n])[..|notes|] == notes;
  }

  lemma {:induction false} SeenOnly(notes: seq<Note>, id: string)
    ensures id !in Order(notes) ==> ScoreOf(notes, id) == 0.0
  {
    if notes != [] {
      SeenOnly(notes[..|notes| - 1], id);
    }
  }

  // ---- what the order and the scores mean

  function First(notes: seq<Note>, id: string): (i: nat)
    ensures i <= |notes| && (i < |notes| ==> notes[i].id == id) && forall j :: 0 <= j < i ==> notes[j].id != id
  {
    if notes == [] then 0 else if notes[0].id == id then 0 else First(notes[1..], id) + 1
  }

  /** The ids come in the order of their first notes. */
  lemma {:induction false} OrderIsByFirst(notes: seq<Note>)
    ensures Distinct(Order(notes))
    ensures forall id :: id in Order(notes) <==> exists i :: 0 <= i < |notes| && notes[i].id == id
    ensures forall i, j :: 0 <= i < j < |Order(notes)| ==> First(notes, Order(notes)[i]) < First(notes, Order(notes)[j])
  {
    if notes != [] {
      var init, last := notes[..|notes| - 1], notes[|notes| - 1];
      assert notes == init + [last];
      OrderIsByFirst(init);
      OrderSnoc(init, last);
      var o := Order(init);
      forall id ensures id in Order(notes) <==> exists i :: 0 <= i < |notes| && notes[i].id == id {
        if id in o {
          var i :| 0 <= i < |init| && init[i].id == id;
          assert notes[i].id == id;
        }
        if exists i :: 0 <= i < |notes| && notes[i].id == id {
          var i :| 0 <= i < |notes| && notes[i].id == id;
          assert i < |init| ==> init[i].id == id;
        }
      }
      forall i | 0 <= i < |o| ensures First(notes, o[i]) == First(init, o[i]) < |init| {
        assert o[i] in o;
        FirstKept(init, last, o[i]);
      }
      if last.id !in o {
        FirstNew(init, last);
      }
      hide Order, First;
    }
  }

  lemma FirstKept(init: seq<Note>, last: Note, id: string)
    requires exists i :: 0 <= i < |init| && init[i].id == id
    ensures First(init + [last], id) == First(init, id) < |init|
  {
    var i :| 0 <= i < |init| && init[i].id == id;
    var f := First(init, id);
    assert f <= i;
    assert (init + [last])[f].id == id;
    FirstIs(init + [last], id, f);
  }

  lemma FirstNew(init: seq<Note>, last: Note)
    requires forall i :: 0 <= i < |init| ==> init[i].id != last.id
    ensures First(init + [last], last.id) == |init|
  {
    FirstIs(init + [last], last.id, |init|);
  }

  lemma FirstIs(notes: seq<Note>, id: string, f: nat)
    requires f < |notes| && notes[f].id == id && forall j :: 0 <= j < f ==> notes[j].id != id
    ensures First(notes, id) == f
  {
  }

  // ---- lists that fall

  function Flatten(lists: seq<seq<Note>>): seq<Note> {
    if lists == [] then [] else Flatten(lists[..|lists| - 1]) + lists[|lists| - 1]
  }

  /** Each id once, with gains that fall along the list. */
  ghost predicate Falling(list: seq<Note>) {
    && (forall i :: 0 <= i < |list| ==> list[i].gain > 0.0)
    && forall i, j :: 0 <= i < j < |list| ==> list[i].id != list[j].id && list[i].gain > list[j].gain
  }

  predicate Lists(list: seq<Note>, id: string) {
    First(list, id) < |list|
  }

  /** Where `b` is listed, `a` is listed before it. */
  predicate AheadIn(list: seq<Note>, a: string, b: string) {
    Lists(list, b) ==> First(list, a) < First(list, b)
  }

  lemma {:induction false} ScoreConcat(a: seq<Note>, b: seq<Note>, id: string)
    ensures ScoreOf(a + b, id) == ScoreOf(a, id) + ScoreOf(b, id)
    decreases |b|
  {
    if b == [] {
      assert a + b == a;
    } else {
      assert (a + b)[..|a + b| - 1] == a + b[..|b| - 1];
      ScoreConcat(a, b[..|b| - 1], id);
    }
  }

  lemma {:induction false} ScoreInList(list: seq<Note>, id: string)
    requires Falling(list)
    ensures ScoreOf(list, id) == if Lists(list, id) then list[First(list, id)].gain else 0.0
    decreases |list|
  {
    if list != [] {
      var init, last := list[..|list| - 1], list[|list| - 1];
      assert list == init + [last];
      assert forall i :: 0 <= i < |init| ==> init[i] == list[i];
      ScoreInList(init, id);
      ScoreSnoc(init, last);
      hide ScoreOf;
      if Lists(init, id) {
        assert init[First(init, id)].id == id;
        FirstKept(init, last, id);
        hide First;
      } else if last.id == id {
        FirstNew(init, last);
        hide First;
      } else {
        FirstIsNone(list, id);
        hide First;
      }
    }
  }

  lemma {:induction false} FirstIsNone(list: seq<Note>, id: string)
    requires forall i :: 0 <= i < |list| ==> list[i].id != id
    ensures !Lists(list, id)
  {
  }

  lemma AheadInScores(list: seq<Note>, a: string, b: string)
    requires Falling(list) && AheadIn(list, a, b)
    ensures ScoreOf(list, a) >= ScoreOf(list, b)
    ensures Lists(list, b) ==> ScoreOf(list, a) > ScoreOf(list, b)
  {
    ScoreInList(list, a);
    ScoreInList(list, b);
    hide ScoreOf, First;
  }

  ghost predicate AllFalling(lists: seq<seq<Note>>) {
    forall i :: 0 <= i < |lists| ==> Falling(lists[i])
  }

  ghost predicate AheadInAll(lists: seq<seq<Note>>, a: string, b: string) {
    forall i :: 0 <= i < |lists| ==> AheadIn(lists[i], a, b)
  }

  ghost predicate SomeLists(lists: seq<seq<Note>>, id: string) {
    exists i :: 0 <= i < |lists| && Lists(lists[i], id)
  }

  lemma NothingScored(id: string)
    ensures ScoreOf([], id) == 0.0
  {}

  lemma LastList(lists: seq<seq<Note>>, a: string, b: string)
    requires AllFalling(lists) && AheadInAll(lists, a, b)
    ensures lists == [] ==> !SomeLists(lists, b)
    ensures lists != [] ==>
      var init, last := lists[..|lists| - 1], lists[|lists| - 1];
      && AllFalling(init) && Falling(last) && AheadInAll(init, a, b) && AheadIn(last, a, b)
      && (SomeLists(lists, b) ==> SomeLists(init, b) || Lists(last, b))
  {
    hide Falling, AheadIn, Lists;
    if SomeLists(lists, b) {
      var i :| 0 <= i < |lists| && Lists(lists[i], b);
      if i < |lists| - 1 {
        assert Lists(lists[..|lists| - 1][i], b);
      }
    }
  }

  /** An id strictly ahead of another in every list that lists the other scores more. */
  lemma {:induction false} AheadScoresMore(lists: seq<seq<Note>>, a: string, b: string)
    requires AllFalling(lists) && AheadInAll(lists, a, b)
    ensures ScoreOf(Flatten(lists), a) >= ScoreOf(Flatten(lists), b)
    ensures SomeLists(lists, b) ==> ScoreOf(Flatten(lists), a) > ScoreOf(Flatten(lists), b)
    decreases |lists|
  {
    hide ScoreOf, Falling, AheadIn, Lists, AllFalling, AheadInAll, SomeLists;
    LastList(lists, a, b);
    NothingScored(a);
    NothingScored(b);
    if lists != [] {
      var init, last := lists[..|lists| - 1], lists[|lists| - 1];
      AheadScoresMore(init, a, b);
      AheadInScores(last, a, b);
      ScoreConcat(Flatten(init), last, a);
      ScoreConcat(Flatten(init), last, b);
    }
  }

  /** A greater final score comes first. */
  lemma GreaterFirst(r: seq<string>, final: map<string, real>, firstSeen: map<string, nat>, i: nat, j: nat)
    requires IsRanking(r, final, firstSeen) && i < |r| && j < |r| && final[r[i]] > final[r[j]]
    ensures i < j
  {
    if j < i {
      NeverRising(r, final, firstSeen, j, i);
    }
  }

  lemma NeverRising(r: seq<string>, final: map<string, real>, firstSeen: map<string, nat>, i: nat, j: nat)
    requires IsRanking(r, final, firstSeen) && i <= j < |r|
    ensures final[r[i]] >= final[r[j]]
  {
    assert i < j ==> Before(final, firstSeen, r[i], r[j]);
    hide Less;
  }

  lemma NotPositive(x: real, y: real)
    requires x <= 0.0 < y
    ensures x * y <= 0.0
  {
  }

  lemma Monotone(x: real, y: real, z: real)
    requires 0.0 < z
    ensures x <= y ==> x * z <= y * z
    ensures x < y ==> x * z < y * z
  {
  }

  /** The reciprocal of a greater rank is less. */
  lemma Reciprocals(x: real, y: real)
    requires 0.0 < x < y
    ensures 1.0 / x > 1.0 / y > 0.0
  {
    var a, b := 1.0 / x, 1.0 / y;
    assert a * x == 1.0 && b * y == 1.0;
    if b <= 0.0 {
      NotPositive(b, y);
    } else {
      Monotone(x, y, b);
      if a <= b {
        Monotone(a, b, x);
      }
    }
  }
}
