/** The ids that the sections of a statute get, told apart when they collide
    (internal/ingest/legislation.go). */
module StatuteIds {
  import opened Numerals

  const SUFFIX := ".md"

  function TrimSuffix(id: string): string {
    if |id| >= |SUFFIX| && id[|id| - |SUFFIX|..] == SUFFIX then id[..|id| - |SUFFIX|] else id
  }

  /** The `n`th alternative of an id. */
  function Alternative(id: string, n: nat): string {
    TrimSuffix(id) + "-dup" + NumberText(n) + SUFFIX
  }

  /** The alternatives of a file are named before its suffix; what has no suffix gets one. */
  lemma AlternativeNames(stem: string, n: nat)
    ensures Alternative(stem + ".md", n) == stem + "-dup" + NumberText(n) + ".md"
    ensures !(|stem| >= 3 && stem[|stem| - 3..] == ".md") ==> Alternative(stem, n) == stem + "-dup" + NumberText(n) + ".md"
  {
    var id := stem + SUFFIX;
    assert id[|id| - |SUFFIX|..] == SUFFIX && id[..|id| - |SUFFIX|] == stem;
    hide NumberText;
  }

  lemma AlternativesDiffer(id: string, m: nat, n: nat)
    requires Alternative(id, m) == Alternative(id, n)
    ensures m == n
  {
    var head := TrimSuffix(id) + "-dup";
    var a, b := NumberText(m), NumberText(n);
    assert head + a + SUFFIX == head + b + SUFFIX;
    assert |a| == |b|;
    assert (head + a + SUFFIX)[|head|..|head| + |a|] == a;
    assert (head + b + SUFFIX)[|head|..|head| + |b|] == b;
    DecimalOfNumber(m);
    DecimalOfNumber(n);
  }

  /** The id itself, or the first alternative from the second on that is not taken. */
  ghost predicate Fresh(id: string, seen: set<string>, r: string) {
    && r !in seen
    && if id !in seen then r == id
       else exists n: nat :: n >= 2 && r == Alternative(id, n) && forall m: nat :: 2 <= m < n ==> Alternative(id, m) in seen
  }

  /** The search for a free alternative ends because only finitely many ids are taken. */
  method Disambiguate(id: string, seen: set<string>) returns (r: string)
    ensures Fresh(id, seen, r)
  {
    if id !in seen {
      return id;
    }
    hide Alternative;
    var n := 2;
    ghost var untried := seen;
    while Alternative(id, n) in seen
      invariant n >= 2 && untried <= seen
      invariant forall m: nat :: 2 <= m < n ==> Alternative(id, m) in seen
      invariant forall m: nat :: m >= n && Alternative(id, m) in seen ==> Alternative(id, m) in untried
      decreases |untried|
    {
      forall m: nat | m != n ensures Alternative(id, m) != Alternative(id, n) {
        if Alternative(id, m) == Alternative(id, n) {
          AlternativesDiffer(id, m, n);
        }
      }
      untried := untried - {Alternative(id, n)};
      n := n + 1;
    }
    r := Alternative(id, n);
  }

  /** Each id is the fresh one for what was taken before it. */
  ghost predicate Assigned(bases: seq<string>, seen: set<string>, ids: seq<string>) {
    |ids| == |bases| && forall i :: 0 <= i < |ids| ==> Fresh(bases[i], seen + Taken(ids[..i]), ids[i])
  }

  function Taken(ids: seq<string>): set<string> {
    set id | id in ids
  }

  /** The ids of one file's sections, given those of the files before it. */
  method AssignIds(bases: seq<string>, seen: set<string>) returns (ids: seq<string>, after: set<string>)
    ensures |ids| == |bases| && Assigned(bases, seen, ids) && after == seen + Taken(ids)
  {
    ids, after := [], seen;
    hide Fresh;
    for i := 0 to |bases|
      invariant |ids| == i && after == seen + Taken(ids)
      invariant forall j :: 0 <= j < i ==> Fresh(bases[j], seen + Taken(ids[..j]), ids[j])
    {
      var id := Disambiguate(bases[i], after);
      assert ids[..i] == ids;
      ghost var longer := ids + [id];
      assert forall j :: 0 <= j <= i ==> longer[..j] == ids[..j];
      assert Taken(longer) == Taken(ids) + {id};
      ids := ids + [id];
      after := after + {id};
    }
  }

  /** No id comes twice, in this file or with an earlier one. */
  lemma AssignedDistinct(bases: seq<string>, seen: set<string>, ids: seq<string>)
    requires Assigned(bases, seen, ids)
    ensures forall i :: 0 <= i < |ids| ==> ids[i] !in seen
    ensures forall i, j :: 0 <= i < j < |ids| ==> ids[i] != ids[j]
  {
    forall i, j | 0 <= i < j < |ids| ensures ids[i] != ids[j] {
      assert Fresh(bases[j], seen + Taken(ids[..j]), ids[j]);
      assert ids[..j][i] == ids[i];
      assert ids[i] in Taken(ids[..j]);
    }
    forall i | 0 <= i < |ids| ensures ids[i] !in seen {
      assert Fresh(bases[i], seen + Taken(ids[..i]), ids[i]);
    }
  }

  function Flat(files: seq<seq<string>>): seq<string> {
    if files == [] then [] else Flat(files[..|files| - 1]) + files[|files| - 1]
  }

  ghost predicate NoneTwice(ids: seq<string>) {
    forall i, j :: 0 <= i < j < |ids| ==> ids[i] != ids[j]
  }

  /** Each file's ids are assigned given those of all files before it. */
  ghost predicate AllAssigned(files: seq<seq<string>>, all: seq<seq<string>>) {
    |all| <= |files| && forall f :: 0 <= f < |all| ==> Assigned(files[f], Taken(Flat(all[..f])), all[f])
  }

  lemma AssignedNext(files: seq<seq<string>>, all: seq<seq<string>>, ids: seq<string>)
    requires AllAssigned(files, all) && |all| < |files| && Assigned(files[|all|], Taken(Flat(all)), ids)
    ensures AllAssigned(files, all + [ids])
  {
    hide Assigned, Flat;
    var more := all + [ids];
    assert more[..|all|] == all;
    assert forall f :: 0 <= f <= |all| ==> more[..f] == all[..f];
  }

  /** All files of a source, one after the other, with the ids taken so far: no id comes
      twice in the whole source. */
  method AssignFiles(files: seq<seq<string>>) returns (all: seq<seq<string>>)
    ensures |all| == |files| && AllAssigned(files, all)
    ensures NoneTwice(Flat(all))
  {
    all := [];
    var seen: set<string> := {};
    hide Assigned, AllAssigned;
    NoneAssigned(files);
    for f := 0 to |files|
      invariant |all| == f && AllAssigned(files, all)
      invariant seen == Taken(Flat(all)) && NoneTwice(Flat(all))
    {
      var ids, after := AssignIds(files[f], seen);
      AssignedDistinct(files[f], seen, ids);
      assert (all + [ids])[..f] == all;
      MoreTaken(Flat(all), ids);
      AssignedNext(files, all, ids);
      all := all + [ids];
      seen := after;
    }
  }

  lemma NoneAssigned(files: seq<seq<string>>)
    ensures AllAssigned(files, [])
  {
  }

  lemma MoreTaken(a: seq<string>, b: seq<string>)
    requires NoneTwice(a) && NoneTwice(b) && forall i :: 0 <= i < |b| ==> b[i] !in Taken(a)
    ensures Taken(a + b) == Taken(a) + Taken(b) && NoneTwice(a + b)
  {
    forall i, j | 0 <= i < j < |a + b| ensures (a + b)[i] != (a + b)[j] {
      if i < |a| && j >= |a| {
        assert a[i] in Taken(a) && b[j - |a|] !in Taken(a);
      }
    }
  }
}
