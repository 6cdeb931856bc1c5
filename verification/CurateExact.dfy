/** What a curate pass makes of each concept, case by case. */
module CurateExact {
  import opened Wrappers
  import opened Strings
  import opened Hygiene
  import opened HygieneExact
  import opened Curate

  // ---- when a proposal is turned down

  /** A concept with an implementation-specific text, without a type or without a title. */
  ghost predicate Faulty(d: Detectors, c: Concept) {
    || (exists p :: p in d.deviations && p(c.title + "\n" + c.body))
    || d.trim(c.kind) == "" || d.trim(c.title) == ""
  }

  lemma {:induction false} HasError(fs: seq<Finding>)
    ensures Errors(fs) != [] <==> exists f :: f in fs && f.severity == Error
    decreases |fs|
  {
    if fs != [] {
      var init, last := fs[..|fs| - 1], fs[|fs| - 1];
      assert fs == init + [last];
      HasError(init);
    }
  }

  lemma FaultyIff(d: Detectors, c: Concept)
    ensures OwnErrors(d, c) != [] <==> Faulty(d, c)
  {
    var a, b, t := DeviationFindings(d, c, |d.deviations|), TypeFindings(d, c), TitleFindings(d, c);
    HasError(a + b + t);
    DeviationFlag(d, c);
    DeviationIff(d, c, |d.deviations|, Finding(Deviation, c.id, Error, true));
    forall f | f in a ensures f == Finding(Deviation, c.id, Error, true) {
      DeviationIff(d, c, |d.deviations|, f);
    }
    hide Errors, DeviationFindings;
    if d.trim(c.kind) == "" {
      assert Finding(MissingType, c.id, Error, false) in b;
    }
    if d.trim(c.title) == "" {
      assert Finding(JunkTitle, c.id, Error, true) in t;
    }
  }

  // ---- what becomes of a route

  /** The first proposal for the id. */
  ghost predicate FirstProposal(ps: seq<Concept>, id: string, p: Concept) {
    exists j :: 0 <= j < |ps| && ps[j] == p && p.id == id && forall i :: 0 <= i < j ==> ps[i].id != id
  }

  /** A failing agent is an error, an answer that leaves the concept out no change; of the
      others the first proposal decides, rejected when faulty, else applied, or merely
      proposed in a dry run. */
  ghost predicate Decided(d: Detectors, orig: Concept, r: Route, fixer: Fixer, apply: bool, status: Status, kept: Option<Concept>) {
    match fixer(r.agent, orig, r.findings)
    case None => status == Failed && kept == None
    case Some(ps) =>
      if !HasId(ps, r.id) then status == NoChange && kept == None
      else
        exists p ::
          && FirstProposal(ps, r.id, p)
          && status == (if Faulty(d, p) then Rejected else if apply then Applied else Proposed)
          && kept == (if !Faulty(d, p) && apply then Some(p) else None)
  }

  lemma {:induction false} FirstForIs(ps: seq<Concept>, id: string)
    ensures FirstFor(ps, id).Some? <==> HasId(ps, id)
    ensures FirstFor(ps, id).Some? ==> FirstProposal(ps, id, FirstFor(ps, id).value)
  {
    if ps != [] {
      FirstForIs(ps[1..], id);
      assert ps == [ps[0]] + ps[1..];
      if ps[0].id != id {
        FirstLater(ps, id);
        hide FirstProposal, HasId;
      } else {
        assert ps[0] in ps;
        assert FirstProposal(ps, id, ps[0]);
      }
    }
  }

  lemma FirstLater(ps: seq<Concept>, id: string)
    requires ps != [] && ps[0].id != id
    ensures HasId(ps, id) <==> HasId(ps[1..], id)
    ensures forall p :: FirstProposal(ps[1..], id, p) ==> FirstProposal(ps, id, p)
  {
    var rest := ps[1..];
    assert ps == [ps[0]] + rest;
    forall p | FirstProposal(rest, id, p) ensures FirstProposal(ps, id, p) {
      var j :| 0 <= j < |rest| && rest[j] == p && p.id == id && forall i :: 0 <= i < j ==> rest[i].id != id;
      assert ps[j + 1] == p;
      assert forall i :: 1 <= i < j + 1 ==> ps[i] == rest[i - 1];
    }
  }

  lemma VerdictIs(d: Detectors, orig: Concept, r: Route, fixer: Fixer, apply: bool)
    ensures var v := Verdict(d, orig, r, fixer, apply); Decided(d, orig, r, fixer, apply, v.0, v.1)
  {
    hide OwnErrors, Faulty, FirstProposal, HasId;
    var answer := fixer(r.agent, orig, r.findings);
    if answer.Some? {
      FirstForIs(answer.value, r.id);
      if FirstFor(answer.value, r.id).Some? {
        FaultyIff(d, FirstFor(answer.value, r.id).value);
      }
    }
  }

  /** The concept of the bundle that a route is for: the last with its id. */
  ghost predicate LastWith(concepts: seq<Concept>, id: string, c: Concept) {
    exists j :: 0 <= j < |concepts| && concepts[j] == c && c.id == id && forall i :: j < i < |concepts| ==> concepts[i].id != id
  }

  lemma {:induction false} IndexIs(concepts: seq<Concept>, id: string)
    requires id in IdsOf(concepts)
    ensures id in Index(concepts) && LastWith(concepts, id, Index(concepts)[id])
    decreases |concepts|
  {
    var init, last := concepts[..|concepts| - 1], concepts[|concepts| - 1];
    assert concepts == init + [last];
    IdsSnoc(init, last);
    hide IdsOf;
    if last.id != id {
      IndexIs(init, id);
      var c := Index(init)[id];
      var j :| 0 <= j < |init| && init[j] == c && c.id == id && forall i :: j < i < |init| ==> init[i].id != id;
      assert concepts[j] == c;
    }
  }

  /** What becomes of a route, and what is kept of it. */
  ghost predicate Settled(d: Detectors, concepts: seq<Concept>, r: Route, fixer: Fixer, apply: bool, item: Item, kept: Option<Concept>) {
    item.id == r.id && exists orig :: LastWith(concepts, r.id, orig) && Decided(d, orig, r, fixer, apply, item.status, kept)
  }

  ghost predicate AllSettled(d: Detectors, concepts: seq<Concept>, routes: seq<Route>, fixer: Fixer, apply: bool, items: seq<Item>, kept: seq<Option<Concept>>) {
    && |items| == |kept| == |routes|
    && forall k :: 0 <= k < |routes| ==> Settled(d, concepts, routes[k], fixer, apply, items[k], kept[k])
  }

  function Present(kept: seq<Option<Concept>>): seq<Concept> {
    if kept == [] then []
    else Present(kept[..|kept| - 1]) + if kept[|kept| - 1].Some? then [kept[|kept| - 1].value] else []
  }

  lemma RouteSettled(d: Detectors, concepts: seq<Concept>, r: Route, fixer: Fixer, apply: bool)
    requires r.id in IdsOf(concepts)
    ensures r.id in Index(concepts)
    ensures var v := Verdict(d, Index(concepts)[r.id], r, fixer, apply); Settled(d, concepts, r, fixer, apply, Item(r.id, v.0), v.1)
  {
    hide Index, IdsOf, Verdict, Decided, LastWith;
    IndexIs(concepts, r.id);
    VerdictIs(d, Index(concepts)[r.id], r, fixer, apply);
  }

  /** Every route is settled on its own, and what is accepted is what is kept, in order. */
  lemma {:induction false} TreatedExact(d: Detectors, concepts: seq<Concept>, routes: seq<Route>, fixer: Fixer, apply: bool) returns (kept: seq<Option<Concept>>)
    requires forall k :: 0 <= k < |routes| ==> routes[k].id in IdsOf(concepts)
    ensures var t := Treated(d, Index(concepts), routes, fixer, apply);
      AllSettled(d, concepts, routes, fixer, apply, t.0, kept) && t.1 == Present(kept)
    decreases |routes|
  {
    hide Index, IdsOf, Verdict, Settled;
    if routes == [] {
      kept := [];
    } else {
      var n := |routes| - 1;
      var before := TreatedExact(d, concepts, routes[..n], fixer, apply);
      RouteSettled(d, concepts, routes[n], fixer, apply);
      kept := before + [Verdict(d, Index(concepts)[routes[n].id], routes[n], fixer, apply).1];
      assert kept[..n] == before;
    }
  }

  // ---- which routes are taken

  lemma {:induction false} WantedIff(routes: seq<Route>, ids: seq<string>, r: Route)
    ensures r in Wanted(routes, ids) <==> r in routes && (ids == [] || r.id in ids)
    decreases |routes|
  {
    if routes != [] {
      var init, last := routes[..|routes| - 1], routes[|routes| - 1];
      assert routes == init + [last];
      WantedIff(init, ids, r);
    }
  }

  lemma {:induction false} WantedSorted(routes: seq<Route>, ids: seq<string>)
    requires StrictlySorted(RouteIds(routes))
    ensures StrictlySorted(RouteIds(Wanted(routes, ids)))
    decreases |routes|
  {
    hide Less, StrictlySorted;
    if routes != [] {
      PrefixSorted(routes);
      var n := |routes| - 1;
      var init, wanted := routes[..n], Wanted(routes[..n], ids);
      WantedSorted(init, ids);
      forall k | 0 <= k < |wanted| ensures Less(wanted[k].id, routes[n].id) {
        WantedIff(init, ids, wanted[k]);
        var m :| 0 <= m < n && init[m] == wanted[k];
      }
      SortedSnoc(wanted, routes[n]);
      assert wanted + [] == wanted;
    }
  }

  lemma PrefixSorted(routes: seq<Route>)
    requires StrictlySorted(RouteIds(routes)) && routes != []
    ensures
      var n := |routes| - 1;
      StrictlySorted(RouteIds(routes[..n])) && forall m :: 0 <= m < n ==> Less(routes[m].id, routes[n].id)
  {
    hide Less;
    var n := |routes| - 1;
    assert forall k :: 0 <= k < n ==> RouteIds(routes[..n])[k] == RouteIds(routes)[k];
    forall m | 0 <= m < n ensures Less(routes[m].id, routes[n].id) {
      assert Less(RouteIds(routes)[m], RouteIds(routes)[n]);
    }
  }

  lemma SortedSnoc(routes: seq<Route>, r: Route)
    requires StrictlySorted(RouteIds(routes)) && forall k :: 0 <= k < |routes| ==> Less(routes[k].id, r.id)
    ensures StrictlySorted(RouteIds(routes + [r]))
  {
    hide Less;
    IdsAppend(routes, r);
    forall i, j | 0 <= i < j < |routes + [r]| ensures Less(RouteIds(routes + [r])[i], RouteIds(routes + [r])[j]) {
      if j < |routes| {
        assert Less(RouteIds(routes)[i], RouteIds(routes)[j]);
      }
    }
  }

  /** The routes taken are the first by id of those asked for, as many as the limit allows,
      all of them when it is not positive. */
  lemma SelectedAre(fs: seq<Finding>, ids: seq<string>, limit: int, routes: seq<Route>) returns (all: seq<Route>, wanted: seq<Route>)
    requires Selected(fs, ids, limit, routes)
    ensures RoutesOk(fs, all) && routes <= wanted
    ensures forall r :: r in wanted <==> r in all && (ids == [] || r.id in ids)
    ensures StrictlySorted(RouteIds(wanted)) && |routes| == if 0 < limit < |wanted| then limit else |wanted|
  {
    hide RoutesOk, Wanted, StrictlySorted;
    all :| RoutesOk(fs, all) && routes == Limited(Wanted(all, ids), limit);
    wanted := Wanted(all, ids);
    SortedRoutes(fs, all);
    WantedSorted(all, ids);
    forall r ensures r in wanted <==> r in all && (ids == [] || r.id in ids) {
      WantedIff(all, ids, r);
    }
  }
}
