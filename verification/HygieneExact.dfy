/** Which findings a scan reports, check by check, and which agent each calls for. */
module HygieneExact {
  import opened Wrappers
  import opened Strings
  import opened Hygiene
  import opened Curate

  function TitleKey(d: Detectors, c: Concept): string {
    d.lower(d.trim(c.title))
  }

  predicate HasId(concepts: seq<Concept>, id: string) {
    exists c :: c in concepts && c.id == id
  }

  /** An earlier concept has the same text. */
  ghost predicate SameText(concepts: seq<Concept>, k: nat)
    requires k < |concepts|
  {
    concepts[k].sha != "" && exists j :: 0 <= j < k && concepts[j].sha == concepts[k].sha
  }

  /** `j` is the first concept with this title, but for case and white space. */
  ghost predicate FirstTitled(d: Detectors, concepts: seq<Concept>, j: nat, key: string) {
    j < |concepts| && TitleKey(d, concepts[j]) == key && forall i :: 0 <= i < j ==> TitleKey(d, concepts[i]) != key
  }

  /** The first concept with this title comes earlier and has another id. */
  ghost predicate SameTitle(d: Detectors, concepts: seq<Concept>, k: nat)
    requires k < |concepts|
  {
    var key := TitleKey(d, concepts[k]);
    key != "" && exists j: nat :: j < k && FirstTitled(d, concepts, j, key) && concepts[j].id != concepts[k].id
  }

  /** The check finds something in the concept at `k`, as serious as this. */
  ghost predicate Flagged(d: Detectors, concepts: seq<Concept>, k: nat, check: Check, severity: Severity)
    requires k < |concepts|
  {
    var c := concepts[k];
    var title := d.trim(c.title);
    match check
    case Deviation => severity == Error && exists p :: p in d.deviations && p(c.title + "\n" + c.body)
    case MissingType => severity == Error && d.trim(c.kind) == ""
    case SampleData => severity == Warn && d.sample(c.title + "\n" + c.description)
    case JunkTitle => if title == "" then severity == Error else severity == Warn && (d.short(title) || d.fragment(title))
    case StubBody => severity == Warn && d.thin(c.body)
    case MissingProv => severity == Warn && d.trim(c.sourceUri) == ""
    case BrokenLink => severity == Warn && exists l :: l in d.links(c.body) && !HasId(concepts, l)
    case Duplicate => severity == Warn && (SameText(concepts, k) || SameTitle(d, concepts, k))
  }

  predicate NeedsHuman(check: Check) {
    check == MissingType || check == MissingProv
  }

  // ---- one concept

  lemma {:induction false} DeviationIff(d: Detectors, c: Concept, n: nat, f: Finding)
    requires n <= |d.deviations|
    ensures f in DeviationFindings(d, c, n) <==>
      f == Finding(Deviation, c.id, Error, true) && exists i :: 0 <= i < n && d.deviations[i](c.title + "\n" + c.body)
  {
    if n > 0 {
      DeviationIff(d, c, n - 1, f);
    }
  }

  lemma {:induction false} LinkIff(links: seq<string>, ids: set<string>, id: string, f: Finding)
    ensures f in LinkFindings(links, ids, id) <==>
      f == Finding(BrokenLink, id, Warn, true) && exists l :: l in links && l !in ids
    decreases |links|
  {
    if links != [] {
      var init, last := links[..|links| - 1], links[|links| - 1];
      assert links == init + [last];
      LinkIff(init, ids, id, f);
    }
  }

  lemma PartsIff(d: Detectors, c: Concept, ids: set<string>, seen: Seen, f: Finding)
    ensures f in Findings(d, c, ids, seen) <==>
      || f in DeviationFindings(d, c, |d.deviations|) || f in TypeFindings(d, c) || f in SampleFindings(d, c)
      || f in TitleFindings(d, c) || f in BodyFindings(d, c) || f in LinkFindings(d.links(c.body), ids, c.id)
      || f in DuplicateFindings(d, c, seen)
  {
    hide DeviationFindings, TypeFindings, SampleFindings, TitleFindings, BodyFindings, LinkFindings, DuplicateFindings;
  }

  lemma DeviationFlag(d: Detectors, c: Concept)
    ensures (exists i :: 0 <= i < |d.deviations| && d.deviations[i](c.title + "\n" + c.body)) <==>
      exists p :: p in d.deviations && p(c.title + "\n" + c.body)
  {
  }

  // ---- the shared maps

  /** The maps hold the concepts met so far. */
  ghost predicate MetSoFar(d: Detectors, concepts: seq<Concept>, n: nat, seen: Seen)
    requires n <= |concepts|
  {
    && (forall sha :: sha in seen.shas <==> sha != "" && exists j :: 0 <= j < n && concepts[j].sha == sha)
    && (forall key :: key in seen.titles <==> key != "" && exists j: nat :: j < n && FirstTitled(d, concepts, j, key))
    && forall key, j: nat :: key in seen.titles && j < n && FirstTitled(d, concepts, j, key) ==> seen.titles[key] == concepts[j].id
  }

  lemma NothingMet(d: Detectors, concepts: seq<Concept>)
    ensures MetSoFar(d, concepts, 0, Seen(map[], map[]))
  {
  }

  lemma OneFirst(d: Detectors, concepts: seq<Concept>, i: nat, j: nat, key: string)
    requires FirstTitled(d, concepts, i, key) && FirstTitled(d, concepts, j, key)
    ensures i == j
  {
  }

  lemma {:induction false} SomeFirst(d: Detectors, concepts: seq<Concept>, k: nat)
    requires k < |concepts|
    ensures exists j: nat :: j <= k && FirstTitled(d, concepts, j, TitleKey(d, concepts[k]))
    decreases k
  {
    var key := TitleKey(d, concepts[k]);
    if i: nat :| i < k && TitleKey(d, concepts[i]) == key {
      SomeFirst(d, concepts, i);
    } else {
      assert FirstTitled(d, concepts, k, key);
    }
  }

  lemma MeetShas(d: Detectors, concepts: seq<Concept>, n: nat, seen: Seen, sha: string)
    requires n < |concepts| && MetSoFar(d, concepts, n, seen)
    ensures sha in Met(d, concepts[n], seen).shas <==> sha != "" && exists j :: 0 <= j < n + 1 && concepts[j].sha == sha
  {
    hide FirstTitled, TitleKey;
    if exists j :: 0 <= j < n + 1 && concepts[j].sha == sha {
      var j :| 0 <= j < n + 1 && concepts[j].sha == sha;
      assert j < n || sha == concepts[n].sha;
    }
  }

  lemma MeetTitles(d: Detectors, concepts: seq<Concept>, n: nat, seen: Seen, key: string)
    requires n < |concepts| && MetSoFar(d, concepts, n, seen)
    ensures
      var titles := Met(d, concepts[n], seen).titles;
      && (key in titles <==> key != "" && exists j: nat :: j < n + 1 && FirstTitled(d, concepts, j, key))
      && forall j: nat :: key in titles && j < n + 1 && FirstTitled(d, concepts, j, key) ==> titles[key] == concepts[j].id
  {
    SomeFirst(d, concepts, n);
    var mine := TitleKey(d, concepts[n]);
    if key == mine {
      var first: nat :| first <= n && FirstTitled(d, concepts, first, mine);
      forall j: nat | FirstTitled(d, concepts, j, mine) ensures j == first {
        OneFirst(d, concepts, first, j, mine);
      }
      assert first < n ==> (mine in seen.titles <==> mine != "");
    } else {
      assert !FirstTitled(d, concepts, n, key);
    }
    hide FirstTitled;
  }

  lemma MetNext(d: Detectors, concepts: seq<Concept>, n: nat, seen: Seen)
    requires n < |concepts| && MetSoFar(d, concepts, n, seen)
    ensures MetSoFar(d, concepts, n + 1, Met(d, concepts[n], seen))
  {
    var after := Met(d, concepts[n], seen);
    hide Met, FirstTitled;
    forall sha ensures sha in after.shas <==> sha != "" && exists j :: 0 <= j < n + 1 && concepts[j].sha == sha {
      MeetShas(d, concepts, n, seen, sha);
    }
    forall key
      ensures key in after.titles <==> key != "" && exists j: nat :: j < n + 1 && FirstTitled(d, concepts, j, key)
      ensures forall j: nat :: key in after.titles && j < n + 1 && FirstTitled(d, concepts, j, key) ==> after.titles[key] == concepts[j].id
    {
      MeetTitles(d, concepts, n, seen, key);
    }
  }

  lemma DuplicateIff(d: Detectors, concepts: seq<Concept>, n: nat, seen: Seen, f: Finding)
    requires n < |concepts| && MetSoFar(d, concepts, n, seen)
    ensures f in DuplicateFindings(d, concepts[n], seen) <==>
      f == Finding(Duplicate, concepts[n].id, Warn, true) && (SameText(concepts, n) || SameTitle(d, concepts, n))
  {
    var c, key := concepts[n], TitleKey(d, concepts[n]);
    if key in seen.titles {
      var j: nat :| j < n && FirstTitled(d, concepts, j, key);
      forall i: nat | FirstTitled(d, concepts, i, key) ensures i == j {
        OneFirst(d, concepts, i, j, key);
      }
    }
    hide FirstTitled;
  }

  // ---- the report

  lemma IdsAre(concepts: seq<Concept>, id: string)
    ensures id in IdsOf(concepts) <==> HasId(concepts, id)
  {
    if HasId(concepts, id) {
      var c :| c in concepts && c.id == id;
      var i :| 0 <= i < |concepts| && concepts[i] == c;
    }
  }

  lemma LinkFlag(concepts: seq<Concept>, links: seq<string>)
    ensures (exists l :: l in links && l !in IdsOf(concepts)) <==> exists l :: l in links && !HasId(concepts, l)
  {
    forall l ensures l in IdsOf(concepts) <==> HasId(concepts, l) {
      IdsAre(concepts, l);
    }
    hide IdsOf, HasId;
  }

  /** The finding is what its check says of the concept at `n`. */
  ghost predicate Right(d: Detectors, concepts: seq<Concept>, n: nat, f: Finding)
    requires n < |concepts|
  {
    f.id == concepts[n].id && Flagged(d, concepts, n, f.check, f.severity) && f.fixable == !NeedsHuman(f.check)
  }

  lemma DeviationExact(d: Detectors, concepts: seq<Concept>, n: nat, f: Finding)
    requires n < |concepts|
    ensures f in DeviationFindings(d, concepts[n], |d.deviations|) <==> f.check == Deviation && Right(d, concepts, n, f)
  {
    DeviationIff(d, concepts[n], |d.deviations|, f);
    DeviationFlag(d, concepts[n]);
    hide DeviationFindings, SameText, SameTitle, HasId;
  }

  lemma TextsExact(d: Detectors, concepts: seq<Concept>, n: nat, f: Finding)
    requires n < |concepts|
    ensures f in TypeFindings(d, concepts[n]) <==> f.check == MissingType && Right(d, concepts, n, f)
    ensures f in SampleFindings(d, concepts[n]) <==> f.check == SampleData && Right(d, concepts, n, f)
    ensures f in TitleFindings(d, concepts[n]) <==> f.check == JunkTitle && Right(d, concepts, n, f)
  {
    hide SameText, SameTitle, HasId;
  }

  lemma BodyExact(d: Detectors, concepts: seq<Concept>, n: nat, f: Finding)
    requires n < |concepts|
    ensures f in BodyFindings(d, concepts[n]) <==> (f.check == StubBody || f.check == MissingProv) && Right(d, concepts, n, f)
  {
    hide SameText, SameTitle, HasId;
  }

  lemma LinkExact(d: Detectors, concepts: seq<Concept>, n: nat, f: Finding)
    requires n < |concepts|
    ensures f in LinkFindings(d.links(concepts[n].body), IdsOf(concepts), concepts[n].id) <==> f.check == BrokenLink && Right(d, concepts, n, f)
  {
    LinkIff(d.links(concepts[n].body), IdsOf(concepts), concepts[n].id, f);
    LinkFlag(concepts, d.links(concepts[n].body));
    hide LinkFindings, SameText, SameTitle, HasId, IdsOf;
  }

  lemma DuplicateExact(d: Detectors, concepts: seq<Concept>, n: nat, seen: Seen, f: Finding)
    requires n < |concepts| && MetSoFar(d, concepts, n, seen)
    ensures f in DuplicateFindings(d, concepts[n], seen) <==> f.check == Duplicate && Right(d, concepts, n, f)
  {
    DuplicateIff(d, concepts, n, seen, f);
    hide DuplicateFindings, SameText, SameTitle, HasId, MetSoFar;
  }

  lemma ConceptExact(d: Detectors, concepts: seq<Concept>, n: nat, seen: Seen, f: Finding)
    requires n < |concepts| && MetSoFar(d, concepts, n, seen)
    ensures f in Findings(d, concepts[n], IdsOf(concepts), seen) <==> Right(d, concepts, n, f)
  {
    hide *;
    PartsIff(d, concepts[n], IdsOf(concepts), seen, f);
    DeviationExact(d, concepts, n, f);
    TextsExact(d, concepts, n, f);
    BodyExact(d, concepts, n, f);
    LinkExact(d, concepts, n, f);
    DuplicateExact(d, concepts, n, seen, f);
  }

  lemma {:induction false} ExactUpTo(d: Detectors, concepts: seq<Concept>, n: nat, f: Finding)
    requires n <= |concepts|
    ensures MetSoFar(d, concepts, n, AllFindings(d, concepts, IdsOf(concepts), n).1)
    ensures f in AllFindings(d, concepts, IdsOf(concepts), n).0 <==>
      exists k: nat :: k < n && concepts[k].id == f.id && Flagged(d, concepts, k, f.check, f.severity) && f.fixable == !NeedsHuman(f.check)
    decreases n
  {
    hide Findings, Flagged, MetSoFar, Met, IdsOf;
    if n == 0 {
      NothingMet(d, concepts);
    } else {
      var before := AllFindings(d, concepts, IdsOf(concepts), n - 1);
      ExactUpTo(d, concepts, n - 1, f);
      ConceptExact(d, concepts, n - 1, before.1, f);
      MetNext(d, concepts, n - 1, before.1);
    }
  }

  /** A finding is reported exactly when its check finds it in a concept with its id; all
      but a missing type and a missing provenance can be repaired. */
  lemma ReportExact(d: Detectors, concepts: seq<Concept>, f: Finding)
    ensures f in Report(d, concepts) <==>
      exists k: nat ::
        && k < |concepts| && concepts[k].id == f.id && Flagged(d, concepts, k, f.check, f.severity)
        && f.fixable == !NeedsHuman(f.check)
  {
    ExactUpTo(d, concepts, |concepts|, f);
    hide AllFindings, Flagged, IdsOf;
  }

  // ---- routing

  /** Some finding on the id that can be repaired is of one of these checks. */
  ghost predicate Repairable(fs: seq<Finding>, id: string, checks: set<Check>) {
    exists f :: f in fs && f.id == id && f.fixable && f.check in checks
  }

  const MECHANICAL := {JunkTitle, BrokenLink, Duplicate, SampleData}

  lemma WantsIff(fs: seq<Finding>, id: string)
    ensures Wants(fs, id, DeviationAgent) <==> Repairable(fs, id, {Deviation})
    ensures Wants(fs, id, HygieneAgent) <==> Repairable(fs, id, MECHANICAL)
    ensures Wants(fs, id, ResearchAgent) <==> Repairable(fs, id, {StubBody})
  {
    AgentIff(fs, id, DeviationAgent, {Deviation});
    AgentIff(fs, id, HygieneAgent, MECHANICAL);
    AgentIff(fs, id, ResearchAgent, {StubBody});
  }

  lemma AgentIff(fs: seq<Finding>, id: string, a: Agent, checks: set<Check>)
    requires forall c :: AgentFor(c) == Some(a) <==> c in checks
    ensures Wants(fs, id, a) <==> Repairable(fs, id, checks)
  {
    hide AgentFor;
    if Wants(fs, id, a) {
      var i :| 0 <= i < |fs| && fs[i].id == id && fs[i].fixable && AgentFor(fs[i].check) == Some(a);
      assert fs[i] in fs;
    }
    if Repairable(fs, id, checks) {
      var f :| f in fs && f.id == id && f.fixable && f.check in checks;
      var i :| 0 <= i < |fs| && fs[i] == f;
    }
  }

  ghost function AgentOf(fs: seq<Finding>, id: string): Agent {
    if Repairable(fs, id, {Deviation}) then DeviationAgent
    else if Repairable(fs, id, MECHANICAL) then HygieneAgent
    else ResearchAgent
  }

  /** A concept goes to the deviation agent when it has a deviation to repair, else to the
      hygiene agent for a junk title, a broken link, a duplicate or sample data, else to
      the research agent for a stub; otherwise it is not routed. */
  lemma RoutedTo(fs: seq<Finding>, routes: seq<Route>)
    requires RoutesOk(fs, routes)
    ensures forall id :: id in RouteIds(routes) <==> Repairable(fs, id, {Deviation} + MECHANICAL + {StubBody})
    ensures forall i :: 0 <= i < |routes| ==> routes[i].agent == AgentOf(fs, routes[i].id)
  {
    hide Wants, On, Repairable, StrictlySorted;
    forall id ensures Routable(fs, id) <==> Repairable(fs, id, {Deviation} + MECHANICAL + {StubBody}) {
      RoutableIff(fs, id);
    }
    forall i | 0 <= i < |routes|
      ensures routes[i].agent == AgentOf(fs, routes[i].id)
    {
      assert RouteOk(fs, routes[i]);
      WantsIff(fs, routes[i].id);
    }
  }

  lemma RoutableIff(fs: seq<Finding>, id: string)
    ensures Routable(fs, id) <==> Repairable(fs, id, {Deviation} + MECHANICAL + {StubBody})
  {
    WantsIff(fs, id);
    hide Wants;
    if a :| Wants(fs, id, a) {
      assert a == DeviationAgent || a == HygieneAgent || a == ResearchAgent;
    }
  }
}
