/** The hygiene scan of a set of concepts (internal/hygiene/hygiene.go). */
module Hygiene {
  datatype Concept = Concept(id: string, kind: string, title: string, description: string, body: string, sha: string, sourceUri: string)

  datatype Check = Deviation | MissingType | SampleData | JunkTitle | StubBody | MissingProv | BrokenLink | Duplicate

  datatype Severity = Error | Warn

  datatype Finding = Finding(check: Check, id: string, severity: Severity, fixable: bool)

  /** What the patterns and string helpers say; they are not modelled. */
  datatype Detectors = Detectors(
    deviations: seq<string -> bool>,
    sample: string -> bool,
    short: string -> bool,
    fragment: string -> bool,
    thin: string -> bool,
    links: string -> seq<string>,
    trim: string -> string,
    lower: string -> string)

  // ---- the findings of one concept, as a function

  function DeviationFindings(d: Detectors, c: Concept, n: nat): seq<Finding>
    requires n <= |d.deviations|
  {
    if n == 0 then []
    else
      DeviationFindings(d, c, n - 1) +
      if d.deviations[n - 1](c.title + "\n" + c.body) then [Finding(Deviation, c.id, Error, true)] else []
  }

  function TypeFindings(d: Detectors, c: Concept): seq<Finding> {
    if d.trim(c.kind) == "" then [Finding(MissingType, c.id, Error, false)] else []
  }

  function SampleFindings(d: Detectors, c: Concept): seq<Finding> {
    if d.sample(c.title + "\n" + c.description) then [Finding(SampleData, c.id, Warn, true)] else []
  }

  function TitleFindings(d: Detectors, c: Concept): seq<Finding> {
    var title := d.trim(c.title);
    if title == "" then [Finding(JunkTitle, c.id, Error, true)]
    else if d.short(title) || d.fragment(title) then [Finding(JunkTitle, c.id, Warn, true)]
    else []
  }

  function BodyFindings(d: Detectors, c: Concept): seq<Finding> {
    (if d.thin(c.body) then [Finding(StubBody, c.id, Warn, true)] else []) +
    (if d.trim(c.sourceUri) == "" then [Finding(MissingProv, c.id, Warn, false)] else [])
  }

  function LinkFindings(links: seq<string>, ids: set<string>, id: string): seq<Finding> {
    if links == [] then []
    else
      LinkFindings(links[..|links| - 1], ids, id) +
      if links[|links| - 1] in ids then [] else [Finding(BrokenLink, id, Warn, true)]
  }

  /** The first concept of each SHA and of each title, as the scan has met them. */
  datatype Seen = Seen(shas: map<string, string>, titles: map<string, string>)

  function DuplicateFindings(d: Detectors, c: Concept, seen: Seen): seq<Finding> {
    var t := d.lower(d.trim(c.title));
    (if c.sha != "" && c.sha in seen.shas then [Finding(Duplicate, c.id, Warn, true)] else []) +
    (if t != "" && t in seen.titles && seen.titles[t] != c.id then [Finding(Duplicate, c.id, Warn, true)] else [])
  }

  function Met(d: Detectors, c: Concept, seen: Seen): Seen {
    var t := d.lower(d.trim(c.title));
    Seen(
      if c.sha != "" && c.sha !in seen.shas then seen.shas[c.sha := c.id] else seen.shas,
      if t != "" && t !in seen.titles then seen.titles[t := c.id] else seen.titles)
  }

  function Findings(d: Detectors, c: Concept, ids: set<string>, seen: Seen): seq<Finding> {
    DeviationFindings(d, c, |d.deviations|) + TypeFindings(d, c) + SampleFindings(d, c) + TitleFindings(d, c) +
    BodyFindings(d, c) + LinkFindings(d.links(c.body), ids, c.id) + DuplicateFindings(d, c, seen)
  }

  /** The findings of the first `n` concepts, in order. */
  function AllFindings(d: Detectors, concepts: seq<Concept>, ids: set<string>, n: nat): (seq<Finding>, Seen)
    requires n <= |concepts|
  {
    if n == 0 then ([], Seen(map[], map[]))
    else
      var before := AllFindings(d, concepts, ids, n - 1);
      (before.0 + Findings(d, concepts[n - 1], ids, before.1), Met(d, concepts[n - 1], before.1))
  }

  function IdsOf(concepts: seq<Concept>): set<string> {
    set i | 0 <= i < |concepts| :: concepts[i].id
  }

  /** The report, before it is sorted. */
  function Report(d: Detectors, concepts: seq<Concept>): seq<Finding> {
    AllFindings(d, concepts, IdsOf(concepts), |concepts|).0
  }

  // ---- the scan

  class Scanner {
    const d: Detectors
    const ids: set<string>
    var shaSeen: map<string, string>
    var titleSeen: map<string, string>

    constructor (d: Detectors, ids: set<string>)
      ensures this.d == d && this.ids == ids && SeenSoFar() == Seen(map[], map[])
    {
      this.d, this.ids := d, ids;
      shaSeen, titleSeen := map[], map[];
    }

    ghost function SeenSoFar(): Seen
      reads this
    {
      Seen(shaSeen, titleSeen)
    }

    method ScanConcept(c: Concept) returns (fs: seq<Finding>)
      modifies this
      ensures fs == Findings(d, c, ids, old(SeenSoFar())) && SeenSoFar() == Met(d, c, old(SeenSoFar()))
    {
      hide DeviationFindings, TypeFindings, SampleFindings, TitleFindings, BodyFindings, LinkFindings, DuplicateFindings, Met;
      var deviations := ScanDeviations(c);
      var texts := ScanTexts(c);
      var broken := ScanLinks(c);
      var twice := ScanDuplicates(c);
      fs := deviations + texts + broken + twice;
    }

    method ScanDeviations(c: Concept) returns (fs: seq<Finding>)
      ensures fs == DeviationFindings(d, c, |d.deviations|)
    {
      fs := [];
      for i := 0 to |d.deviations|
        invariant fs == DeviationFindings(d, c, i)
      {
        if d.deviations[i](c.title + "\n" + c.body) {
          fs := fs + [Finding(Deviation, c.id, Error, true)];
        }
      }
    }

    method ScanTexts(c: Concept) returns (fs: seq<Finding>)
      ensures fs == TypeFindings(d, c) + SampleFindings(d, c) + TitleFindings(d, c) + BodyFindings(d, c)
    {
      hide TypeFindings, SampleFindings, TitleFindings, BodyFindings;
      var kind := ScanKind(c);
      var title := ScanTitle(c);
      var body := ScanBody(c);
      fs := kind + title + body;
    }

    method ScanKind(c: Concept) returns (fs: seq<Finding>)
      ensures fs == TypeFindings(d, c) + SampleFindings(d, c)
    {
      fs := [];
      if d.trim(c.kind) == "" {
        fs := fs + [Finding(MissingType, c.id, Error, false)];
      }
      if d.sample(c.title + "\n" + c.description) {
        fs := fs + [Finding(SampleData, c.id, Warn, true)];
      }
    }

    method ScanTitle(c: Concept) returns (fs: seq<Finding>)
      ensures fs == TitleFindings(d, c)
    {
      fs := [];
      var title := d.trim(c.title);
      if title == "" {
        fs := fs + [Finding(JunkTitle, c.id, Error, true)];
      } else if d.short(title) || d.fragment(title) {
        fs := fs + [Finding(JunkTitle, c.id, Warn, true)];
      }
    }

    method ScanBody(c: Concept) returns (fs: seq<Finding>)
      ensures fs == BodyFindings(d, c)
    {
      fs := [];
      if d.thin(c.body) {
        fs := fs + [Finding(StubBody, c.id, Warn, true)];
      }
      if d.trim(c.sourceUri) == "" {
        fs := fs + [Finding(MissingProv, c.id, Warn, false)];
      }
    }

    method ScanLinks(c: Concept) returns (fs: seq<Finding>)
      ensures fs == LinkFindings(d.links(c.body), ids, c.id)
    {
      var links := d.links(c.body);
      fs := [];
      for i := 0 to |links|
        invariant fs == LinkFindings(links[..i], ids, c.id)
      {
        assert links[..i + 1][..i] == links[..i];
        if links[i] !in ids {
          fs := fs + [Finding(BrokenLink, c.id, Warn, true)];
        }
      }
      assert links[..|links|] == links;
    }

    method ScanDuplicates(c: Concept) returns (fs: seq<Finding>)
      modifies this
      ensures fs == DuplicateFindings(d, c, old(SeenSoFar())) && SeenSoFar() == Met(d, c, old(SeenSoFar()))
    {
      fs := [];
      if c.sha != "" {
        if c.sha in shaSeen {
          fs := fs + [Finding(Duplicate, c.id, Warn, true)];
        } else {
          shaSeen := shaSeen[c.sha := c.id];
        }
      }
      var t := d.lower(d.trim(c.title));
      if t != "" {
        if t in titleSeen && titleSeen[t] != c.id {
          fs := fs + [Finding(Duplicate, c.id, Warn, true)];
        } else if t !in titleSeen {
          titleSeen := titleSeen[t := c.id];
        }
      }
    }
  }

  method Scan(d: Detectors, concepts: seq<Concept>) returns (report: seq<Finding>)
    ensures report == Report(d, concepts)
  {
    var ids := IdsOf(concepts);
    var scanner := new Scanner(d, ids);
    report := [];
    hide Findings, Met;
    for i := 0 to |concepts|
      invariant fresh(scanner) && scanner.d == d && scanner.ids == ids
      invariant (report, scanner.SeenSoFar()) == AllFindings(d, concepts, ids, i)
    {
      var fs := scanner.ScanConcept(concepts[i]);
      report := report + fs;
    }
  }

  // ---- errors belong to one concept alone

  function Errors(fs: seq<Finding>): seq<Finding> {
    if fs == [] then []
    else
      var last := fs[|fs| - 1];
      Errors(fs[..|fs| - 1]) + if last.severity == Error then [last] else []
  }

  /** The error findings of a concept, whatever else is in the set. */
  function OwnErrors(d: Detectors, c: Concept): seq<Finding> {
    Errors(DeviationFindings(d, c, |d.deviations|) + TypeFindings(d, c) + TitleFindings(d, c))
  }

  lemma {:induction false} ErrorsConcat(a: seq<Finding>, b: seq<Finding>)
    ensures Errors(a + b) == Errors(a) + Errors(b)
    decreases |b|
  {
    if b == [] {
      assert a + b == a;
    } else {
      assert (a + b)[..|a + b| - 1] == a + b[..|b| - 1];
      ErrorsConcat(a, b[..|b| - 1]);
    }
  }

  lemma {:induction false} OnlyWarnings(fs: seq<Finding>)
    requires forall i :: 0 <= i < |fs| ==> fs[i].severity == Warn
    ensures Errors(fs) == []
    decreases |fs|
  {
    if fs != [] {
      OnlyWarnings(fs[..|fs| - 1]);
    }
  }

  lemma {:induction false} LinkWarnings(links: seq<string>, ids: set<string>, id: string)
    ensures forall i :: 0 <= i < |LinkFindings(links, ids, id)| ==> LinkFindings(links, ids, id)[i].severity == Warn
    decreases |links|
  {
    if links != [] {
      LinkWarnings(links[..|links| - 1], ids, id);
    }
  }

  /** The shared maps and the other ids only ever produce warnings. */
  lemma ErrorsAreOwn(d: Detectors, c: Concept, ids: set<string>, seen: Seen)
    ensures Errors(Findings(d, c, ids, seen)) == OwnErrors(d, c)
  {
    WarningsOnly(d, c, ids, seen);
    hide Errors, DeviationFindings, TypeFindings, SampleFindings, TitleFindings, BodyFindings, LinkFindings, DuplicateFindings;
    var a, b, s, t := DeviationFindings(d, c, |d.deviations|), TypeFindings(d, c), SampleFindings(d, c), TitleFindings(d, c);
    var u, v, w := BodyFindings(d, c), LinkFindings(d.links(c.body), ids, c.id), DuplicateFindings(d, c, seen);
    ErrorsConcat(a + b + s + t + u + v, w);
    ErrorsConcat(a + b + s + t + u, v);
    ErrorsConcat(a + b + s + t, u);
    ErrorsConcat(a + b + s, t);
    ErrorsConcat(a + b, s);
    ErrorsConcat(a + b, t);
  }

  lemma WarningsOnly(d: Detectors, c: Concept, ids: set<string>, seen: Seen)
    ensures Errors(SampleFindings(d, c)) == [] && Errors(BodyFindings(d, c)) == []
    ensures Errors(LinkFindings(d.links(c.body), ids, c.id)) == [] && Errors(DuplicateFindings(d, c, seen)) == []
  {
    hide Errors, LinkFindings;
    OnlyWarnings(SampleFindings(d, c));
    OnlyWarnings(BodyFindings(d, c));
    LinkWarnings(d.links(c.body), ids, c.id);
    OnlyWarnings(LinkFindings(d.links(c.body), ids, c.id));
    OnlyWarnings(DuplicateFindings(d, c, seen));
  }

  function ErrorsOn(fs: seq<Finding>, id: string): seq<Finding> {
    if fs == [] then []
    else
      var last := fs[|fs| - 1];
      ErrorsOn(fs[..|fs| - 1], id) + if last.severity == Error && last.id == id then [last] else []
  }

  /** The errors of the concepts with this id, each on its own. */
  function OwnErrorsOn(d: Detectors, concepts: seq<Concept>, id: string): seq<Finding> {
    if concepts == [] then []
    else
      var last := concepts[|concepts| - 1];
      OwnErrorsOn(d, concepts[..|concepts| - 1], id) + if last.id == id then OwnErrors(d, last) else []
  }

  lemma {:induction false} ErrorsOnConcat(a: seq<Finding>, b: seq<Finding>, id: string)
    ensures ErrorsOn(a + b, id) == ErrorsOn(a, id) + ErrorsOn(b, id)
    decreases |b|
  {
    if b == [] {
      assert a + b == a;
    } else {
      assert (a + b)[..|a + b| - 1] == a + b[..|b| - 1];
      ErrorsOnConcat(a, b[..|b| - 1], id);
    }
  }

  ghost predicate AllOf(fs: seq<Finding>, id: string) {
    forall i :: 0 <= i < |fs| ==> fs[i].id == id
  }

  lemma {:induction false} ErrorsOnOne(fs: seq<Finding>, id: string, other: string)
    requires AllOf(fs, id)
    ensures ErrorsOn(fs, other) == if other == id then Errors(fs) else []
    decreases |fs|
  {
    if fs != [] {
      ErrorsOnOne(fs[..|fs| - 1], id, other);
    }
  }

  lemma {:induction false} DeviationsOf(d: Detectors, c: Concept, n: nat)
    requires n <= |d.deviations|
    ensures AllOf(DeviationFindings(d, c, n), c.id)
  {
    if n > 0 {
      DeviationsOf(d, c, n - 1);
    }
  }

  lemma {:induction false} LinksOf(links: seq<string>, ids: set<string>, id: string)
    ensures AllOf(LinkFindings(links, ids, id), id)
    decreases |links|
  {
    if links != [] {
      LinksOf(links[..|links| - 1], ids, id);
    }
  }

  lemma FindingsOf(d: Detectors, c: Concept, ids: set<string>, seen: Seen)
    ensures AllOf(Findings(d, c, ids, seen), c.id)
  {
    var a, v := DeviationFindings(d, c, |d.deviations|), LinkFindings(d.links(c.body), ids, c.id);
    var b, s, t := TypeFindings(d, c), SampleFindings(d, c), TitleFindings(d, c);
    var u, w := BodyFindings(d, c), DuplicateFindings(d, c, seen);
    DeviationsOf(d, c, |d.deviations|);
    LinksOf(d.links(c.body), ids, c.id);
    assert AllOf(b, c.id) && AllOf(s, c.id) && AllOf(t, c.id) && AllOf(u, c.id) && AllOf(w, c.id);
    hide AllOf, DeviationFindings, TypeFindings, SampleFindings, TitleFindings, BodyFindings, LinkFindings, DuplicateFindings;
    AllOfConcat(a, b, c.id);
    AllOfConcat(a + b, s, c.id);
    AllOfConcat(a + b + s, t, c.id);
    AllOfConcat(a + b + s + t, u, c.id);
    AllOfConcat(a + b + s + t + u, v, c.id);
    AllOfConcat(a + b + s + t + u + v, w, c.id);
  }

  lemma AllOfConcat(a: seq<Finding>, b: seq<Finding>, id: string)
    requires AllOf(a, id) && AllOf(b, id)
    ensures AllOf(a + b, id)
  {
  }

  lemma {:induction false} ErrorsOfAll(d: Detectors, concepts: seq<Concept>, ids: set<string>, n: nat, id: string)
    requires n <= |concepts|
    ensures ErrorsOn(AllFindings(d, concepts, ids, n).0, id) == OwnErrorsOn(d, concepts[..n], id)
    decreases n
  {
    hide Findings, Met, OwnErrors, Errors, ErrorsOn;
    if n == 0 {
      NoErrors(id);
      assert concepts[..0] == [];
    } else {
      var before := AllFindings(d, concepts, ids, n - 1);
      var c := concepts[n - 1];
      ErrorsOfAll(d, concepts, ids, n - 1, id);
      FindingsOf(d, c, ids, before.1);
      ErrorsAreOwn(d, c, ids, before.1);
      ErrorsOnOne(Findings(d, c, ids, before.1), c.id, id);
      ErrorsOnConcat(before.0, Findings(d, c, ids, before.1), id);
      assert concepts[..n][..n - 1] == concepts[..n - 1];
    }
  }

  lemma NoErrors(id: string)
    ensures ErrorsOn([], id) == []
  {
  }

  /** The errors a scan reports on an id are those its concepts have on their own. */
  lemma ReportErrors(d: Detectors, concepts: seq<Concept>, id: string)
    ensures ErrorsOn(Report(d, concepts), id) == OwnErrorsOn(d, concepts, id)
  {
    ErrorsOfAll(d, concepts, IdsOf(concepts), |concepts|, id);
    assert concepts[..|concepts|] == concepts;
    hide AllFindings, ErrorsOn, OwnErrorsOn, IdsOf;
  }
}
