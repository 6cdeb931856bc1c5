/** The curate pass: routing findings to agents, gating what they propose, writing what
    passes (internal/curate/curate.go). */
module Curate {
  import opened Hygiene
  import opened Strings
  import opened Wrappers

  datatype Agent = DeviationAgent | HygieneAgent | ResearchAgent

  function AgentFor(c: Check): Option<Agent> {
    match c
    case Deviation => Some(DeviationAgent)
    case JunkTitle => Some(HygieneAgent)
    case BrokenLink => Some(HygieneAgent)
    case Duplicate => Some(HygieneAgent)
    case SampleData => Some(HygieneAgent)
    case StubBody => Some(ResearchAgent)
    case MissingType => None
    case MissingProv => None
  }

  function Priority(a: Agent): nat {
    match a
    case DeviationAgent => 0
    case HygieneAgent => 1
    case ResearchAgent => 2
  }

  /** The set of agents is gone through in any order. */
  method PickAgent(agents: set<Agent>) returns (best: Option<Agent>)
    ensures best.Some? <==> agents != {}
    ensures best.Some? ==> best.value in agents && forall a :: a in agents && a != best.value ==> Priority(best.value) < Priority(a)
  {
    var todo := agents;
    best := None;
    while todo != {}
      invariant todo <= agents
      invariant best.None? <==> todo == agents
      invariant best.Some? ==> best.value in agents && best.value !in todo
      invariant best.Some? ==> forall a :: a in agents && a !in todo && a != best.value ==> Priority(best.value) < Priority(a)
      decreases |todo|
    {
      SomeMember(todo);
      var a :| a in todo;
      todo := todo - {a};
      if best.None? || Priority(a) < Priority(best.value) {
        best := Some(a);
      }
    }
    if best.None? {
      assert agents == {};
    }
  }

  // ---- routing

  datatype Route = Route(id: string, agent: Agent, findings: seq<Finding>)

  ghost predicate Wants(fs: seq<Finding>, id: string, a: Agent) {
    exists i :: 0 <= i < |fs| && fs[i].id == id && fs[i].fixable && AgentFor(fs[i].check) == Some(a)
  }

  ghost predicate Routable(fs: seq<Finding>, id: string) {
    exists a :: Wants(fs, id, a)
  }

  function On(fs: seq<Finding>, id: string): seq<Finding> {
    if fs == [] then []
    else
      var last := fs[|fs| - 1];
      On(fs[..|fs| - 1], id) + if last.id == id then [last] else []
  }

  function RouteIds(routes: seq<Route>): (ids: seq<string>)
    ensures |ids| == |routes|
  {
    seq(|routes|, i requires 0 <= i < |routes| => routes[i].id)
  }

  /** One route for each concept that some agent could repair, in id order, to the agent
      of the highest priority, with all findings of the concept. */
  ghost predicate RoutesOk(fs: seq<Finding>, routes: seq<Route>) {
    && StrictlySorted(RouteIds(routes))
    && (forall id :: id in RouteIds(routes) <==> Routable(fs, id))
    && forall i :: 0 <= i < |routes| ==> RouteOk(fs, routes[i])
  }

  ghost predicate RouteOk(fs: seq<Finding>, r: Route) {
    && r.findings == On(fs, r.id) && Wants(fs, r.id, r.agent)
    && forall a :: Wants(fs, r.id, a) && a != r.agent ==> Priority(r.agent) < Priority(a)
  }

  // ---- the buckets

  function Bucket(agents: map<string, set<Agent>>, id: string): set<Agent> {
    if id in agents then agents[id] else {}
  }

  function BucketFindings(found: map<string, seq<Finding>>, id: string): seq<Finding> {
    if id in found then found[id] else []
  }

  ghost predicate BucketsOk(agents: map<string, set<Agent>>, found: map<string, seq<Finding>>, fs: seq<Finding>) {
    && (forall id, a :: a in Bucket(agents, id) <==> Wants(fs, id, a))
    && (forall id :: BucketFindings(found, id) == On(fs, id))
    && (forall id :: Bucket(agents, id) != {} ==> id in found)
    && forall id :: id in found <==> On(fs, id) != []
  }

  lemma WantsSnoc(fs: seq<Finding>, f: Finding, id: string, a: Agent)
    ensures Wants(fs + [f], id, a) <==> Wants(fs, id, a) || (f.id == id && f.fixable && AgentFor(f.check) == Some(a))
  {
    var all := fs + [f];
    assert all[|fs|] == f;
    if Wants(fs, id, a) {
      var i :| 0 <= i < |fs| && fs[i].id == id && fs[i].fixable && AgentFor(fs[i].check) == Some(a);
      assert all[i] == fs[i];
    }
  }

  lemma OnSnoc(fs: seq<Finding>, f: Finding, id: string)
    ensures On(fs + [f], id) == On(fs, id) + if f.id == id then [f] else []
  {
    assert (fs + [f])[..|fs|] == fs;
  }

  function NewAgents(agents: map<string, set<Agent>>, f: Finding): map<string, set<Agent>> {
    match AgentFor(f.check)
    case None => agents
    case Some(a) => if f.fixable then agents[f.id := Bucket(agents, f.id) + {a}] else agents
  }

  lemma BucketsStep(agents: map<string, set<Agent>>, found: map<string, seq<Finding>>, fs: seq<Finding>, f: Finding)
    requires BucketsOk(agents, found, fs)
    ensures BucketsOk(NewAgents(agents, f), found[f.id := BucketFindings(found, f.id) + [f]], fs + [f])
  {
    hide Wants, On;
    var more, listed := NewAgents(agents, f), found[f.id := BucketFindings(found, f.id) + [f]];
    forall id, a ensures a in Bucket(more, id) <==> Wants(fs + [f], id, a) {
      WantsSnoc(fs, f, id, a);
      assert a in Bucket(agents, id) <==> Wants(fs, id, a);
    }
    forall id ensures BucketFindings(listed, id) == On(fs + [f], id) && (id in listed <==> On(fs + [f], id) != []) {
      FoundStep(found, fs, f, id);
    }
    forall id | Bucket(more, id) != {} ensures id in listed {
      assert id != f.id ==> Bucket(more, id) == Bucket(agents, id);
    }
  }

  lemma FoundStep(found: map<string, seq<Finding>>, fs: seq<Finding>, f: Finding, id: string)
    requires BucketFindings(found, id) == On(fs, id) && (id in found <==> On(fs, id) != [])
    ensures
      var listed := found[f.id := BucketFindings(found, f.id) + [f]];
      BucketFindings(listed, id) == On(fs + [f], id) && (id in listed <==> On(fs + [f], id) != [])
  {
    hide On;
    OnSnoc(fs, f, id);
  }

  method FillBuckets(fs: seq<Finding>) returns (agents: map<string, set<Agent>>, found: map<string, seq<Finding>>)
    ensures BucketsOk(agents, found, fs)
  {
    agents, found := map[], map[];
    EmptyBuckets();
    hide BucketsOk;
    for i := 0 to |fs|
      invariant BucketsOk(agents, found, fs[..i])
    {
      var f := fs[i];
      BucketsStep(agents, found, fs[..i], f);
      assert fs[..i + 1] == fs[..i] + [f];
      found := found[f.id := BucketFindings(found, f.id) + [f]];
      if f.fixable {
        var a := AgentFor(f.check);
        if a.Some? {
          agents := agents[f.id := Bucket(agents, f.id) + {a.value}];
        }
      }
    }
    assert fs[..|fs|] == fs;
  }

  lemma EmptyBuckets()
    ensures BucketsOk(map[], map[], [])
  {
  }

  ghost predicate Before(order: seq<string>, i: nat, id: string) {
    exists m :: 0 <= m < i && m < |order| && order[m] == id
  }

  /** The routes for the first `i` ids. */
  ghost predicate Routed(fs: seq<Finding>, order: seq<string>, i: nat, routes: seq<Route>) {
    && StrictlySorted(RouteIds(routes))
    && (forall id :: id in RouteIds(routes) <==> Before(order, i, id) && Routable(fs, id))
    && forall k :: 0 <= k < |routes| ==> RouteOk(fs, routes[k])
  }

  ghost predicate Skipped(fs: seq<Finding>, order: seq<string>, i: nat, skipped: seq<string>) {
    forall id :: id in skipped <==> Before(order, i, id) && !Routable(fs, id)
  }

  lemma BeforeNext(order: seq<string>, i: nat, id: string)
    requires i < |order|
    ensures Before(order, i + 1, id) <==> Before(order, i, id) || order[i] == id
  {
  }

  lemma BeforeIsLess(order: seq<string>, i: nat, id: string)
    requires StrictlySorted(order) && i < |order| && Before(order, i, id)
    ensures Less(id, order[i])
  {
    hide Less;
  }

  lemma RouteAdd(fs: seq<Finding>, order: seq<string>, i: nat, routes: seq<Route>, r: Route)
    requires StrictlySorted(order) && i < |order| && Routed(fs, order, i, routes) && r.id == order[i] && RouteOk(fs, r)
    ensures Routed(fs, order, i + 1, routes + [r])
  {
    hide Less, RouteOk, Before, Routable;
    var more := routes + [r];
    IdsAppend(routes, r);
    Routable1(fs, r);
    forall id ensures id in RouteIds(more) <==> Before(order, i + 1, id) && Routable(fs, id) {
      BeforeNext(order, i, id);
    }
    forall k, l | 0 <= k < l < |more| ensures Less(RouteIds(more)[k], RouteIds(more)[l]) {
      if l == |routes| {
        assert RouteIds(routes)[k] in RouteIds(routes);
        BeforeIsLess(order, i, RouteIds(routes)[k]);
      } else {
        assert Less(RouteIds(routes)[k], RouteIds(routes)[l]);
      }
    }
  }

  lemma IdsAppend(routes: seq<Route>, r: Route)
    ensures RouteIds(routes + [r]) == RouteIds(routes) + [r.id]
  {
  }

  lemma Routable1(fs: seq<Finding>, r: Route)
    requires RouteOk(fs, r)
    ensures Routable(fs, r.id)
  {
    hide Wants, On;
  }

  lemma RouteNone(fs: seq<Finding>, order: seq<string>, i: nat, routes: seq<Route>)
    requires i < |order| && Routed(fs, order, i, routes) && !Routable(fs, order[i])
    ensures Routed(fs, order, i + 1, routes)
  {
    hide Less, RouteOk, Before, Routable, StrictlySorted;
    forall id ensures id in RouteIds(routes) <==> Before(order, i + 1, id) && Routable(fs, id) {
      BeforeNext(order, i, id);
    }
  }

  lemma SkipNext(fs: seq<Finding>, order: seq<string>, i: nat, skipped: seq<string>)
    requires i < |order| && Skipped(fs, order, i, skipped)
    ensures Skipped(fs, order, i + 1, if Routable(fs, order[i]) then skipped else skipped + [order[i]])
  {
    hide Before, Routable;
    var after := if Routable(fs, order[i]) then skipped else skipped + [order[i]];
    forall id ensures id in after <==> Before(order, i + 1, id) && !Routable(fs, id) {
      BeforeNext(order, i, id);
    }
  }

  lemma NoneRouted(fs: seq<Finding>, order: seq<string>)
    ensures Routed(fs, order, 0, []) && Skipped(fs, order, 0, [])
  {
  }

  /** A bucket with an agent in it makes the concept routable, and the other way round. */
  lemma BucketMeans(agents: map<string, set<Agent>>, found: map<string, seq<Finding>>, fs: seq<Finding>, id: string)
    requires BucketsOk(agents, found, fs)
    ensures Bucket(agents, id) != {} <==> Routable(fs, id)
    ensures forall a :: a in Bucket(agents, id) <==> Wants(fs, id, a)
    ensures BucketFindings(found, id) == On(fs, id)
    ensures Routable(fs, id) ==> id in found
  {
    hide Wants, On;
    SomeMember(Bucket(agents, id));
    if Routable(fs, id) {
      var a :| Wants(fs, id, a);
      assert a in Bucket(agents, id);
    }
  }

  lemma RouteIsOk(fs: seq<Finding>, r: Route, bucket: set<Agent>)
    requires forall a :: a in bucket <==> Wants(fs, r.id, a)
    requires r.findings == On(fs, r.id) && r.agent in bucket
    requires forall a :: a in bucket && a != r.agent ==> Priority(r.agent) < Priority(a)
    ensures RouteOk(fs, r)
  {
    hide Wants, On;
  }

  /** The concepts with findings that no agent could repair. */
  ghost predicate SkippedOk(fs: seq<Finding>, skipped: seq<string>) {
    forall id :: id in skipped <==> On(fs, id) != [] && !Routable(fs, id)
  }

  /** route: the concepts an agent could repair; the others with findings are skipped. */
  method RouteAll(fs: seq<Finding>) returns (routes: seq<Route>, skipped: seq<string>)
    ensures RoutesOk(fs, routes) && SkippedOk(fs, skipped)
  {
    hide BucketsOk, StrictlySorted, Wants, On, Routable, Bucket, BucketFindings, Routed, Skipped, RouteOk, RoutesOk, SkippedOk;
    var agents, found := FillBuckets(fs);
    var order := SortStrings(found.Keys);
    routes, skipped := [], [];
    NoneRouted(fs, order);
    for i := 0 to |order|
      invariant Routed(fs, order, i, routes) && Skipped(fs, order, i, skipped)
    {
      var id := order[i];
      BucketMeans(agents, found, fs, id);
      SkipNext(fs, order, i, skipped);
      var best := PickAgent(Bucket(agents, id));
      if best.None? {
        RouteNone(fs, order, i, routes);
        skipped := skipped + [id];
      } else {
        var r := Route(id, best.value, BucketFindings(found, id));
        RouteIsOk(fs, r, Bucket(agents, id));
        RouteAdd(fs, order, i, routes, r);
        routes := routes + [r];
      }
    }
    AllRouted(agents, found, fs, order, routes);
    AllSkippedIds(agents, found, fs, order, skipped);
  }

  lemma AllRouted(agents: map<string, set<Agent>>, found: map<string, seq<Finding>>, fs: seq<Finding>, order: seq<string>, routes: seq<Route>)
    requires BucketsOk(agents, found, fs) && (forall id :: id in order <==> id in found.Keys)
    requires Routed(fs, order, |order|, routes)
    ensures RoutesOk(fs, routes)
  {
    hide BucketsOk, StrictlySorted, RouteOk, Routable;
    forall id ensures id in RouteIds(routes) <==> Routable(fs, id) {
      if Routable(fs, id) {
        BucketMeans(agents, found, fs, id);
        assert id in order;
        var m :| 0 <= m < |order| && order[m] == id;
      }
    }
  }

  lemma AllSkippedIds(agents: map<string, set<Agent>>, found: map<string, seq<Finding>>, fs: seq<Finding>, order: seq<string>,
                      skipped: seq<string>)
    requires BucketsOk(agents, found, fs) && (forall id :: id in order <==> id in found.Keys)
    requires Skipped(fs, order, |order|, skipped)
    ensures SkippedOk(fs, skipped)
  {
    hide Routable, Wants, On;
    forall id ensures Before(order, |order|, id) <==> On(fs, id) != [] {
      assert id in found <==> On(fs, id) != [];
      if id in order {
        var m :| 0 <= m < |order| && order[m] == id;
      }
    }
  }

  // ---- the gate

  /** The set with the proposed concept in place of the one it replaces. */
  function Swap(concepts: seq<Concept>, p: Concept): (r: seq<Concept>)
    ensures |r| == |concepts|
  {
    seq(|concepts|, i requires 0 <= i < |concepts| => if concepts[i].id == p.id then p else concepts[i])
  }

  function Swapped(concepts: seq<Concept>, p: Concept): seq<Concept> {
    if p.id in IdsOf(concepts) then Swap(concepts, p) else concepts + [p]
  }

  method SwapIn(concepts: seq<Concept>, p: Concept) returns (swapped: seq<Concept>)
    ensures swapped == Swapped(concepts, p)
  {
    swapped := [];
    var replaced := false;
    for i := 0 to |concepts|
      invariant |swapped| == i && forall j :: 0 <= j < i ==> swapped[j] == if concepts[j].id == p.id then p else concepts[j]
      invariant replaced <==> exists j :: 0 <= j < i && concepts[j].id == p.id
    {
      if concepts[i].id == p.id {
        swapped := swapped + [p];
        replaced := true;
      } else {
        swapped := swapped + [concepts[i]];
      }
    }
    if !replaced {
      assert swapped == concepts;
      swapped := swapped + [p];
    }
  }

  /** What is still wrong with the proposed concept, in the set it would be part of. */
  method Gate(d: Detectors, concepts: seq<Concept>, p: Concept) returns (bad: seq<Finding>)
    ensures bad == ErrorsOn(Report(d, Swapped(concepts, p)), p.id)
  {
    hide Report, Swapped;
    var swapped := SwapIn(concepts, p);
    var report := Scan(d, swapped);
    bad := [];
    for i := 0 to |report|
      invariant bad == ErrorsOn(report[..i], p.id)
    {
      assert report[..i + 1][..i] == report[..i];
      if report[i].id == p.id && report[i].severity == Error {
        bad := bad + [report[i]];
      }
    }
    assert report[..|report|] == report;
  }

  lemma {:induction false} OwnErrorsClean(d: Detectors, concepts: seq<Concept>, p: Concept)
    requires forall i :: 0 <= i < |concepts| && concepts[i].id == p.id ==> concepts[i] == p
    ensures OwnErrors(d, p) == [] ==> OwnErrorsOn(d, concepts, p.id) == []
    ensures p in concepts && OwnErrorsOn(d, concepts, p.id) == [] ==> OwnErrors(d, p) == []
    decreases |concepts|
  {
    hide OwnErrors;
    if concepts != [] {
      var init, last := concepts[..|concepts| - 1], concepts[|concepts| - 1];
      assert concepts == init + [last];
      OwnErrorsClean(d, init, p);
    }
  }

  /** The gate lets a concept through exactly when the concept on its own has no error,
      whatever set it is gated in. */
  lemma GateIffClean(d: Detectors, concepts: seq<Concept>, p: Concept)
    ensures ErrorsOn(Report(d, Swapped(concepts, p)), p.id) == [] <==> OwnErrors(d, p) == []
  {
    var swapped := Swapped(concepts, p);
    SwappedHolds(concepts, p);
    ReportErrors(d, swapped, p.id);
    hide Report, Swapped, OwnErrorsOn, OwnErrors, ErrorsOn;
    OwnErrorsClean(d, swapped, p);
  }

  lemma SwappedHolds(concepts: seq<Concept>, p: Concept)
    ensures p in Swapped(concepts, p)
    ensures forall i :: 0 <= i < |Swapped(concepts, p)| && Swapped(concepts, p)[i].id == p.id ==> Swapped(concepts, p)[i] == p
  {
    if p.id in IdsOf(concepts) {
      var i :| 0 <= i < |concepts| && concepts[i].id == p.id;
      assert Swap(concepts, p)[i] == p;
    }
  }

  // ---- one pass

  datatype Status = SkippedItem | Applied | Proposed | Rejected | Failed | NoChange

  datatype Item = Item(id: string, status: Status)

  datatype Outcome = Outcome(routed: nat, applied: nat, proposed: nat, rejected: nat, errors: nat, items: seq<Item>)

  /** What an agent answers: nothing, or the concepts it proposes. */
  type Fixer = (Agent, Concept, seq<Finding>) -> Option<seq<Concept>>

  function Count(items: seq<Item>, s: Status): nat {
    if items == [] then 0
    else Count(items[..|items| - 1], s) + if items[|items| - 1].status == s then 1 else 0
  }

  lemma CountSnoc(items: seq<Item>, item: Item, s: Status)
    ensures Count(items + [item], s) == Count(items, s) + if item.status == s then 1 else 0
  {
    assert (items + [item])[..|items|] == items;
  }

  function SkippedItems(skipped: seq<string>): seq<Item> {
    seq(|skipped|, i requires 0 <= i < |skipped| => Item(skipped[i], SkippedItem))
  }

  ghost predicate DistinctIds(concepts: seq<Concept>) {
    forall i, j :: 0 <= i < j < |concepts| ==> concepts[i].id != concepts[j].id
  }

  /** Nothing was accepted but clean concepts for ids of the bundle, each once. */
  ghost predicate AcceptedOk(d: Detectors, ids: set<string>, accepted: seq<Concept>) {
    && DistinctIds(accepted)
    && forall i :: 0 <= i < |accepted| ==> accepted[i].id in ids && OwnErrors(d, accepted[i]) == []
  }

  /** The first of the proposed concepts that is for this id. */
  function FirstFor(proposed: seq<Concept>, id: string): (mine: Option<Concept>)
    ensures mine.Some? ==> mine.value.id == id
  {
    if proposed == [] then None
    else if proposed[0].id == id then Some(proposed[0])
    else FirstFor(proposed[1..], id)
  }

  /** proposalFor */
  method ProposalFor(proposed: seq<Concept>, id: string) returns (mine: Option<Concept>)
    ensures mine == FirstFor(proposed, id)
  {
    assert proposed[0..] == proposed;
    for i := 0 to |proposed|
      invariant FirstFor(proposed, id) == FirstFor(proposed[i..], id)
    {
      assert proposed[i..][1..] == proposed[i + 1..];
      if proposed[i].id == id {
        return Some(proposed[i]);
      }
    }
    mine := None;
  }

  /** The routes for the wanted ids; all of them when none is named. */
  function Wanted(routes: seq<Route>, ids: seq<string>): seq<Route> {
    if routes == [] then []
    else
      var n := |routes| - 1;
      Wanted(routes[..n], ids) + if ids == [] || routes[n].id in ids then [routes[n]] else []
  }

  function Limited(routes: seq<Route>, limit: int): seq<Route> {
    if 0 < limit < |routes| then routes[..limit] else routes
  }

  /** filterByIDs and the limit: some of the routes, in order. */
  method Restrict(routes: seq<Route>, ids: seq<string>, limit: int) returns (r: seq<Route>)
    requires StrictlySorted(RouteIds(routes))
    ensures r == Limited(Wanted(routes, ids), limit)
    ensures StrictlySorted(RouteIds(r)) && forall x :: x in r ==> x in routes
  {
    hide Less;
    r := [];
    for i := 0 to |routes|
      invariant r == Wanted(routes[..i], ids)
      invariant StrictlySorted(RouteIds(r)) && (forall x :: x in r ==> x in routes)
      invariant forall k :: 0 <= k < |r| ==> FromFirst(routes, i, r[k].id)
    {
      assert routes[..i + 1][..i] == routes[..i];
      if |ids| == 0 || routes[i].id in ids {
        KeptSorted(routes, r, i);
        r := r + [routes[i]];
      }
      MoreFirst(routes, i);
    }
    assert routes[..|routes|] == routes;
    if limit > 0 && |r| > limit {
      assert forall k :: 0 <= k < limit ==> RouteIds(r[..limit])[k] == RouteIds(r)[k];
      r := r[..limit];
    }
  }

  /** One of the first routes is for this id. */
  ghost predicate FromFirst(routes: seq<Route>, i: nat, id: string) {
    exists m :: 0 <= m < i && m < |routes| && routes[m].id == id
  }

  lemma MoreFirst(routes: seq<Route>, i: nat)
    requires i < |routes|
    ensures FromFirst(routes, i + 1, routes[i].id)
    ensures forall id :: FromFirst(routes, i, id) ==> FromFirst(routes, i + 1, id)
  {
  }

  lemma KeptSorted(routes: seq<Route>, r: seq<Route>, i: nat)
    requires StrictlySorted(RouteIds(routes)) && StrictlySorted(RouteIds(r)) && i < |routes|
    requires forall k :: 0 <= k < |r| ==> FromFirst(routes, i, r[k].id)
    ensures StrictlySorted(RouteIds(r + [routes[i]]))
  {
    hide Less;
    IdsAppend(r, routes[i]);
    forall k | 0 <= k < |r| ensures Less(RouteIds(r)[k], routes[i].id) {
      assert FromFirst(routes, i, r[k].id);
      var m :| 0 <= m < i && routes[m].id == r[k].id;
      assert Less(RouteIds(routes)[m], RouteIds(routes)[i]);
    }
  }

  lemma {:induction false} FoundIds(d: Detectors, concepts: seq<Concept>, ids: set<string>, n: nat)
    requires n <= |concepts|
    ensures forall i :: 0 <= i < |AllFindings(d, concepts, ids, n).0| ==> AllFindings(d, concepts, ids, n).0[i].id in IdsOf(concepts)
    decreases n
  {
    hide Findings, Met;
    if n > 0 {
      FoundIds(d, concepts, ids, n - 1);
      FindingsOf(d, concepts[n - 1], ids, AllFindings(d, concepts, ids, n - 1).1);
    }
  }

  /** A concept that is routed is one of the set. */
  lemma RoutedIsThere(d: Detectors, concepts: seq<Concept>, r: Route)
    requires RouteOk(Report(d, concepts), r)
    ensures r.id in IdsOf(concepts)
  {
    FoundIds(d, concepts, IdsOf(concepts), |concepts|);
    hide AllFindings, On;
    var fs := Report(d, concepts);
    var i :| 0 <= i < |fs| && fs[i].id == r.id && fs[i].fixable && AgentFor(fs[i].check) == Some(r.agent);
  }

  /** The last concept of each id. */
  function Index(concepts: seq<Concept>): (byId: map<string, Concept>)
    ensures byId.Keys == IdsOf(concepts)
  {
    if concepts == [] then map[]
    else
      var n := |concepts| - 1;
      assert concepts == concepts[..n] + [concepts[n]];
      IdsSnoc(concepts[..n], concepts[n]);
      Index(concepts[..n])[concepts[n].id := concepts[n]]
  }

  lemma IdsSnoc(concepts: seq<Concept>, c: Concept)
    ensures IdsOf(concepts + [c]) == IdsOf(concepts) + {c.id}
  {
    var all := concepts + [c];
    forall id ensures id in IdsOf(all) <==> id in IdsOf(concepts) || id == c.id {
      if id in IdsOf(concepts) {
        var i :| 0 <= i < |concepts| && concepts[i].id == id;
        assert all[i].id == id;
      }
      assert all[|concepts|].id == c.id;
    }
  }

  method ById(concepts: seq<Concept>) returns (byId: map<string, Concept>)
    ensures byId == Index(concepts)
  {
    byId := map[];
    for i := 0 to |concepts|
      invariant byId == Index(concepts[..i])
    {
      assert concepts[..i + 1][..i] == concepts[..i];
      byId := byId[concepts[i].id := concepts[i]];
    }
    assert concepts[..|concepts|] == concepts;
  }

  /** What one route comes to: a failing agent is an error, an answer without this concept
      no change; a proposal with errors of its own is rejected, any other is accepted. */
  function Verdict(d: Detectors, orig: Concept, r: Route, fixer: Fixer, apply: bool): (v: (Status, Option<Concept>))
    ensures v.0 != SkippedItem
    ensures v.1.Some? <==> v.0 == Applied
    ensures v.1.Some? ==> v.1.value.id == r.id && OwnErrors(d, v.1.value) == []
  {
    match fixer(r.agent, orig, r.findings)
    case None => (Failed, None)
    case Some(proposed) =>
      match FirstFor(proposed, r.id)
      case None => (NoChange, None)
      case Some(mine) =>
        if OwnErrors(d, mine) != [] then (Rejected, None)
        else if apply then (Applied, Some(mine))
        else (Proposed, None)
  }

  /** One route, the proposal gated in the set it would be part of. */
  method Treat(d: Detectors, concepts: seq<Concept>, orig: Concept, r: Route, fixer: Fixer, apply: bool)
    returns (item: Item, kept: Option<Concept>)
    ensures item.id == r.id && (item.status, kept) == Verdict(d, orig, r, fixer, apply)
  {
    kept := None;
    var answer := fixer(r.agent, orig, r.findings);
    if answer.None? {
      return Item(r.id, Failed), None;
    }
    var mine := ProposalFor(answer.value, r.id);
    if mine.None? {
      return Item(r.id, NoChange), None;
    }
    hide Report, Swapped, OwnErrors, ErrorsOn;
    var bad := Gate(d, concepts, mine.value);
    GateIffClean(d, concepts, mine.value);
    if |bad| > 0 {
      return Item(r.id, Rejected), None;
    }
    assert bad == [];
    if apply {
      return Item(r.id, Applied), mine;
    }
    item := Item(r.id, Proposed);
  }

  /** The items and the accepted concepts of the routes, in order. */
  function Treated(d: Detectors, byId: map<string, Concept>, routes: seq<Route>, fixer: Fixer, apply: bool): (seq<Item>, seq<Concept>)
    requires forall k :: 0 <= k < |routes| ==> routes[k].id in byId
  {
    if routes == [] then ([], [])
    else
      var n := |routes| - 1;
      var before := Treated(d, byId, routes[..n], fixer, apply);
      var v := Verdict(d, byId[routes[n].id], routes[n], fixer, apply);
      (before.0 + [Item(routes[n].id, v.0)], before.1 + if v.1.Some? then [v.1.value] else [])
  }

  function Tally(o: Outcome, status: Status): Outcome {
    match status
    case Applied => o.(applied := o.applied + 1)
    case Proposed => o.(proposed := o.proposed + 1)
    case Rejected => o.(rejected := o.rejected + 1)
    case Failed => o.(errors := o.errors + 1)
    case _ => o
  }

  /** Every concept handed to an agent is accounted for, each number being that of the
      items of its kind. */
  ghost predicate Adds(o: Outcome, done: nat) {
    && o.applied + o.proposed + o.rejected + o.errors + Count(o.items, NoChange) == done
    && o.applied == Count(o.items, Applied) && o.proposed == Count(o.items, Proposed)
    && o.rejected == Count(o.items, Rejected) && o.errors == Count(o.items, Failed)
  }

  lemma AddsNext(o: Outcome, done: nat, item: Item)
    requires Adds(o, done) && item.status != SkippedItem
    ensures Adds(Tally(o, item.status).(items := o.items + [item]), done + 1)
  {
    hide Count;
    CountSnoc(o.items, item, NoChange);
    CountSnoc(o.items, item, Applied);
    CountSnoc(o.items, item, Proposed);
    CountSnoc(o.items, item, Rejected);
    CountSnoc(o.items, item, Failed);
  }

  /** The routes a pass takes: those of the report, restricted to the wanted ids, limited. */
  ghost predicate Selected(fs: seq<Finding>, ids: seq<string>, limit: int, routes: seq<Route>) {
    exists all :: RoutesOk(fs, all) && routes == Limited(Wanted(all, ids), limit)
  }

  /** The pass. Its items are the skipped concepts and then what each route comes to; what
      is accepted is clean, belongs to the bundle and comes once, so that the batch that is
      written has distinct ids. */
  method Pass(d: Detectors, concepts: seq<Concept>, ids: seq<string>, limit: int, fixer: Fixer, apply: bool)
    returns (out: Outcome, accepted: seq<Concept>, ghost routes: seq<Route>, ghost skipped: seq<string>)
    ensures Selected(Report(d, concepts), ids, limit, routes) && SkippedOk(Report(d, concepts), skipped)
    ensures forall k :: 0 <= k < |routes| ==> routes[k].id in IdsOf(concepts)
    ensures
      var t := Treated(d, Index(concepts), routes, fixer, apply);
      out.items == SkippedItems(skipped) + t.0 && accepted == t.1
    ensures out.routed == |routes| && Adds(out, out.routed)
    ensures AcceptedOk(d, IdsOf(concepts), accepted)
  {
    hide Report, OwnErrors, Count, Adds, RouteOk, Less, FromFirst, Verdict, Treated, SkippedOk, RoutesOk, Wanted, Limited, Index, IdsOf;
    var report := Scan(d, concepts);
    var byId := ById(concepts);
    var all, left := RouteAll(report);
    SortedRoutes(report, all);
    var chosen := Restrict(all, ids, limit);
    routes, skipped := chosen, left;
    RestrictedOk(d, concepts, all, chosen);
    var items := SkipAll(left);
    out := Outcome(|chosen|, 0, 0, 0, 0, items);
    accepted := [];
    NoneYet(out);
    NoneTreated(d, byId, chosen, fixer, apply);
    for k := 0 to |chosen|
      invariant Adds(out, k) && out.routed == |chosen|
      invariant out.items == items + Treated(d, byId, chosen[..k], fixer, apply).0
      invariant accepted == Treated(d, byId, chosen[..k], fixer, apply).1
      invariant AcceptedOk(d, IdsOf(concepts), accepted)
      invariant forall i :: 0 <= i < |accepted| ==> FromFirst(chosen, k, accepted[i].id)
    {
      var r := chosen[k];
      var item, kept := Treat(d, concepts, byId[r.id], r, fixer, apply);
      TreatedNext(d, byId, chosen, k, fixer, apply);
      AddsNext(out, k, item);
      MoreFirst(chosen, k);
      if kept.Some? {
        AcceptOne(d, IdsOf(concepts), accepted, kept.value, chosen, k);
        accepted := accepted + [kept.value];
      }
      out := Tally(out, item.status).(items := out.items + [item]);
    }
    assert chosen[..|chosen|] == chosen;
  }

  lemma SortedRoutes(fs: seq<Finding>, routes: seq<Route>)
    requires RoutesOk(fs, routes)
    ensures StrictlySorted(RouteIds(routes))
  {
  }

  lemma NoneTreated(d: Detectors, byId: map<string, Concept>, routes: seq<Route>, fixer: Fixer, apply: bool)
    ensures Treated(d, byId, routes[..0], fixer, apply) == ([], [])
  {
  }

  lemma TreatedNext(d: Detectors, byId: map<string, Concept>, routes: seq<Route>, k: nat, fixer: Fixer, apply: bool)
    requires k < |routes| && forall i :: 0 <= i < |routes| ==> routes[i].id in byId
    ensures
      var t, v := Treated(d, byId, routes[..k], fixer, apply), Verdict(d, byId[routes[k].id], routes[k], fixer, apply);
      Treated(d, byId, routes[..k + 1], fixer, apply) ==
        (t.0 + [Item(routes[k].id, v.0)], t.1 + if v.1.Some? then [v.1.value] else [])
  {
    hide Verdict;
    assert routes[..k + 1][..k] == routes[..k];
  }

  lemma NoneYet(o: Outcome)
    requires o.applied == 0 && o.proposed == 0 && o.rejected == 0 && o.errors == 0
    requires forall i :: 0 <= i < |o.items| ==> o.items[i].status == SkippedItem
    ensures Adds(o, 0)
  {
    AllSkipped(o.items);
  }

  lemma {:induction false} AllSkipped(items: seq<Item>)
    requires forall i :: 0 <= i < |items| ==> items[i].status == SkippedItem
    ensures forall s :: s != SkippedItem ==> Count(items, s) == 0
    decreases |items|
  {
    if items != [] {
      AllSkipped(items[..|items| - 1]);
    }
  }

  method SkipAll(skipped: seq<string>) returns (items: seq<Item>)
    ensures items == SkippedItems(skipped)
  {
    items := [];
    for i := 0 to |skipped|
      invariant |items| == i && forall j :: 0 <= j < i ==> items[j] == Item(skipped[j], SkippedItem)
    {
      items := items + [Item(skipped[i], SkippedItem)];
    }
  }

  lemma RestrictedOk(d: Detectors, concepts: seq<Concept>, all: seq<Route>, routes: seq<Route>)
    requires RoutesOk(Report(d, concepts), all) && forall x :: x in routes ==> x in all
    ensures forall k :: 0 <= k < |routes| ==> routes[k].id in IdsOf(concepts)
  {
    hide Report, RouteOk, IdsOf, StrictlySorted, Routable;
    forall k | 0 <= k < |routes| ensures routes[k].id in IdsOf(concepts) {
      assert routes[k] in routes;
      var m :| 0 <= m < |all| && all[m] == routes[k];
      RoutedIsThere(d, concepts, all[m]);
    }
  }

  lemma AcceptOne(d: Detectors, ids: set<string>, accepted: seq<Concept>, c: Concept, routes: seq<Route>, k: nat)
    requires AcceptedOk(d, ids, accepted) && k < |routes| && StrictlySorted(RouteIds(routes))
    requires forall i :: 0 <= i < |accepted| ==> FromFirst(routes, k, accepted[i].id)
    requires c.id == routes[k].id && c.id in ids && OwnErrors(d, c) == []
    ensures AcceptedOk(d, ids, accepted + [c])
  {
    hide OwnErrors, Less;
    assert RouteIds(routes)[k] == c.id;
    forall i | 0 <= i < |accepted| ensures accepted[i].id != c.id {
      assert FromFirst(routes, k, accepted[i].id);
      var m :| 0 <= m < k && routes[m].id == accepted[i].id;
      assert Less(RouteIds(routes)[m], RouteIds(routes)[k]);
      NotLess(c.id);
    }
  }

  // ---- after the batch is written

  function Replacement(accepted: seq<Concept>, c: Concept): Concept {
    if accepted == [] then c
    else if accepted[0].id == c.id then accepted[0]
    else Replacement(accepted[1..], c)
  }

  /** The bundle with every accepted concept in place of the one it replaces. */
  function After(concepts: seq<Concept>, accepted: seq<Concept>): (r: seq<Concept>)
    ensures |r| == |concepts|
  {
    seq(|concepts|, i requires 0 <= i < |concepts| => Replacement(accepted, concepts[i]))
  }

  lemma {:induction false} ReplacementIs(accepted: seq<Concept>, c: Concept)
    ensures Replacement(accepted, c).id == c.id
    ensures c.id in IdsOf(accepted) ==> Replacement(accepted, c) in accepted
    ensures c.id !in IdsOf(accepted) ==> Replacement(accepted, c) == c
  {
    if accepted != [] {
      ReplacementIs(accepted[1..], c);
      assert accepted == [accepted[0]] + accepted[1..];
      if c.id in IdsOf(accepted) && accepted[0].id != c.id {
        var i :| 0 <= i < |accepted| && accepted[i].id == c.id;
        assert accepted[1..][i - 1].id == c.id;
      }
      if c.id in IdsOf(accepted[1..]) {
        var i :| 0 <= i < |accepted[1..]| && accepted[1..][i].id == c.id;
        assert accepted[i + 1].id == c.id;
      }
    }
  }

  lemma {:induction false} ErrorsAfter(d: Detectors, concepts: seq<Concept>, accepted: seq<Concept>, id: string)
    requires forall i :: 0 <= i < |accepted| ==> OwnErrors(d, accepted[i]) == []
    ensures OwnErrorsOn(d, After(concepts, accepted), id) == if id in IdsOf(accepted) then [] else OwnErrorsOn(d, concepts, id)
    decreases |concepts|
  {
    hide OwnErrors, Replacement, IdsOf;
    if concepts != [] {
      var n := |concepts| - 1;
      assert After(concepts, accepted)[..n] == After(concepts[..n], accepted);
      ErrorsAfter(d, concepts[..n], accepted, id);
      ReplacementIs(accepted, concepts[n]);
    }
  }

  /** After the pass is applied: no id was added or lost, no accepted concept has an error
      left, whatever else was accepted, and the errors of all others are what they were. */
  lemma AppliedPass(d: Detectors, concepts: seq<Concept>, accepted: seq<Concept>, id: string)
    requires AcceptedOk(d, IdsOf(concepts), accepted)
    ensures IdsOf(After(concepts, accepted)) == IdsOf(concepts)
    ensures ErrorsOn(Report(d, After(concepts, accepted)), id) ==
      if id in IdsOf(accepted) then [] else ErrorsOn(Report(d, concepts), id)
  {
    SameIds(concepts, accepted);
    hide Report, After, OwnErrors, OwnErrorsOn, ErrorsOn, IdsOf;
    ReportErrors(d, concepts, id);
    ReportErrors(d, After(concepts, accepted), id);
    ErrorsAfter(d, concepts, accepted, id);
  }

  lemma SameIds(concepts: seq<Concept>, accepted: seq<Concept>)
    ensures IdsOf(After(concepts, accepted)) == IdsOf(concepts)
  {
    var after := After(concepts, accepted);
    forall i | 0 <= i < |concepts| ensures after[i].id == concepts[i].id {
      ReplacementIs(accepted, concepts[i]);
    }
    hide Replacement, After;
  }
}
