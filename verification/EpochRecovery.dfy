/** Reindex rebuilds the tables from the bundle alone, from any state. */
module EpochRecovery {
  import opened Wrappers
  import opened EpochModel

  // ---- a whole concept, a whole batch

  ghost function ApplyConcept(env: Env, c: Concept, at: int, w: World): World {
    World(
      w.bundle[c.id := Doc(c.content, c.epoch, c.stamp)], w.log, w.commits,
      RecordFact(
        w.db.(
          concept := Upsert(w.db.concept, c),
          embedding := w.db.embedding[(c.id, c.epoch) := Embedding(env.embed(TextOf(c.content)), env.model, at)],
          edges := w.db.edges[c.id := c.links]),
        c, at))
  }

  ghost function ApplyBatch(env: Env, cs: seq<Concept>, at: int, w: World): World
    decreases |cs|
  {
    if cs == [] then w else ApplyBatch(env, cs[1..], at, ApplyConcept(env, cs[0], at, w))
  }

  lemma ConceptOpsApply(env: Env, c: Concept, at: int, w: World)
    ensures ApplyAll(ConceptOps(env, c, at), w) == ApplyConcept(env, c, at, w)
  {
    var e := Embedding(env.embed(TextOf(c.content)), env.model, at);
    var w1 := Apply(WriteFile(c), w);
    var w2 := Apply(UpsertRow(c), w1);
    var w3 := Apply(StoreEmbedding(c.id, c.epoch, e), w2);
    var w4 := Apply(ReplaceEdges(c.id, c.links), w3);
    var w5 := Apply(AppendFact(c, at), w4);
    var ops := ConceptOps(env, c, at);
    assert w5 == ApplyConcept(env, c, at, w);
    hide Apply, ApplyConcept;
    assert ApplyAll(ops[4..], w4) == w5 by { assert ops[4..][1..] == []; }
    assert ApplyAll(ops[3..], w3) == w5 by { assert ops[3..][1..] == ops[4..]; }
    assert ApplyAll(ops[2..], w2) == w5 by { assert ops[2..][1..] == ops[3..]; }
    assert ApplyAll(ops[1..], w1) == w5 by { assert ops[1..][1..] == ops[2..]; }
    assert ApplyAll(ops, w) == w5;
  }

  lemma {:induction false} BatchOpsApply(env: Env, cs: seq<Concept>, at: int, w: World)
    ensures ApplyAll(BatchOps(env, cs, at), w) == ApplyBatch(env, cs, at, w)
    decreases |cs|
  {
    hide Apply, ConceptOps, ApplyConcept;
    if cs != [] {
      ConceptOpsApply(env, cs[0], at, w);
      ApplyConcat(ConceptOps(env, cs[0], at), BatchOps(env, cs[1..], at), w);
      BatchOpsApply(env, cs[1..], at, ApplyConcept(env, cs[0], at, w));
    }
  }

  lemma {:induction false} ApplyBatchSnoc(env: Env, cs: seq<Concept>, c: Concept, at: int, w: World)
    ensures ApplyBatch(env, cs + [c], at, w) == ApplyConcept(env, c, at, ApplyBatch(env, cs, at, w))
    decreases |cs|
  {
    hide ApplyConcept;
    if cs == [] {
      assert (cs + [c])[1..] == [];
    } else {
      assert (cs + [c])[1..] == cs[1..] + [c];
      ApplyBatchSnoc(env, cs[1..], c, at, ApplyConcept(env, cs[0], at, w));
    }
  }

  // ---- tables that hold exactly a list of concepts at epoch 0

  ghost predicate DistinctIds(cs: seq<Concept>) {
    forall i, j :: 0 <= i < j < |cs| ==> cs[i].id != cs[j].id
  }

  ghost predicate HoldsRows(rows: map<Id, ConceptRow>, cs: seq<Concept>) {
    && rows.Keys == Ids(cs)
    && forall i :: 0 <= i < |cs| ==> cs[i].id in rows && rows[cs[i].id] == ConceptRow(cs[i].content, 0, 0)
  }

  ghost predicate HoldsEmbeddings(env: Env, rows: map<(Id, int), Embedding>, cs: seq<Concept>, at: int) {
    && (forall k :: k in rows ==> k.1 == 0 && k.0 in Ids(cs))
    && forall i :: 0 <= i < |cs| ==>
      (cs[i].id, 0) in rows && rows[(cs[i].id, 0)] == Embedding(env.embed(TextOf(cs[i].content)), env.model, at)
  }

  ghost predicate HoldsEdges(edges: map<Id, seq<Id>>, cs: seq<Concept>) {
    && edges.Keys == Ids(cs)
    && forall i :: 0 <= i < |cs| ==> cs[i].id in edges && edges[cs[i].id] == cs[i].links
  }

  /** One open version for each concept. */
  ghost predicate HoldsFacts(facts: seq<Fact>, cs: seq<Concept>, at: int) {
    && |facts| == |cs|
    && forall i :: 0 <= i < |cs| ==>
      && facts[i].id == cs[i].id && facts[i].kind == cs[i].content.kind && facts[i].title == cs[i].content.title
      && facts[i].sha == cs[i].content.sha && facts[i].epoch == 0
      && facts[i].validFrom == at && facts[i].validTo == None && facts[i].txTo == None
  }

  ghost predicate HoldsFiles(bundle: map<Id, File>, cs: seq<Concept>) {
    forall i :: 0 <= i < |cs| ==> cs[i].id in bundle && bundle[cs[i].id] == Doc(cs[i].content, 0, cs[i].stamp)
  }

  ghost predicate Holds(env: Env, cs: seq<Concept>, at: int, w: World) {
    && HoldsRows(w.db.concept, cs)
    && HoldsEmbeddings(env, w.db.embedding, cs, at)
    && HoldsEdges(w.db.edges, cs)
    && HoldsFacts(w.db.facts, cs, at)
    && HoldsFiles(w.bundle, cs)
  }

  lemma IdsSnoc(cs: seq<Concept>, c: Concept)
    ensures Ids(cs + [c]) == Ids(cs) + {c.id}
  {
    var all := cs + [c];
    forall id | id in Ids(cs) + {c.id} ensures id in Ids(all) {
      if id == c.id {
        assert all[|cs|].id == id;
      } else {
        var i :| 0 <= i < |cs| && cs[i].id == id;
        assert all[i].id == id;
      }
    }
  }

  lemma HoldsStep(env: Env, cs: seq<Concept>, c: Concept, at: int, w: World)
    requires Holds(env, cs, at, w) && c.epoch == 0 && c.id !in Ids(cs)
    ensures Holds(env, cs + [c], at, ApplyConcept(env, c, at, w))
  {
    TablesOnly(env, c, at, w);
    HoldsRowsStep(w.db.concept, cs, c);
    HoldsEmbeddingsStep(env, w.db.embedding, cs, c, at);
    HoldsEdgesStep(w.db.edges, cs, c);
    HoldsFactsStep(w.db, cs, c, at);
    HoldsFilesStep(w.bundle, cs, c);
    hide Upsert, RecordFact, HoldsRows, HoldsFacts, HoldsEdges, HoldsEmbeddings, HoldsFiles, Ids, ApplyConcept;
  }

  lemma TablesOnly(env: Env, c: Concept, at: int, w: World)
    ensures var w' := ApplyConcept(env, c, at, w);
      && w'.db.concept == Upsert(w.db.concept, c) && w'.db.edges == w.db.edges[c.id := c.links]
      && w'.db.embedding == w.db.embedding[(c.id, c.epoch) := Embedding(env.embed(TextOf(c.content)), env.model, at)]
      && w'.db.epochs == w.db.epochs && w'.db.clock == w.db.clock + 2
      && w'.db.facts == RecordFact(w.db, c, at).facts
      && w'.bundle == w.bundle[c.id := Doc(c.content, c.epoch, c.stamp)]
  {
  }

  lemma HoldsEmbeddingsStep(env: Env, rows: map<(Id, int), Embedding>, cs: seq<Concept>, c: Concept, at: int)
    requires HoldsEmbeddings(env, rows, cs, at) && c.epoch == 0 && c.id !in Ids(cs)
    ensures HoldsEmbeddings(env, rows[(c.id, 0) := Embedding(env.embed(TextOf(c.content)), env.model, at)], cs + [c], at)
  {
    IdsSnoc(cs, c);
    assert forall i :: 0 <= i < |cs| ==> cs[i].id in Ids(cs);
    hide Ids, TextOf;
  }

  lemma HoldsEdgesStep(edges: map<Id, seq<Id>>, cs: seq<Concept>, c: Concept)
    requires HoldsEdges(edges, cs) && c.id !in Ids(cs)
    ensures HoldsEdges(edges[c.id := c.links], cs + [c])
  {
    IdsSnoc(cs, c);
    assert forall i :: 0 <= i < |cs| ==> cs[i].id in Ids(cs);
    hide Ids;
  }

  lemma HoldsFilesStep(bundle: map<Id, File>, cs: seq<Concept>, c: Concept)
    requires HoldsFiles(bundle, cs) && c.epoch == 0 && c.id !in Ids(cs)
    ensures HoldsFiles(bundle[c.id := Doc(c.content, 0, c.stamp)], cs + [c])
  {
    assert forall i :: 0 <= i < |cs| ==> cs[i].id in Ids(cs);
    hide Ids;
  }

  lemma HoldsRowsStep(rows: map<Id, ConceptRow>, cs: seq<Concept>, c: Concept)
    requires HoldsRows(rows, cs) && c.epoch == 0 && c.id !in Ids(cs)
    ensures HoldsRows(Upsert(rows, c), cs + [c])
  {
    IdsSnoc(cs, c);
    assert forall i :: 0 <= i < |cs| ==> cs[i].id in Ids(cs);
  }

  lemma HoldsFactsStep(db: Db, cs: seq<Concept>, c: Concept, at: int)
    requires HoldsFacts(db.facts, cs, at) && c.epoch == 0 && c.id !in Ids(cs)
    ensures HoldsFacts(RecordFact(db, c, at).facts, cs + [c], at)
  {
    assert forall i :: 0 <= i < |cs| ==> cs[i].id in Ids(cs);
    assert forall i :: 0 <= i < |cs| ==> CloseOpen(db.facts, c.id, at, db.clock + 1)[i] == db.facts[i];
  }

  ghost predicate Blank(db: Db) {
    db.concept == map[] && db.embedding == map[] && db.edges == map[] && db.facts == []
  }

  lemma {:induction false} HoldsBatch(env: Env, cs: seq<Concept>, at: int, w: World)
    requires Blank(w.db)
    requires DistinctIds(cs) && forall i :: 0 <= i < |cs| ==> cs[i].epoch == 0
    ensures Holds(env, cs, at, ApplyBatch(env, cs, at, w))
    decreases |cs|
  {
    if cs == [] {
      assert Ids(cs) == {};
    } else {
      var init, c := cs[..|cs| - 1], cs[|cs| - 1];
      assert cs == init + [c];
      assert forall i :: 0 <= i < |init| ==> init[i] == cs[i];
      HoldsBatch(env, init, at, w);
      assert c.id !in Ids(init);
      hide Holds, ApplyConcept, Blank;
      ApplyBatchSnoc(env, init, c, at, w);
      HoldsStep(env, init, c, at, ApplyBatch(env, init, at, w));
    }
  }

  // ---- what else a batch leaves alone

  lemma {:induction false} BatchFrame(env: Env, cs: seq<Concept>, at: int, w: World)
    ensures var w' := ApplyBatch(env, cs, at, w);
      && w'.db.epochs == w.db.epochs && w'.log == w.log && w'.commits == w.commits
      && w'.bundle.Keys == w.bundle.Keys + Ids(cs)
      && w'.db.clock == w.db.clock + 2 * |cs|
    decreases |cs|
  {
    if cs == [] {
      assert Ids(cs) == {};
    } else {
      var w1 := ApplyConcept(env, cs[0], at, w);
      BatchFrame(env, cs[1..], at, w1);
      IdsCons(cs);
      assert w1.bundle.Keys == w.bundle.Keys + {cs[0].id};
      hide Ids, RecordFact, Upsert;
    }
  }

  lemma IdsCons(cs: seq<Concept>)
    requires cs != []
    ensures Ids(cs) == {cs[0].id} + Ids(cs[1..])
  {
    forall id | id in {cs[0].id} + Ids(cs[1..]) ensures id in Ids(cs) {
      if id != cs[0].id {
        var i :| 0 <= i < |cs[1..]| && cs[1..][i].id == id;
        assert cs[i + 1].id == id;
      }
    }
    forall id | id in Ids(cs) ensures id in {cs[0].id} + Ids(cs[1..]) {
      var i :| 0 <= i < |cs| && cs[i].id == id;
      assert i > 0 ==> cs[1..][i - 1].id == id;
    }
  }

  // ---- reading the bundle

  ghost predicate Readable(bundle: map<Id, File>) {
    forall id :: id in bundle ==> bundle[id].Doc?
  }

  lemma {:induction false} ReadFilesOk(env: Env, bundle: map<Id, File>, listing: seq<Id>)
    ensures ReadFiles(env, bundle, listing).Some? <==>
      forall i :: 0 <= i < |listing| ==> listing[i] in bundle && bundle[listing[i]].Doc?
    ensures ReadFiles(env, bundle, listing).Some? ==>
      forall i :: 0 <= i < |listing| ==> ReadFiles(env, bundle, listing).value[i] == ReadFile(env, bundle, listing[i])
  {
    if listing != [] {
      ReadFilesOk(env, bundle, listing[1..]);
      assert forall i :: 0 <= i < |listing[1..]| ==> listing[1..][i] == listing[i + 1];
      if forall i :: 0 <= i < |listing| ==> listing[i] in bundle && bundle[listing[i]].Doc? {
        assert listing[0] in bundle && bundle[listing[0]].Doc?;
      }
    }
  }

  /** The call fails before any write exactly when some file cannot be read. */
  lemma ReindexFailsIffUnreadable(env: Env, listing: seq<Id>, sweep: seq<Id>, w: World)
    requires ListingsOk(Reindex(listing), sweep, w)
    ensures Plan(env, Reindex(listing), sweep, w).None? <==> !Readable(w.bundle)
  {
    ReadFilesOk(env, w.bundle, listing);
    if ReadFiles(env, w.bundle, listing).Some? {
      forall id | id in w.bundle ensures w.bundle[id].Doc? {
        assert id in listing;
      }
    } else {
      var i :| 0 <= i < |listing| && !(listing[i] in w.bundle && w.bundle[listing[i]].Doc?);
      assert listing[i] in listing;
    }
    hide BatchOps, Renumbered;
  }

  // ---- the tables without their time stamps

  datatype Version = Version(id: Id, kind: string, title: string, sha: string, epoch: int, current: bool)

  datatype View = View(
    concept: map<Id, ConceptRow>,
    edges: map<Id, seq<Id>>,
    vectors: map<(Id, int), (string, string)>,
    versions: set<Version>,
    versionCount: nat,
    epochs: set<int>)

  function VersionOf(f: Fact): Version {
    Version(f.id, f.kind, f.title, f.sha, f.epoch, IsOpen(f) && f.validTo == None)
  }

  function ViewOf(db: Db): View {
    View(
      db.concept, db.edges,
      map k | k in db.embedding :: (db.embedding[k].vec, db.embedding[k].model),
      set i | 0 <= i < |db.facts| :: VersionOf(db.facts[i]),
      |db.facts|,
      db.epochs.Keys)
  }

  /** What Reindex makes of a bundle: nothing but the bundle goes into it. */
  ghost function Rebuilt(env: Env, bundle: map<Id, File>): View
    requires Readable(bundle)
  {
    View(
      map id | id in bundle :: ConceptRow(bundle[id].content, 0, 0),
      map id | id in bundle :: env.links(id, bundle[id].content.body),
      map k | k in Origins(bundle.Keys) :: (env.embed(TextOf(bundle[k.0].content)), env.model),
      set id | id in bundle ::
        Version(id, bundle[id].content.kind, bundle[id].content.title, bundle[id].content.sha, 0, true),
      |bundle|,
      {0})
  }

  function Origins(ids: set<Id>): (r: set<(Id, int)>)
    ensures forall k :: k in r <==> k.0 in ids && k.1 == 0
  {
    set id | id in ids :: (id, 0)
  }

  /** The files as Reindex leaves them: only the epoch changes. */
  ghost function Renumber(bundle: map<Id, File>): map<Id, File>
    requires Readable(bundle)
  {
    map id | id in bundle :: bundle[id].(epoch := 0)
  }

  lemma ListedSize(listing: seq<Id>, ids: set<Id>)
    requires Listed(listing, ids)
    ensures |listing| == |ids|
    decreases |listing|
  {
    if listing == [] {
      assert ids == {};
    } else {
      var last := listing[|listing| - 1];
      var init := listing[..|listing| - 1];
      assert forall id :: id in init <==> id in ids - {last} by {
        forall id ensures id in init <==> id in ids - {last} {
          if id in init {
            var i :| 0 <= i < |init| && init[i] == id;
            assert listing[i] == id && listing[i] in listing;
          }
          if id in ids - {last} {
            var i :| 0 <= i < |listing| && listing[i] == id;
            assert init[i] == id;
          }
        }
      }
      ListedSize(init, ids - {last});
    }
  }

  /** `rs` are the concepts of the bundle at epoch 0, one for each file. */
  ghost predicate AreFiles(env: Env, bundle: map<Id, File>, rs: seq<Concept>) {
    && Readable(bundle) && Ids(rs) == bundle.Keys && DistinctIds(rs) && |rs| == |bundle|
    && forall i :: 0 <= i < |rs| ==> rs[i].id in bundle && rs[i] == ReadFile(env, bundle, rs[i].id).(epoch := 0)
  }

  lemma IdsOfListing(listing: seq<Id>, ids: set<Id>, rs: seq<Concept>)
    requires Listed(listing, ids) && |rs| == |listing| && forall i :: 0 <= i < |rs| ==> rs[i].id == listing[i]
    ensures Ids(rs) == ids && DistinctIds(rs)
  {
    forall id ensures id in Ids(rs) <==> id in ids {
      assert id in listing <==> id in ids;
      if id in listing {
        var i :| 0 <= i < |listing| && listing[i] == id;
        assert rs[i].id == id;
      }
      if id in Ids(rs) {
        var i :| 0 <= i < |rs| && rs[i].id == id;
        assert listing[i] == id;
      }
    }
  }

  /** The concepts read are the files, one for each. */
  lemma ReadConcepts(env: Env, bundle: map<Id, File>, listing: seq<Id>) returns (cs: seq<Concept>)
    requires Listed(listing, bundle.Keys) && Readable(bundle)
    ensures ReadFiles(env, bundle, listing) == Some(cs)
    ensures AreFiles(env, bundle, Renumbered(cs, 0))
  {
    cs := ReadInOrder(env, bundle, listing);
    hide Listed, ReadFiles, ReadFile, AreFiles, Renumbered, Readable;
    ListedSize(listing, bundle.Keys);
    FilesInOrder(env, bundle, listing, cs);
  }

  lemma ReadInOrder(env: Env, bundle: map<Id, File>, listing: seq<Id>) returns (cs: seq<Concept>)
    requires Listed(listing, bundle.Keys) && Readable(bundle)
    ensures ReadFiles(env, bundle, listing) == Some(cs) && |cs| == |listing|
    ensures forall i :: 0 <= i < |listing| ==> listing[i] in bundle && cs[i] == ReadFile(env, bundle, listing[i])
  {
    ListedMembers(listing, bundle.Keys);
    ReadFilesOk(env, bundle, listing);
    hide Listed, ReadFile;
    assert forall i :: 0 <= i < |listing| ==> listing[i] in bundle.Keys;
    cs := match ReadFiles(env, bundle, listing) case Some(x) => x case None => [];
  }

  lemma FilesInOrder(env: Env, bundle: map<Id, File>, listing: seq<Id>, cs: seq<Concept>)
    requires Listed(listing, bundle.Keys) && Readable(bundle) && |cs| == |listing| == |bundle|
    requires forall i :: 0 <= i < |listing| ==> listing[i] in bundle && cs[i] == ReadFile(env, bundle, listing[i])
    ensures AreFiles(env, bundle, Renumbered(cs, 0))
  {
    var rs := Renumbered(cs, 0);
    assert forall i :: 0 <= i < |cs| ==> rs[i] == cs[i].(epoch := 0) && rs[i].id == listing[i];
    IdsOfListing(listing, bundle.Keys, rs);
    hide Listed, Ids, DistinctIds;
  }

  lemma ListedMembers(listing: seq<Id>, ids: set<Id>)
    requires Listed(listing, ids)
    ensures forall i :: 0 <= i < |listing| ==> listing[i] in ids
  {
    forall i | 0 <= i < |listing| ensures listing[i] in ids {
      assert listing[i] in listing;
    }
  }

  /** An emptied database gets epoch 0. */
  lemma FreshCut(w: World, count: nat) returns (w1: World)
    ensures w1 == Apply(CutEpoch("reindex", count, 0, 0), Apply(Truncate, w))
    ensures w1.bundle == w.bundle && Blank(w1.db)
    ensures w1.db.epochs.Keys == {0} && w1.db.epochs[0] == EpochRow(w.db.clock + 1, "reindex", None, count, 0, 0)
  {
    w1 := Apply(CutEpoch("reindex", count, 0, 0), Apply(Truncate, w));
    assert w1.db.epochs == map[0 := EpochRow(w.db.clock + 1, "reindex", None, count, 0, 0)];
  }

  lemma ReindexApply(env: Env, listing: seq<Id>, sweep: seq<Id>, w: World) returns (cs: seq<Concept>, w1: World)
    requires Listed(listing, w.bundle.Keys) && Readable(w.bundle)
    ensures Plan(env, Reindex(listing), sweep, w).Some?
    ensures ReadFiles(env, w.bundle, listing) == Some(cs)
    ensures w1.bundle == w.bundle && Blank(w1.db) && w1.db.epochs.Keys == {0}
    ensures w1.db.epochs[0] == EpochRow(w.db.clock + 1, "reindex", None, |cs|, 0, 0)
    ensures ApplyAll(Plan(env, Reindex(listing), sweep, w).value, w) ==
      Apply(PruneEmbeddings, ApplyBatch(env, Renumbered(cs, 0), w.db.clock + 1, w1))
  {
    hide Apply, BatchOps, Renumbered, ReadFiles, ApplyBatch, NextNumber, Readable, AreFiles, Listed;
    cs := ReadConcepts(env, w.bundle, listing);
    var at := w.db.clock + 1;
    var head := [Truncate, CutEpoch("reindex", |cs|, 0, 0)];
    var batch := BatchOps(env, Renumbered(cs, 0), at);
    var plan := Plan(env, Reindex(listing), sweep, w).value;
    assert plan == head + batch + [PruneEmbeddings];
    var w0 := Apply(Truncate, w);
    w1 := FreshCut(w, |cs|);
    ApplyHead(head, w, w0, w1);
    ApplyConcat(head + batch, [PruneEmbeddings], w);
    ApplyConcat(head, batch, w);
    BatchOpsApply(env, Renumbered(cs, 0), at, w1);
    ApplyOne(PruneEmbeddings, ApplyBatch(env, Renumbered(cs, 0), at, w1));
  }

  lemma ApplyHead(ops: seq<Op>, w: World, w0: World, w1: World)
    requires |ops| == 2 && w0 == Apply(ops[0], w) && w1 == Apply(ops[1], w0)
    ensures ApplyAll(ops, w) == w1
  {
    hide Apply;
    assert ops[1..][1..] == [];
    assert ApplyAll(ops[1..], w0) == w1;
  }

  lemma ApplyOne(op: Op, w: World)
    ensures ApplyAll([op], w) == Apply(op, w)
  {
    hide Apply;
    assert [op][1..] == [];
  }

  lemma ApplyNext(ops: seq<Op>, k: nat, w: World)
    requires k < |ops|
    ensures ApplyAll(ops[..k + 1], w) == Apply(ops[k], ApplyAll(ops[..k], w))
  {
    hide Apply;
    assert ops[..k + 1] == ops[..k] + [ops[k]];
    ApplyConcat(ops[..k], [ops[k]], w);
    ApplyOne(ops[k], ApplyAll(ops[..k], w));
  }

  lemma NoWrites(w: World)
    ensures ApplyAll([], w) == w
  {
  }

  /** From any state of the tables whatever, a completed Reindex leaves the tables
      that the bundle alone determines, and changes only the epoch of each file. */
  lemma ReindexRebuilds(env: Env, listing: seq<Id>, sweep: seq<Id>, w: World)
    requires ListingsOk(Reindex(listing), sweep, w) && Readable(w.bundle)
    ensures Plan(env, Reindex(listing), sweep, w).Some?
    ensures
      var w' := ApplyAll(Plan(env, Reindex(listing), sweep, w).value, w);
      ViewOf(w'.db) == Rebuilt(env, w.bundle) && w'.bundle == Renumber(w.bundle)
  {
    var at := w.db.clock + 1;
    var cs, w1 := ReindexApply(env, listing, sweep, w);
    var again := ReadConcepts(env, w.bundle, listing);
    var rs := Renumbered(cs, 0);
    assert again == cs;
    RebuildFromEmpty(env, w.bundle, rs, at, w1);
  }

  lemma RebuildFromEmpty(env: Env, bundle: map<Id, File>, rs: seq<Concept>, at: int, w: World)
    requires AreFiles(env, bundle, rs) && w.bundle == bundle && w.db.epochs.Keys == {0}
    requires Blank(w.db)
    ensures var w' := Apply(PruneEmbeddings, ApplyBatch(env, rs, at, w));
      ViewOf(w'.db) == Rebuilt(env, bundle) && w'.bundle == Renumber(bundle)
  {
    FilesAtZero(env, bundle, rs);
    hide *;
    var w2 := ApplyBatch(env, rs, at, w);
    HoldsBatch(env, rs, at, w);
    SameFiles(env, rs, at, w);
    PruneKeeps(env, rs, at, w2);
    RebuiltTables(env, bundle, rs, at, w2);
  }

  lemma SameFiles(env: Env, rs: seq<Concept>, at: int, w: World)
    requires Ids(rs) == w.bundle.Keys
    ensures ApplyBatch(env, rs, at, w).bundle.Keys == w.bundle.Keys
    ensures ApplyBatch(env, rs, at, w).db.epochs == w.db.epochs
  {
    hide *;
    BatchFrame(env, rs, at, w);
  }

  lemma FilesAtZero(env: Env, bundle: map<Id, File>, rs: seq<Concept>)
    requires AreFiles(env, bundle, rs)
    ensures DistinctIds(rs) && Ids(rs) == bundle.Keys && Readable(bundle)
    ensures forall i :: 0 <= i < |rs| ==> rs[i].epoch == 0
  {
  }

  lemma PruneKeeps(env: Env, cs: seq<Concept>, at: int, w: World)
    requires Holds(env, cs, at, w)
    ensures Apply(PruneEmbeddings, w) == w
  {
    PruneNothing(env, w.db.embedding, cs, at);
    hide HoldsRows, HoldsEdges, HoldsEmbeddings, HoldsFacts, HoldsFiles, Prune;
  }

  lemma PruneNothing(env: Env, rows: map<(Id, int), Embedding>, cs: seq<Concept>, at: int)
    requires HoldsEmbeddings(env, rows, cs, at)
    ensures Prune(rows) == rows
  {
    forall k | k in rows ensures !Superseded(rows, k) {
    }
  }

  lemma FileAt(env: Env, bundle: map<Id, File>, rs: seq<Concept>, id: Id) returns (i: nat)
    requires AreFiles(env, bundle, rs) && id in bundle
    ensures i < |rs| && rs[i].id == id && rs[i] == ReadFile(env, bundle, id).(epoch := 0)
  {
    assert id in Ids(rs);
    i :| 0 <= i < |rs| && rs[i].id == id;
  }

  lemma RowsRebuilt(env: Env, bundle: map<Id, File>, rs: seq<Concept>, rows: map<Id, ConceptRow>)
    requires AreFiles(env, bundle, rs) && HoldsRows(rows, rs)
    ensures rows == Rebuilt(env, bundle).concept
  {
    forall id | id in bundle ensures id in rows && rows[id] == ConceptRow(bundle[id].content, 0, 0) {
      var i := FileAt(env, bundle, rs, id);
    }
    hide Ids, AreFiles, HoldsRows;
  }

  lemma EdgesRebuilt(env: Env, bundle: map<Id, File>, rs: seq<Concept>, edges: map<Id, seq<Id>>)
    requires AreFiles(env, bundle, rs) && HoldsEdges(edges, rs)
    ensures edges == Rebuilt(env, bundle).edges
  {
    forall id | id in bundle ensures id in edges && edges[id] == env.links(id, bundle[id].content.body) {
      var i := FileAt(env, bundle, rs, id);
    }
  }

  lemma VectorsRebuilt(env: Env, bundle: map<Id, File>, rs: seq<Concept>, rows: map<(Id, int), Embedding>, at: int)
    requires AreFiles(env, bundle, rs) && HoldsEmbeddings(env, rows, rs, at)
    ensures (map k | k in rows :: (rows[k].vec, rows[k].model)) == Rebuilt(env, bundle).vectors
  {
    forall k | k in Origins(bundle.Keys)
      ensures k in rows && (rows[k].vec, rows[k].model) == (env.embed(TextOf(bundle[k.0].content)), env.model)
    {
      var i := FileAt(env, bundle, rs, k.0);
      assert k == (rs[i].id, 0);
    }
    assert forall k :: k in rows ==> k in Origins(bundle.Keys);
    hide HoldsEmbeddings, AreFiles, Origins, TextOf;
  }

  lemma VersionsRebuilt(env: Env, bundle: map<Id, File>, rs: seq<Concept>, facts: seq<Fact>, at: int)
    requires AreFiles(env, bundle, rs) && HoldsFacts(facts, rs, at)
    ensures (set i | 0 <= i < |facts| :: VersionOf(facts[i])) == Rebuilt(env, bundle).versions
    ensures |facts| == Rebuilt(env, bundle).versionCount
  {
    var vs := Rebuilt(env, bundle).versions;
    forall i | 0 <= i < |facts| ensures VersionOf(facts[i]) in vs {
      assert rs[i].id in bundle;
    }
    forall v | v in vs ensures v in set i | 0 <= i < |facts| :: VersionOf(facts[i]) {
      var id :| id in bundle && v == Version(id, bundle[id].content.kind, bundle[id].content.title, bundle[id].content.sha, 0, true);
      var i := FileAt(env, bundle, rs, id);
      assert VersionOf(facts[i]) == v;
    }
  }

  lemma FilesRenumbered(env: Env, bundle: map<Id, File>, rs: seq<Concept>, after: map<Id, File>)
    requires AreFiles(env, bundle, rs) && HoldsFiles(after, rs) && after.Keys == bundle.Keys
    ensures after == Renumber(bundle)
  {
    forall id | id in bundle ensures after[id] == bundle[id].(epoch := 0) {
      var i := FileAt(env, bundle, rs, id);
    }
  }

  lemma RebuiltTables(env: Env, bundle: map<Id, File>, rs: seq<Concept>, at: int, w: World)
    requires AreFiles(env, bundle, rs) && Holds(env, rs, at, w) && w.db.epochs.Keys == {0} && w.bundle.Keys == bundle.Keys
    ensures ViewOf(w.db) == Rebuilt(env, bundle) && w.bundle == Renumber(bundle)
  {
    RowsRebuilt(env, bundle, rs, w.db.concept);
    EdgesRebuilt(env, bundle, rs, w.db.edges);
    VectorsRebuilt(env, bundle, rs, w.db.embedding, at);
    VersionsRebuilt(env, bundle, rs, w.db.facts, at);
    FilesRenumbered(env, bundle, rs, w.bundle);
    hide HoldsRows, HoldsEdges, HoldsEmbeddings, HoldsFacts, HoldsFiles, AreFiles, VersionOf;
  }
}
