/** What the calls do to the bundle, when they complete and when they stop halfway. */
module EpochBundle {
  import opened Wrappers
  import opened EpochModel
  import opened EpochRecovery

  /** The bundle after some writes; the tables have no say in it. */
  function FilesAfter(ops: seq<Op>, bundle: map<Id, File>): map<Id, File>
    decreases |ops|
  {
    if ops == [] then bundle else FilesAfter(ops[1..], FileStep(ops[0], bundle))
  }

  function FileStep(op: Op, bundle: map<Id, File>): map<Id, File> {
    match op
    case WriteFile(c) => bundle[c.id := FileOf(c)]
    case DeleteFile(id) => bundle - {id}
    case _ => bundle
  }

  function FileOf(c: Concept): File {
    Doc(c.content, c.epoch, c.stamp)
  }

  lemma {:induction false} BundleIsFilesAfter(ops: seq<Op>, w: World)
    ensures ApplyAll(ops, w).bundle == FilesAfter(ops, w.bundle)
    decreases |ops|
  {
    if ops != [] {
      StepBundle(ops[0], w);
      hide Apply, FileStep;
      BundleIsFilesAfter(ops[1..], Apply(ops[0], w));
    }
  }

  lemma StepBundle(op: Op, w: World)
    ensures Apply(op, w).bundle == FileStep(op, w.bundle)
  {
    hide Upsert, RecordFact, Prune, NextNumber;
  }

  lemma {:induction false} FilesAfterConcat(a: seq<Op>, b: seq<Op>, bundle: map<Id, File>)
    ensures FilesAfter(a + b, bundle) == FilesAfter(b, FilesAfter(a, bundle))
    decreases |a|
  {
    hide FileStep;
    if a == [] {
      assert a + b == b;
    } else {
      assert (a + b)[1..] == a[1..] + b;
      FilesAfterConcat(a[1..], b, FileStep(a[0], bundle));
    }
  }

  // ---- writing a batch

  /** The file holds one of the concepts of the batch with this id. */
  ghost predicate Wrote(cs: seq<Concept>, id: Id, f: File) {
    exists i :: 0 <= i < |cs| && cs[i].id == id && f == FileOf(cs[i])
  }

  /** The only files these writes touch become concepts of the batch. */
  ghost predicate WritesOf(ops: seq<Op>, cs: seq<Concept>) {
    forall i :: 0 <= i < |ops| ==> WriteOf(ops[i], cs)
  }

  ghost predicate WriteOf(op: Op, cs: seq<Concept>) {
    match op
    case WriteFile(c) => c in cs
    case DeleteFile(_) => false
    case _ => true
  }

  ghost predicate OldOrNew(before: map<Id, File>, after: map<Id, File>, cs: seq<Concept>) {
    && before.Keys <= after.Keys
    && forall id :: id in after ==> (id in before && after[id] == before[id]) || Wrote(cs, id, after[id])
  }

  lemma {:induction false} WritesLeaveOldOrNew(ops: seq<Op>, cs: seq<Concept>, before: map<Id, File>, now: map<Id, File>)
    requires WritesOf(ops, cs) && OldOrNew(before, now, cs)
    ensures OldOrNew(before, FilesAfter(ops, now), cs)
    decreases |ops|
  {
    if ops != [] {
      assert WriteOf(ops[0], cs);
      assert forall i :: 0 <= i < |ops[1..]| ==> ops[1..][i] == ops[i + 1];
      StepOldOrNew(ops[0], cs, before, now);
      hide OldOrNew, FileStep, WriteOf;
      WritesLeaveOldOrNew(ops[1..], cs, before, FileStep(ops[0], now));
    }
  }

  lemma StepOldOrNew(op: Op, cs: seq<Concept>, before: map<Id, File>, now: map<Id, File>)
    requires WriteOf(op, cs) && OldOrNew(before, now, cs)
    ensures OldOrNew(before, FileStep(op, now), cs)
  {
    if op.WriteFile? {
      var i :| 0 <= i < |cs| && cs[i] == op.c;
      assert Wrote(cs, op.c.id, FileOf(op.c));
    }
    hide Wrote, FileOf;
  }

  lemma {:induction false} BatchWrites(env: Env, part: seq<Concept>, cs: seq<Concept>, at: int)
    requires forall i :: 0 <= i < |part| ==> part[i] in cs
    ensures WritesOf(BatchOps(env, part, at), cs)
    decreases |part|
  {
    if part != [] {
      assert part[0] in cs;
      ConceptWrites(env, part[0], cs, at);
      assert forall i :: 0 <= i < |part[1..]| ==> part[1..][i] == part[i + 1];
      BatchWrites(env, part[1..], cs, at);
      hide WriteOf, ConceptOps;
    }
  }

  lemma ConceptWrites(env: Env, c: Concept, cs: seq<Concept>, at: int)
    requires c in cs
    ensures WritesOf(ConceptOps(env, c, at), cs)
  {
    var ops := ConceptOps(env, c, at);
    assert WriteOf(ops[0], cs);
    hide TextOf;
  }

  lemma WritesPrefix(ops: seq<Op>, cs: seq<Concept>, k: nat)
    requires WritesOf(ops, cs) && k <= |ops|
    ensures WritesOf(ops[..k], cs)
  {
    hide WriteOf;
  }

  lemma WritesConcat(a: seq<Op>, b: seq<Op>, cs: seq<Concept>)
    requires WritesOf(a, cs) && WritesOf(b, cs)
    ensures WritesOf(a + b, cs)
  {
    hide WriteOf;
  }

  function Overwrite(bundle: map<Id, File>, cs: seq<Concept>): map<Id, File>
    decreases |cs|
  {
    if cs == [] then bundle else Overwrite(bundle[cs[0].id := FileOf(cs[0])], cs[1..])
  }

  lemma {:induction false} BatchFiles(env: Env, cs: seq<Concept>, at: int, bundle: map<Id, File>)
    ensures FilesAfter(BatchOps(env, cs, at), bundle) == Overwrite(bundle, cs)
    decreases |cs|
  {
    if cs != [] {
      FilesAfterConcat(ConceptOps(env, cs[0], at), BatchOps(env, cs[1..], at), bundle);
      ConceptFiles(env, cs[0], at, bundle);
      hide FileOf, ConceptOps;
      BatchFiles(env, cs[1..], at, bundle[cs[0].id := FileOf(cs[0])]);
    }
  }

  lemma ConceptFiles(env: Env, c: Concept, at: int, bundle: map<Id, File>)
    ensures FilesAfter(ConceptOps(env, c, at), bundle) == bundle[c.id := FileOf(c)]
  {
    var ops := ConceptOps(env, c, at);
    var b := bundle[c.id := FileOf(c)];
    hide TextOf, FileOf;
    assert FileStep(ops[0], bundle) == b;
    assert FilesAfter(ops[1..], b) == b by {
      Untouched(ops[1..], b);
    }
  }

  lemma {:induction false} Untouched(ops: seq<Op>, bundle: map<Id, File>)
    requires forall i :: 0 <= i < |ops| ==> !ops[i].WriteFile? && !ops[i].DeleteFile?
    ensures FilesAfter(ops, bundle) == bundle
    decreases |ops|
  {
    if ops != [] {
      assert forall i :: 0 <= i < |ops[1..]| ==> ops[1..][i] == ops[i + 1];
      Untouched(ops[1..], bundle);
    }
  }

  lemma {:induction false} OverwriteHolds(bundle: map<Id, File>, cs: seq<Concept>)
    ensures Overwrite(bundle, cs).Keys == bundle.Keys + Ids(cs)
    ensures forall id :: id in Ids(cs) ==> id in Overwrite(bundle, cs) && Wrote(cs, id, Overwrite(bundle, cs)[id])
    decreases |cs|
  {
    if cs == [] {
      assert Ids(cs) == {};
    } else {
      var init, c := cs[..|cs| - 1], cs[|cs| - 1];
      assert cs == init + [c];
      OverwriteSnoc(bundle, init, c);
      OverwriteHolds(bundle, init);
      IdsSnoc(init, c);
      WroteSnoc(init, c);
      hide Overwrite, FileOf, Ids, Wrote;
    }
  }

  lemma WroteSnoc(cs: seq<Concept>, c: Concept)
    ensures Wrote(cs + [c], c.id, FileOf(c))
    ensures forall id, f :: Wrote(cs, id, f) ==> Wrote(cs + [c], id, f)
  {
    hide FileOf;
    assert (cs + [c])[|cs|] == c;
    forall id, f | Wrote(cs, id, f) ensures Wrote(cs + [c], id, f) {
      var i :| 0 <= i < |cs| && cs[i].id == id && f == FileOf(cs[i]);
      assert (cs + [c])[i] == cs[i];
    }
  }

  lemma {:induction false} OverwriteSnoc(bundle: map<Id, File>, cs: seq<Concept>, c: Concept)
    ensures Overwrite(bundle, cs + [c]) == Overwrite(bundle, cs)[c.id := FileOf(c)]
    decreases |cs|
  {
    hide FileOf;
    if cs == [] {
      assert (cs + [c])[1..] == [];
    } else {
      assert (cs + [c])[1..] == cs[1..] + [c];
      OverwriteSnoc(bundle[cs[0].id := FileOf(cs[0])], cs[1..], c);
    }
  }

  // ---- deleting

  function Members(ids: seq<Id>): set<Id> {
    set i | 0 <= i < |ids| :: ids[i]
  }

  lemma {:induction false} DeletedFiles(ids: seq<Id>, bundle: map<Id, File>)
    ensures FilesAfter(DeleteOps(ids), bundle) == bundle - Members(ids)
    decreases |ids|
  {
    if ids == [] {
      assert bundle - Members(ids) == bundle;
    } else {
      var ops := DeleteOps(ids);
      assert ops[1..] == DeleteOps(ids[1..]);
      assert ops[0] == DeleteFile(ids[0]);
      DeletedFiles(ids[1..], bundle - {ids[0]});
      MembersCons(ids);
      hide DeleteOps, Members;
      assert bundle - {ids[0]} - Members(ids[1..]) == bundle - ({ids[0]} + Members(ids[1..]));
    }
  }

  lemma MembersCons(ids: seq<Id>)
    requires ids != []
    ensures Members(ids) == {ids[0]} + Members(ids[1..])
  {
    assert forall i :: 0 <= i < |ids[1..]| ==> ids[1..][i] == ids[i + 1];
    forall id | id in Members(ids) ensures id in {ids[0]} + Members(ids[1..]) {
      var i :| 0 <= i < |ids| && ids[i] == id;
      assert i > 0 ==> ids[1..][i - 1] == id;
    }
  }

  // ---- Run

  /** The concepts of the batch as Run stamps them. */
  ghost function RunStamped(env: Env, cs: seq<Concept>, w: World): (r: seq<Concept>)
    ensures |r| == |cs| && forall i :: 0 <= i < |cs| ==> r[i].id == cs[i].id && r[i].content == cs[i].content
    ensures forall i :: 0 <= i < |cs| ==>
      r[i].epoch == NextNumber(w.db.epochs) && r[i].stamp == Stamp(w.db.clock + 1, env.model)
  {
    StampedAll(env, cs, NextNumber(w.db.epochs), w.db.clock + 1)
  }

  lemma RunShape(env: Env, cs: seq<Concept>, source: string, sweep: seq<Id>, w: World) returns (cut: seq<Op>, end: seq<Op>)
    ensures Plan(env, Run(cs, source), sweep, w) ==
      Some(cut + BatchOps(env, RunStamped(env, cs, w), w.db.clock + 1) + DeleteOps(sweep) + end)
    ensures forall i :: 0 <= i < |cut| ==> !cut[i].WriteFile? && !cut[i].DeleteFile?
    ensures forall i :: 0 <= i < |end| ==> !end[i].WriteFile? && !end[i].DeleteFile?
  {
    var n, at := NextNumber(w.db.epochs), w.db.clock + 1;
    var d := DiffSets(CurrentShas(w.db), BatchShas(cs));
    cut := [CutEpoch(source, |d.added|, |d.changed|, |d.removed|)];
    end := FinishOps(n, LogLine(at, n, source, |d.added|, |d.changed|, |d.removed|), w.commits + 1);
    hide BatchOps, DeleteOps, StampedAll, DiffSets, CurrentShas, BatchShas;
  }

  lemma SweepMembers(cs: seq<Concept>, source: string, sweep: seq<Id>, w: World)
    requires ListingsOk(Run(cs, source), sweep, w)
    ensures Members(sweep) == w.bundle.Keys - Ids(cs)
  {
    forall id ensures id in Members(sweep) <==> id in w.bundle.Keys - Ids(cs) {
      assert id in sweep <==> id in w.bundle.Keys - Ids(cs);
    }
  }

  lemma SameIds(cs: seq<Concept>, rs: seq<Concept>)
    requires |cs| == |rs| && forall i :: 0 <= i < |cs| ==> rs[i].id == cs[i].id
    ensures Ids(rs) == Ids(cs)
  {
  }

  lemma RunFiles(env: Env, cs: seq<Concept>, source: string, sweep: seq<Id>, w: World)
    requires ListingsOk(Run(cs, source), sweep, w)
    ensures Plan(env, Run(cs, source), sweep, w).Some?
    ensures FilesAfter(Plan(env, Run(cs, source), sweep, w).value, w.bundle) ==
      Overwrite(w.bundle, RunStamped(env, cs, w)) - (w.bundle.Keys - Ids(cs))
  {
    var cut, end := RunShape(env, cs, source, sweep, w);
    SweepMembers(cs, source, sweep, w);
    var rs := RunStamped(env, cs, w);
    var batch := BatchOps(env, rs, w.db.clock + 1);
    hide *;
    FilesAfterConcat(cut + batch + DeleteOps(sweep), end, w.bundle);
    FilesAfterConcat(cut + batch, DeleteOps(sweep), w.bundle);
    FilesAfterConcat(cut, batch, w.bundle);
    Untouched(cut, w.bundle);
    BatchFiles(env, rs, w.db.clock + 1, w.bundle);
    DeletedFiles(sweep, Overwrite(w.bundle, rs));
    Untouched(end, Overwrite(w.bundle, rs) - Members(sweep));
  }

  /** A completed Run makes the bundle exactly its input, whatever was there, even
      files that could not be read. */
  lemma RunBundle(env: Env, cs: seq<Concept>, source: string, sweep: seq<Id>, w: World)
    requires ListingsOk(Run(cs, source), sweep, w)
    ensures Plan(env, Run(cs, source), sweep, w).Some?
    ensures
      var after := ApplyAll(Plan(env, Run(cs, source), sweep, w).value, w).bundle;
      && after.Keys == Ids(cs)
      && Readable(after)
      && forall id :: id in after ==> Wrote(RunStamped(env, cs, w), id, after[id])
  {
    RunFiles(env, cs, source, sweep, w);
    var plan := Plan(env, Run(cs, source), sweep, w).value;
    BundleIsFilesAfter(plan, w);
    var rs := RunStamped(env, cs, w);
    OverwriteHolds(w.bundle, rs);
    SameIds(cs, rs);
    hide FilesAfter, ApplyAll, Overwrite, Plan, Ids, RunStamped, ListingsOk, StampedAll;
  }

  /** Where Run stops does not matter for the bundle's safety: every file is the old
      one or one of the batch, and a file disappears only when no concept of the batch
      has its id and the whole batch is on disk. */
  lemma InterruptedRunBundle(env: Env, cs: seq<Concept>, source: string, sweep: seq<Id>, w: World, k: nat)
    requires ListingsOk(Run(cs, source), sweep, w)
    requires Plan(env, Run(cs, source), sweep, w).Some? && k <= |Plan(env, Run(cs, source), sweep, w).value|
    ensures
      var after := ApplyAll(Plan(env, Run(cs, source), sweep, w).value[..k], w).bundle;
      var rs := RunStamped(env, cs, w);
      && (forall id :: id in after ==> (id in w.bundle && after[id] == w.bundle[id]) || Wrote(rs, id, after[id]))
      && forall id :: id in w.bundle && id !in after ==>
        id !in Ids(cs) && forall other :: other in Ids(cs) ==> other in after && Wrote(rs, other, after[other])
  {
    var plan := Plan(env, Run(cs, source), sweep, w).value;
    BundleIsFilesAfter(plan[..k], w);
    var cut, end := RunShape(env, cs, source, sweep, w);
    SweepMembers(cs, source, sweep, w);
    var rs := RunStamped(env, cs, w);
    SameIds(cs, rs);
    var at := w.db.clock + 1;
    hide ApplyAll, Plan, Ids, RunStamped, StampedAll, ListingsOk;
    InterruptedFiles(env, rs, at, cut, sweep, end, w.bundle, k);
  }

  lemma InterruptedFiles(env: Env, rs: seq<Concept>, at: int, cut: seq<Op>, sweep: seq<Id>, end: seq<Op>, bundle: map<Id, File>, k: nat)
    requires forall i :: 0 <= i < |cut| ==> !cut[i].WriteFile? && !cut[i].DeleteFile?
    requires forall i :: 0 <= i < |end| ==> !end[i].WriteFile? && !end[i].DeleteFile?
    requires Members(sweep) == bundle.Keys - Ids(rs)
    requires k <= |cut + BatchOps(env, rs, at) + DeleteOps(sweep) + end|
    ensures
      var after := FilesAfter((cut + BatchOps(env, rs, at) + DeleteOps(sweep) + end)[..k], bundle);
      && (forall id :: id in after ==> (id in bundle && after[id] == bundle[id]) || Wrote(rs, id, after[id]))
      && forall id :: id in bundle && id !in after ==>
        id !in Ids(rs) && forall other :: other in Ids(rs) ==> other in after && Wrote(rs, other, after[other])
  {
    var batch := BatchOps(env, rs, at);
    var dels := DeleteOps(sweep);
    var plan := cut + batch + dels + end;
    var a, b := |cut + batch|, |dels|;
    hide BatchOps, DeleteOps, Ids, Wrote;
    if k <= a {
      assert plan[..k] == (cut + batch)[..k];
      StoppedWriting(env, rs, at, cut, bundle, k);
    } else {
      var j := if k - a <= b then k - a else b;
      var tail := if k - a <= b then [] else end[..k - a - b];
      assert plan[..k] == (cut + batch) + dels[..j] + tail by {
        hide *;
        SplitPrefix(cut + batch, dels, end, k);
      }
      DeletePrefix(sweep, j);
      assert sweep[..j] <= sweep;
      assert forall i :: 0 <= i < |tail| ==> !tail[i].WriteFile? && !tail[i].DeleteFile?;
      StoppedDeleting(env, rs, at, cut, sweep, sweep[..j], tail, bundle);
    }
  }

  lemma SplitPrefix<T>(x: seq<T>, y: seq<T>, z: seq<T>, k: nat)
    requires |x| <= k <= |x + y + z|
    ensures k - |x| <= |y| ==> (x + y + z)[..k] == x + y[..k - |x|] + []
    ensures k - |x| > |y| ==> (x + y + z)[..k] == x + y[..|y|] + z[..k - |x| - |y|]
  {
    if k - |x| <= |y| {
      assert (x + y + z)[..k] == x + y[..k - |x|];
    } else {
      assert y[..|y|] == y;
      assert (x + y + z)[..k] == x + y + z[..k - |x| - |y|];
    }
  }

  lemma DeletePrefix(sweep: seq<Id>, j: nat)
    requires j <= |sweep|
    ensures DeleteOps(sweep)[..j] == DeleteOps(sweep[..j])
  {
  }

  lemma StoppedWriting(env: Env, rs: seq<Concept>, at: int, cut: seq<Op>, bundle: map<Id, File>, k: nat)
    requires forall i :: 0 <= i < |cut| ==> !cut[i].WriteFile? && !cut[i].DeleteFile?
    requires k <= |cut + BatchOps(env, rs, at)|
    ensures OldOrNew(bundle, FilesAfter((cut + BatchOps(env, rs, at))[..k], bundle), rs)
  {
    BatchWrites(env, rs, rs, at);
    WritesConcat(cut, BatchOps(env, rs, at), rs);
    WritesPrefix(cut + BatchOps(env, rs, at), rs, k);
    assert OldOrNew(bundle, bundle, rs);
    hide BatchOps, FilesAfter, OldOrNew, WritesOf;
    WritesLeaveOldOrNew((cut + BatchOps(env, rs, at))[..k], rs, bundle, bundle);
  }

  lemma StoppedDeleting(env: Env, rs: seq<Concept>, at: int, cut: seq<Op>, sweep: seq<Id>, part: seq<Id>, tail: seq<Op>, bundle: map<Id, File>)
    requires forall i :: 0 <= i < |cut| ==> !cut[i].WriteFile? && !cut[i].DeleteFile?
    requires forall i :: 0 <= i < |tail| ==> !tail[i].WriteFile? && !tail[i].DeleteFile?
    requires Members(sweep) == bundle.Keys - Ids(rs) && part <= sweep
    ensures
      var after := FilesAfter(cut + BatchOps(env, rs, at) + DeleteOps(part) + tail, bundle);
      && OldOrNew(bundle, Overwrite(bundle, rs), rs)
      && after == Overwrite(bundle, rs) - Members(part) && Members(part) <= bundle.Keys - Ids(rs)
      && forall other :: other in Ids(rs) ==> other in after && Wrote(rs, other, after[other])
  {
    var batch := BatchOps(env, rs, at);
    var written := Overwrite(bundle, rs);
    assert Members(part) <= Members(sweep);
    OverwriteHolds(bundle, rs);
    StoppedWriting(env, rs, at, cut, bundle, |cut + batch|);
    assert (cut + batch)[..|cut + batch|] == cut + batch;
    FilesAfterConcat(cut, batch, bundle);
    Untouched(cut, bundle);
    BatchFiles(env, rs, at, bundle);
    hide BatchOps, Members, Overwrite, Wrote, Ids, OldOrNew, DeleteOps, FilesAfter;
    FilesAfterConcat(cut + batch + DeleteOps(part), tail, bundle);
    FilesAfterConcat(cut + batch, DeleteOps(part), bundle);
    DeletedFiles(part, written);
    Untouched(tail, written - Members(part));
  }

  /** After a completed Run a Reindex cannot bring back what the batch left out. */
  lemma ReindexAfterRun(env: Env, cs: seq<Concept>, source: string, sweep: seq<Id>, listing: seq<Id>, w: World, w': World)
    requires ListingsOk(Run(cs, source), sweep, w)
    requires w' == ApplyAll(Plan(env, Run(cs, source), sweep, w).value, w)
    requires ListingsOk(Reindex(listing), [], w')
    ensures Plan(env, Reindex(listing), [], w').Some?
    ensures ApplyAll(Plan(env, Reindex(listing), [], w').value, w').db.concept.Keys == Ids(cs)
  {
    RunBundle(env, cs, source, sweep, w);
    ReindexRebuilds(env, listing, [], w');
    ViewKeys(env, ApplyAll(Plan(env, Reindex(listing), [], w').value, w').db, w'.bundle);
  }

  lemma ViewKeys(env: Env, db: Db, bundle: map<Id, File>)
    requires Readable(bundle) && ViewOf(db) == Rebuilt(env, bundle)
    ensures db.concept.Keys == bundle.Keys
  {
    assert db.concept == ViewOf(db).concept;
    hide Readable, VersionOf, Origins;
  }

  // ---- Reindex

  predicate SameFile(f: File, g: File) {
    f == g || (f.Doc? && g.Doc? && f.content == g.content && f.stamp == g.stamp)
  }

  ghost predicate SameButEpoch(a: map<Id, File>, b: map<Id, File>) {
    && a.Keys == b.Keys
    && forall id :: id in a ==> SameFile(a[id], b[id])
  }

  lemma RebuiltIgnoresEpochs(env: Env, a: map<Id, File>, b: map<Id, File>)
    requires Readable(a) && SameButEpoch(a, b)
    ensures Readable(b) && Rebuilt(env, a) == Rebuilt(env, b)
  {
    assert forall id :: id in a ==> a[id].content == b[id].content;
    hide SameButEpoch, TextOf;
    assert Rebuilt(env, a).concept == Rebuilt(env, b).concept;
    assert Rebuilt(env, a).edges == Rebuilt(env, b).edges;
    assert Rebuilt(env, a).vectors == Rebuilt(env, b).vectors;
    assert Rebuilt(env, a).versions == Rebuilt(env, b).versions;
  }

  lemma ReindexShape(env: Env, listing: seq<Id>, sweep: seq<Id>, w: World) returns (rs: seq<Concept>, head: seq<Op>)
    requires ListingsOk(Reindex(listing), sweep, w) && Readable(w.bundle)
    ensures AreFiles(env, w.bundle, rs)
    ensures Plan(env, Reindex(listing), sweep, w) == Some(head + BatchOps(env, rs, w.db.clock + 1) + [PruneEmbeddings])
    ensures |head| == 2 && head[0].Truncate? && head[1].CutEpoch?
  {
    hide BatchOps, ReadFiles, Renumbered, AreFiles, Listed, Readable, NextNumber;
    assert Listed(listing, w.bundle.Keys);
    var cs := ReadConcepts(env, w.bundle, listing);
    rs := Renumbered(cs, 0);
    head := [Truncate, CutEpoch("reindex", |cs|, 0, 0)];
  }

  /** Reindex, stopped anywhere, has changed no file but its epoch. */
  lemma InterruptedReindexBundle(env: Env, listing: seq<Id>, sweep: seq<Id>, w: World, k: nat)
    requires ListingsOk(Reindex(listing), sweep, w) && Readable(w.bundle)
    requires Plan(env, Reindex(listing), sweep, w).Some? && k <= |Plan(env, Reindex(listing), sweep, w).value|
    ensures SameButEpoch(w.bundle, ApplyAll(Plan(env, Reindex(listing), sweep, w).value[..k], w).bundle)
  {
    var plan := Plan(env, Reindex(listing), sweep, w).value;
    BundleIsFilesAfter(plan[..k], w);
    var rs, head := ReindexShape(env, listing, sweep, w);
    ReindexWrites(env, rs, head, w.db.clock + 1);
    hide *;
    WritesPrefix(plan, rs, k);
    UnchangedIsOld(w.bundle, rs);
    WritesLeaveOldOrNew(plan[..k], rs, w.bundle, w.bundle);
    OnlyEpochs(env, rs, w.bundle, FilesAfter(plan[..k], w.bundle));
  }

  lemma ReindexWrites(env: Env, rs: seq<Concept>, head: seq<Op>, at: int)
    requires |head| == 2 && head[0].Truncate? && head[1].CutEpoch?
    ensures WritesOf(head + BatchOps(env, rs, at) + [PruneEmbeddings], rs)
  {
    BatchWrites(env, rs, rs, at);
    hide BatchOps;
    WritesConcat(head, BatchOps(env, rs, at), rs);
    WritesConcat(head + BatchOps(env, rs, at), [PruneEmbeddings], rs);
  }

  lemma UnchangedIsOld(bundle: map<Id, File>, cs: seq<Concept>)
    ensures OldOrNew(bundle, bundle, cs)
  {
    hide Wrote;
  }

  lemma OnlyEpochs(env: Env, rs: seq<Concept>, before: map<Id, File>, after: map<Id, File>)
    requires AreFiles(env, before, rs) && OldOrNew(before, after, rs)
    ensures SameButEpoch(before, after)
  {
    forall id | id in after
      ensures id in before && SameFile(before[id], after[id])
    {
      if !(id in before && after[id] == before[id]) {
        var i :| 0 <= i < |rs| && rs[i].id == id && after[id] == FileOf(rs[i]);
        assert rs[i].id in before;
      }
    }
  }

  /** Doing Reindex again after it was stopped anywhere gives what the first would
      have given. */
  lemma ReindexAgain(env: Env, listing: seq<Id>, again: seq<Id>, w: World, k: nat, w1: World)
    requires ListingsOk(Reindex(listing), [], w) && Readable(w.bundle)
    requires Plan(env, Reindex(listing), [], w).Some? && k <= |Plan(env, Reindex(listing), [], w).value|
    requires w1 == ApplyAll(Plan(env, Reindex(listing), [], w).value[..k], w)
    requires ListingsOk(Reindex(again), [], w1)
    ensures Plan(env, Reindex(again), [], w1).Some?
    ensures
      ViewOf(ApplyAll(Plan(env, Reindex(again), [], w1).value, w1).db) ==
      ViewOf(ApplyAll(Plan(env, Reindex(listing), [], w).value, w).db)
  {
    hide *;
    InterruptedReindexBundle(env, listing, [], w, k);
    RebuiltIgnoresEpochs(env, w.bundle, w1.bundle);
    ReindexRebuilds(env, again, [], w1);
    ReindexRebuilds(env, listing, [], w);
  }
}
