/** The runner itself: the three calls as loops over the objects they write to, each
    write of which may fail. */
module EpochRunner {
  import opened Wrappers
  import opened EpochModel
  import opened EpochRecovery
  import opened EpochHistory
  import opened EpochStore

  /** The bundle directory: the concept files and the log. */
  class Bundle {
    const fate: Fate
    var files: map<Id, File>
    var log: seq<LogLine>

    constructor (fate: Fate)
      ensures this.fate == fate && files == map[] && log == []
    {
      this.fate := fate;
      files, log := map[], [];
    }

    method WriteConcept(c: Concept) returns (ok: bool)
      modifies fate, this`files
      ensures files == if ok then old(files)[c.id := Doc(c.content, c.epoch, c.stamp)] else old(files)
    {
      ok := fate.Next();
      if ok {
        files := files[c.id := Doc(c.content, c.epoch, c.stamp)];
      }
    }

    method Remove(id: Id) returns (ok: bool)
      modifies fate, this`files
      ensures files == if ok then old(files) - {id} else old(files)
    {
      ok := fate.Next();
      if ok {
        files := files - {id};
      }
    }

    method AppendLog(line: LogLine) returns (ok: bool)
      modifies fate, this`log
      ensures log == if ok then old(log) + [line] else old(log)
    {
      ok := fate.Next();
      if ok {
        log := log + [line];
      }
    }

    /** The files in the order in which the directory lists them. */
    method Walk() returns (listing: seq<Id>)
      ensures Listed(listing, files.Keys)
    {
      var todo := files.Keys;
      listing := [];
      while todo != {}
        invariant todo <= files.Keys && Listed(listing, files.Keys - todo)
        decreases |todo|
      {
        SomeMember(todo);
        var id :| id in todo;
        ListedSnoc(listing, files.Keys - todo, id);
        todo := todo - {id};
        listing := listing + [id];
        assert files.Keys - todo == files.Keys - (todo + {id}) + {id};
      }
      assert files.Keys - todo == files.Keys;
    }
  }

  lemma ListedSnoc(listing: seq<Id>, ids: set<Id>, id: Id)
    requires Listed(listing, ids) && id !in ids
    ensures Listed(listing + [id], ids + {id})
  {
  }

  class Git {
    const fate: Fate
    var commits: nat

    constructor (fate: Fate)
      ensures this.fate == fate && commits == 0
    {
      this.fate := fate;
      commits := 0;
    }

    method Commit() returns (ok: bool, sha: nat)
      modifies fate, this`commits
      ensures commits == if ok then old(commits) + 1 else old(commits)
      ensures sha == commits
    {
      ok := fate.Next();
      if ok {
        commits := commits + 1;
      }
      sha := commits;
    }
  }

  // ---- the parts of a plan

  /** A stop inside the second of three parts. */
  lemma InSegment(a: seq<Op>, b: seq<Op>, c: seq<Op>, k: nat, w: World)
    requires k <= |b|
    ensures ApplyAll((a + b + c)[..|a| + k], w) == ApplyAll(b[..k], ApplyAll(a, w))
  {
    assert (a + b + c)[..|a| + k] == a + b[..k];
    hide ApplyAll;
    ApplyConcat(a, b[..k], w);
  }

  lemma NothingYet(ops: seq<Op>, w: World)
    ensures ApplyAll(ops[..0], w) == w
  {
    assert ops[..0] == [];
  }

  lemma AllDone(ops: seq<Op>, k: nat, w: World)
    requires k == |ops|
    ensures ApplyAll(ops[..k], w) == ApplyAll(ops, w)
  {
    assert ops[..k] == ops;
  }

  lemma NoneYet(env: Env, rs: seq<Concept>, at: int, w: World)
    ensures ApplyAll(BatchOps(env, rs[..0], at), w) == w
  {
    assert rs[..0] == [];
  }

  lemma StampedEach(env: Env, concepts: seq<Concept>, n: int, at: int)
    ensures forall i :: 0 <= i < |concepts| ==> StampedAll(env, concepts, n, at)[i] == Stamped(env, concepts[i], n, at)
  {
  }

  lemma RenumberedEach(concepts: seq<Concept>, n: int)
    ensures forall i :: 0 <= i < |concepts| ==> Renumbered(concepts, n)[i] == concepts[i].(epoch := n)
  {
  }

  /** One more concept of the batch, of which `j` writes happened. */
  lemma OneMoreConcept(env: Env, rs: seq<Concept>, at: int, i: nat, j: nat, w: World, w': World)
    requires i < |rs| && j <= |ConceptOps(env, rs[i], at)|
    requires w' == ApplyAll(ConceptOps(env, rs[i], at)[..j], ApplyAll(BatchOps(env, rs[..i], at), w))
    ensures |BatchOps(env, rs[..i], at)| + j <= |BatchOps(env, rs, at)|
    ensures w' == ApplyAll(BatchOps(env, rs, at)[..|BatchOps(env, rs[..i], at)| + j], w)
    ensures j == |ConceptOps(env, rs[i], at)| ==> w' == ApplyAll(BatchOps(env, rs[..i + 1], at), w)
  {
    hide ApplyAll, BatchOps, ConceptOps;
    BatchSplit(env, rs, at, i);
    InSegment(BatchOps(env, rs[..i], at), ConceptOps(env, rs[i], at), BatchOps(env, rs[i + 1..], at), j, w);
    if j == |ConceptOps(env, rs[i], at)| {
      AllDone(ConceptOps(env, rs[i], at), j, ApplyAll(BatchOps(env, rs[..i], at), w));
      ApplyConcat(BatchOps(env, rs[..i], at), ConceptOps(env, rs[i], at), w);
    }
  }

  lemma {:induction false} BatchSplit(env: Env, cs: seq<Concept>, at: int, i: nat)
    requires i < |cs|
    ensures BatchOps(env, cs, at) == BatchOps(env, cs[..i], at) + ConceptOps(env, cs[i], at) + BatchOps(env, cs[i + 1..], at)
    ensures BatchOps(env, cs[..i + 1], at) == BatchOps(env, cs[..i], at) + ConceptOps(env, cs[i], at)
    decreases i
  {
    hide ConceptOps, BatchOps;
    if i == 0 {
      BatchCons(env, cs, at);
      BatchCons(env, cs[..1], at);
      NoBatch(env, at);
      assert cs[..1][1..] == [] && cs[..0] == [];
    } else {
      BatchSplit(env, cs[1..], at, i - 1);
      BatchCons(env, cs, at);
      BatchCons(env, cs[..i], at);
      BatchCons(env, cs[..i + 1], at);
      assert cs[..i][1..] == cs[1..][..i - 1] && cs[..i + 1][1..] == cs[1..][..i];
      assert cs[1..][i..] == cs[i + 1..];
      FourParts(ConceptOps(env, cs[0], at), BatchOps(env, cs[1..][..i - 1], at), ConceptOps(env, cs[i], at), BatchOps(env, cs[i + 1..], at));
    }
  }

  lemma FourParts<T>(a: seq<T>, b: seq<T>, c: seq<T>, d: seq<T>)
    ensures a + (b + c + d) == a + b + c + d && a + (b + c) == a + b + c
  {
  }

  lemma BatchCons(env: Env, cs: seq<Concept>, at: int)
    requires cs != []
    ensures BatchOps(env, cs, at) == ConceptOps(env, cs[0], at) + BatchOps(env, cs[1..], at)
  {
    hide ConceptOps;
  }

  lemma NoBatch(env: Env, at: int)
    ensures BatchOps(env, [], at) == []
  {
  }

  // ---- the files a Run deletes

  function Unkept(listing: seq<Id>, keep: set<Id>): seq<Id> {
    if listing == [] then []
    else
      var last := listing[|listing| - 1];
      Unkept(listing[..|listing| - 1], keep) + if last in keep then [] else [last]
  }

  lemma {:induction false} UnkeptIs(listing: seq<Id>, keep: set<Id>)
    requires Distinct(listing)
    ensures Distinct(Unkept(listing, keep)) && forall id :: id in Unkept(listing, keep) <==> id in listing && id !in keep
    decreases |listing|
  {
    if listing != [] {
      var last, init := listing[|listing| - 1], listing[..|listing| - 1];
      assert listing == init + [last];
      UnkeptIs(init, keep);
    }
  }

  lemma UnkeptListed(listing: seq<Id>, ids: set<Id>, keep: set<Id>)
    requires Listed(listing, ids)
    ensures Listed(Unkept(listing, keep), ids - keep)
  {
    UnkeptIs(listing, keep);
    hide Unkept, Distinct;
  }

  lemma {:induction false} UnkeptPrefix(listing: seq<Id>, keep: set<Id>, i: nat)
    requires i <= |listing|
    ensures Unkept(listing[..i], keep) <= Unkept(listing, keep)
    decreases |listing|
  {
    if i == |listing| {
      assert listing[..i] == listing;
    } else {
      UnkeptPrefix(listing[..|listing| - 1], keep, i);
      assert listing[..|listing| - 1][..i] == listing[..i];
    }
  }

  lemma UnkeptNext(listing: seq<Id>, keep: set<Id>, i: nat)
    requires i < |listing|
    ensures Unkept(listing[..i + 1], keep) == Unkept(listing[..i], keep) + if listing[i] in keep then [] else [listing[i]]
    ensures Unkept(listing[..i + 1], keep) <= Unkept(listing, keep)
  {
    assert listing[..i + 1][..i] == listing[..i];
    UnkeptPrefix(listing, keep, i + 1);
  }

  /** One more file deleted. */
  lemma DeletedNext(sweep: seq<Id>, k: nat, w: World)
    requires k < |sweep|
    ensures ApplyAll(DeleteOps(sweep)[..k + 1], w) == Apply(DeleteFile(sweep[k]), ApplyAll(DeleteOps(sweep)[..k], w))
  {
    ApplyNext(DeleteOps(sweep), k, w);
    hide Apply, ApplyAll;
  }

  lemma {:induction false} SomeListing(ids: set<Id>) returns (s: seq<Id>)
    ensures Listed(s, ids)
    decreases |ids|
  {
    SomeMember(ids);
    if id :| id in ids {
      var rest := SomeListing(ids - {id});
      s := rest + [id];
      ListedSnoc(rest, ids - {id}, id);
      assert ids - {id} + {id} == ids;
    } else {
      s := [];
    }
  }

  lemma SomeSweep(concepts: seq<Concept>, source: string, w: World) returns (sweep: seq<Id>)
    ensures ListingsOk(Run(concepts, source), sweep, w)
  {
    hide Listed, Ids;
    sweep := SomeListing(w.bundle.Keys - Ids(concepts));
  }

  lemma {:induction false} BatchShasSnoc(concepts: seq<Concept>, i: nat)
    requires i < |concepts|
    ensures BatchShas(concepts[..i + 1]) == BatchShas(concepts[..i])[concepts[i].id := concepts[i].content.sha]
  {
    assert concepts[..i + 1][..i] == concepts[..i];
  }

  lemma IdsPrefix(concepts: seq<Concept>, i: nat)
    requires i < |concepts|
    ensures Ids(concepts[..i + 1]) == Ids(concepts[..i]) + {concepts[i].id}
  {
    assert concepts[..i + 1] == concepts[..i] + [concepts[i]];
    IdsSnoc(concepts[..i], concepts[i]);
  }

  /** The new map gone through: ids the old one lacks, ids it has another SHA for. */
  method NewAndChanged(before: map<Id, string>, after: map<Id, string>) returns (added: set<Id>, changed: set<Id>)
    ensures forall id :: id in added <==> id in after && id !in before
    ensures forall id :: id in changed <==> id in after && id in before && before[id] != after[id]
  {
    added, changed := {}, {};
    var todo := after.Keys;
    while todo != {}
      invariant todo <= after.Keys
      invariant forall id :: id in added <==> id in after && id !in todo && id !in before
      invariant forall id :: id in changed <==> id in after && id !in todo && id in before && before[id] != after[id]
      decreases |todo|
    {
      SomeMember(todo);
      var id :| id in todo;
      todo := todo - {id};
      if id !in before {
        added := added + {id};
      } else if before[id] != after[id] {
        changed := changed + {id};
      }
    }
  }

  /** The old map gone through: ids the new one lacks. */
  method Gone(before: map<Id, string>, after: map<Id, string>) returns (removed: set<Id>)
    ensures forall id :: id in removed <==> id in before && id !in after
  {
    removed := {};
    var todo := before.Keys;
    while todo != {}
      invariant todo <= before.Keys
      invariant forall id :: id in removed <==> id in before && id !in todo && id !in after
      decreases |todo|
    {
      SomeMember(todo);
      var id :| id in todo;
      todo := todo - {id};
      if id !in after {
        removed := removed + {id};
      }
    }
  }

  method DiffShas(before: map<Id, string>, after: map<Id, string>) returns (d: Diff)
    ensures d == DiffSets(before, after)
  {
    var added, changed := NewAndChanged(before, after);
    var removed := Gone(before, after);
    d := Diff(added, changed, removed);
    var e := DiffSets(before, after);
    assert added == e.added;
    assert changed == e.changed;
    assert removed == e.removed;
  }

  /** How far a call got: `k` of its writes have happened. */
  ghost predicate Stopped(env: Env, call: Call, sweep: seq<Id>, w: World, k: nat, w': World) {
    match Plan(env, call, sweep, w)
    case None => k == 0 && w' == w
    case Some(plan) => k <= |plan| && w' == ApplyAll(plan[..k], w)
  }

  ghost predicate Finished(env: Env, call: Call, sweep: seq<Id>, w: World, k: nat) {
    Plan(env, call, sweep, w).Some? && k == |Plan(env, call, sweep, w).value|
  }

  // ---- where Run can stop

  ghost function ReportOf(cs: seq<Concept>, w: World): Diff {
    DiffSets(CurrentShas(w.db), BatchShas(cs))
  }

  ghost function RunCut(cs: seq<Concept>, source: string, w: World): Op {
    var d := ReportOf(cs, w);
    CutEpoch(source, |d.added|, |d.changed|, |d.removed|)
  }

  ghost function RunBatch(env: Env, cs: seq<Concept>, w: World): seq<Op> {
    BatchOps(env, StampedAll(env, cs, NextNumber(w.db.epochs), w.db.clock + 1), w.db.clock + 1)
  }

  ghost function RunEnd(cs: seq<Concept>, source: string, w: World): seq<Op> {
    var n, d := NextNumber(w.db.epochs), ReportOf(cs, w);
    FinishOps(n, LogLine(w.db.clock + 1, n, source, |d.added|, |d.changed|, |d.removed|), w.commits + 1)
  }

  lemma RunPlanIs(env: Env, cs: seq<Concept>, source: string, sweep: seq<Id>, w: World)
    ensures Plan(env, Run(cs, source), sweep, w) ==
      Some([RunCut(cs, source, w)] + RunBatch(env, cs, w) + DeleteOps(sweep) + RunEnd(cs, source, w))
  {
    hide BatchOps, StampedAll, FinishOps, DeleteOps, DiffSets, CurrentShas, BatchShas, NextNumber;
  }

  lemma StoppedAt(env: Env, call: Call, sweep: seq<Id>, a: seq<Op>, b: seq<Op>, c: seq<Op>, w: World, j: nat, w': World)
    requires Plan(env, call, sweep, w) == Some(a + b + c) && j <= |b| && w' == ApplyAll(b[..j], ApplyAll(a, w))
    ensures Stopped(env, call, sweep, w, |a| + j, w')
    ensures j == |b| && c == [] ==> Finished(env, call, sweep, w, |a| + j)
  {
    hide Plan, ApplyAll;
    InSegment(a, b, c, j, w);
  }

  lemma StoppedAtOnce(env: Env, call: Call, sweep: seq<Id>, w: World)
    ensures Stopped(env, call, sweep, w, 0, w)
  {
    hide Plan, ApplyAll;
    if Plan(env, call, sweep, w).Some? {
      NothingYet(Plan(env, call, sweep, w).value, w);
    }
  }

  lemma RunStoppedWriting(env: Env, cs: seq<Concept>, source: string, sweep: seq<Id>, w: World, j: nat, w': World)
    requires j <= |RunBatch(env, cs, w)| && w' == ApplyAll(RunBatch(env, cs, w)[..j], Apply(RunCut(cs, source, w), w))
    ensures Stopped(env, Run(cs, source), sweep, w, 1 + j, w')
  {
    RunPlanIs(env, cs, source, sweep, w);
    var a, b, c, d := [RunCut(cs, source, w)], RunBatch(env, cs, w), DeleteOps(sweep), RunEnd(cs, source, w);
    hide *;
    ApplyOne(RunCut(cs, source, w), w);
    assert a + b + c + d == a + b + (c + d);
    StoppedAt(env, Run(cs, source), sweep, a, b, c + d, w, j, w');
  }

  lemma RunStoppedDeleting(env: Env, cs: seq<Concept>, source: string, sweep: seq<Id>, w: World, w2: World, j: nat, w': World)
    requires w2 == ApplyAll(RunBatch(env, cs, w), Apply(RunCut(cs, source, w), w))
    requires j <= |sweep| && w' == ApplyAll(DeleteOps(sweep)[..j], w2)
    ensures Stopped(env, Run(cs, source), sweep, w, 1 + |RunBatch(env, cs, w)| + j, w')
  {
    RunPlanIs(env, cs, source, sweep, w);
    var a, b, c, d := [RunCut(cs, source, w)], RunBatch(env, cs, w), DeleteOps(sweep), RunEnd(cs, source, w);
    hide *;
    ApplyOne(RunCut(cs, source, w), w);
    ApplyConcat(a, b, w);
    StoppedAt(env, Run(cs, source), sweep, a + b, c, d, w, j, w');
  }

  lemma RunStoppedFinishing(env: Env, cs: seq<Concept>, source: string, sweep: seq<Id>, w: World, w2: World, w3: World, j: nat, w': World)
    requires w2 == ApplyAll(RunBatch(env, cs, w), Apply(RunCut(cs, source, w), w))
    requires w3 == ApplyAll(DeleteOps(sweep), w2)
    requires j <= |RunEnd(cs, source, w)| && w' == ApplyAll(RunEnd(cs, source, w)[..j], w3)
    ensures Stopped(env, Run(cs, source), sweep, w, 1 + |RunBatch(env, cs, w)| + |sweep| + j, w')
    ensures j == |RunEnd(cs, source, w)| ==> Finished(env, Run(cs, source), sweep, w, 1 + |RunBatch(env, cs, w)| + |sweep| + j)
  {
    RunPlanIs(env, cs, source, sweep, w);
    var a, b, c, d := [RunCut(cs, source, w)], RunBatch(env, cs, w), DeleteOps(sweep), RunEnd(cs, source, w);
    hide *;
    ApplyOne(RunCut(cs, source, w), w);
    ApplyConcat(a, b, w);
    ApplyConcat(a + b, c, w);
    assert a + b + c + d == a + b + c + d + [];
    StoppedAt(env, Run(cs, source), sweep, a + b + c, d, [], w, j, w');
  }

  lemma RunNames(env: Env, cs: seq<Concept>, source: string, w: World)
    ensures RunBatch(env, cs, w) == BatchOps(env, StampedAll(env, cs, NextNumber(w.db.epochs), w.db.clock + 1), w.db.clock + 1)
    ensures ReportOf(cs, w) == DiffSets(CurrentShas(w.db), BatchShas(cs))
    ensures
      var d := ReportOf(cs, w);
      && RunCut(cs, source, w) == CutEpoch(source, |d.added|, |d.changed|, |d.removed|)
      && RunEnd(cs, source, w) == FinishOps(NextNumber(w.db.epochs),
        LogLine(w.db.clock + 1, NextNumber(w.db.epochs), source, |d.added|, |d.changed|, |d.removed|), w.commits + 1)
      && ResultOf(Run(cs, source), w) == EpochResult(NextNumber(w.db.epochs), |d.added|, |d.changed|, |d.removed|, w.commits + 1)
  {
    hide BatchOps, StampedAll, FinishOps, DiffSets, CurrentShas, BatchShas, NextNumber;
  }

  lemma CutSame(op: Op, w: World)
    requires op.CutEpoch?
    ensures Apply(op, w).bundle == w.bundle && Apply(op, w).commits == w.commits
  {
    hide NextNumber;
  }

  /** The files to delete after the batch is written are those there were before that
      the batch does not hold. */
  lemma SweepAfterBatch(env: Env, cs: seq<Concept>, source: string, sweep: seq<Id>, w: World, w2: World)
    requires w2 == ApplyAll(RunBatch(env, cs, w), Apply(RunCut(cs, source, w), w))
    requires Listed(sweep, w2.bundle.Keys - Ids(cs))
    ensures ListingsOk(Run(cs, source), sweep, w) && w2.commits == w.commits
  {
    hide Apply, ApplyAll, BatchOps, StampedAll, Listed, Ids, NextNumber, CurrentShas, BatchShas, DiffSets;
    var rs := StampedAll(env, cs, NextNumber(w.db.epochs), w.db.clock + 1);
    var w1 := Apply(RunCut(cs, source, w), w);
    CutSame(RunCut(cs, source, w), w);
    SameIdsStamped(env, cs, NextNumber(w.db.epochs), w.db.clock + 1);
    assert RunBatch(env, cs, w) == BatchOps(env, rs, w.db.clock + 1);
    BatchOpsApply(env, rs, w.db.clock + 1, w1);
    BatchFrame(env, rs, w.db.clock + 1, w1);
    SameRest(w.bundle.Keys, Ids(cs));
  }

  lemma {:induction false} SameCommits(sweep: seq<Id>, w: World)
    ensures ApplyAll(DeleteOps(sweep), w).commits == w.commits
    decreases |sweep|
  {
    if sweep != [] {
      var ops := DeleteOps(sweep);
      assert ops[0] == DeleteFile(sweep[0]) && ops[1..] == DeleteOps(sweep[1..]);
      SameCommits(sweep[1..], Apply(ops[0], w));
    }
  }

  lemma SameRest(files: set<Id>, ids: set<Id>)
    ensures files + ids - ids == files - ids
  {
  }

  lemma SameIdsStamped(env: Env, cs: seq<Concept>, n: int, at: int)
    ensures Ids(StampedAll(env, cs, n, at)) == Ids(cs)
  {
    var rs := StampedAll(env, cs, n, at);
    assert forall i :: 0 <= i < |cs| ==> rs[i].id == cs[i].id;
  }

  method ShasOf(concepts: seq<Concept>) returns (shas: map<Id, string>)
    ensures shas == BatchShas(concepts)
  {
    shas := map[];
    for i := 0 to |concepts|
      invariant shas == BatchShas(concepts[..i])
    {
      BatchShasSnoc(concepts, i);
      shas := shas[concepts[i].id := concepts[i].content.sha];
    }
    assert concepts[..|concepts|] == concepts;
  }

  method IdsOf(concepts: seq<Concept>) returns (keep: set<Id>)
    ensures keep == Ids(concepts)
  {
    keep := {};
    for i := 0 to |concepts|
      invariant keep == Ids(concepts[..i])
    {
      IdsPrefix(concepts, i);
      keep := keep + {concepts[i].id};
    }
    assert concepts[..|concepts|] == concepts;
  }

  // ---- where UpsertBatch and Reindex can stop

  ghost function UpsertCut(cs: seq<Concept>, source: string): Op {
    CutEpoch(source, 0, |cs|, 0)
  }

  ghost function UpsertEnd(cs: seq<Concept>, source: string, w: World): seq<Op> {
    var n := NextNumber(w.db.epochs);
    FinishOps(n, LogLine(w.db.clock + 1, n, source, 0, |cs|, 0), w.commits + 1)
  }

  lemma UpsertNames(env: Env, cs: seq<Concept>, source: string, w: World)
    ensures RunBatch(env, cs, w) == BatchOps(env, StampedAll(env, cs, NextNumber(w.db.epochs), w.db.clock + 1), w.db.clock + 1)
    ensures UpsertCut(cs, source) == CutEpoch(source, 0, |cs|, 0)
    ensures UpsertEnd(cs, source, w) == FinishOps(NextNumber(w.db.epochs),
      LogLine(w.db.clock + 1, NextNumber(w.db.epochs), source, 0, |cs|, 0), w.commits + 1)
    ensures cs != [] ==>
      && ResultOf(UpsertBatch(cs, source), w) == EpochResult(NextNumber(w.db.epochs), 0, |cs|, 0, w.commits + 1)
      && Plan(env, UpsertBatch(cs, source), [], w) == Some([UpsertCut(cs, source)] + RunBatch(env, cs, w) + UpsertEnd(cs, source, w))
  {
    hide BatchOps, StampedAll, FinishOps, NextNumber;
  }

  lemma UpsertStoppedWriting(env: Env, cs: seq<Concept>, source: string, w: World, j: nat, w': World)
    requires cs != [] && j <= |RunBatch(env, cs, w)|
    requires w' == ApplyAll(RunBatch(env, cs, w)[..j], Apply(UpsertCut(cs, source), w))
    ensures Stopped(env, UpsertBatch(cs, source), [], w, 1 + j, w')
  {
    UpsertNames(env, cs, source, w);
    hide *;
    ApplyOne(UpsertCut(cs, source), w);
    StoppedAt(env, UpsertBatch(cs, source), [], [UpsertCut(cs, source)], RunBatch(env, cs, w), UpsertEnd(cs, source, w), w, j, w');
  }

  lemma UpsertStoppedFinishing(env: Env, cs: seq<Concept>, source: string, w: World, w2: World, j: nat, w': World)
    requires cs != [] && w2 == ApplyAll(RunBatch(env, cs, w), Apply(UpsertCut(cs, source), w))
    requires j <= |UpsertEnd(cs, source, w)| && w' == ApplyAll(UpsertEnd(cs, source, w)[..j], w2)
    ensures Stopped(env, UpsertBatch(cs, source), [], w, 1 + |RunBatch(env, cs, w)| + j, w')
    ensures j == |UpsertEnd(cs, source, w)| ==>
      Finished(env, UpsertBatch(cs, source), [], w, 1 + |RunBatch(env, cs, w)| + j)
  {
    UpsertNames(env, cs, source, w);
    var a, b, c := [UpsertCut(cs, source)], RunBatch(env, cs, w), UpsertEnd(cs, source, w);
    hide *;
    ApplyOne(UpsertCut(cs, source), w);
    ApplyConcat(a, b, w);
    assert a + b + c == a + b + c + [];
    StoppedAt(env, UpsertBatch(cs, source), [], a + b, c, [], w, j, w');
  }

  lemma BatchKeepsCommits(env: Env, cs: seq<Concept>, op: Op, w: World)
    requires op.CutEpoch?
    ensures ApplyAll(RunBatch(env, cs, w), Apply(op, w)).commits == w.commits
  {
    var rs := StampedAll(env, cs, NextNumber(w.db.epochs), w.db.clock + 1);
    assert Apply(op, w).commits == w.commits;
    var w1 := Apply(op, w);
    assert RunBatch(env, cs, w) == BatchOps(env, rs, w.db.clock + 1);
    hide *;
    BatchOpsApply(env, rs, w.db.clock + 1, w1);
    BatchFrame(env, rs, w.db.clock + 1, w1);
  }

  lemma EmptyUpsert(env: Env, source: string, w: World)
    ensures Finished(env, UpsertBatch([], source), [], w, 0) && ResultOf(UpsertBatch([], source), w) == EpochResult(0, 0, 0, 0, 0)
  {
  }

  ghost function ReindexHead(cs: seq<Concept>): seq<Op> {
    [Op.Truncate, CutEpoch("reindex", |cs|, 0, 0)]
  }

  lemma ReindexPlanIs(env: Env, listing: seq<Id>, cs: seq<Concept>, w: World)
    requires ReadFiles(env, w.bundle, listing) == Some(cs)
    ensures Plan(env, Reindex(listing), [], w) ==
      Some(ReindexHead(cs) + BatchOps(env, Renumbered(cs, 0), w.db.clock + 1) + [Op.PruneEmbeddings])
  {
    hide BatchOps, ReadFiles, Renumbered;
  }

  /** What Reindex has read and begun: the tables emptied, the epoch cut. */
  ghost predicate Begun(env: Env, listing: seq<Id>, cs: seq<Concept>, w: World, w0: World, w1: World) {
    && ReadFiles(env, w.bundle, listing) == Some(cs)
    && w0 == Apply(Op.Truncate, w) && w1 == Apply(CutEpoch("reindex", |cs|, 0, 0), w0)
  }

  lemma BegunIs(env: Env, listing: seq<Id>, cs: seq<Concept>, w: World, w0: World, w1: World)
    requires ReadFiles(env, w.bundle, listing) == Some(cs)
    requires w0 == Apply(Op.Truncate, w) && w1 == Apply(CutEpoch("reindex", |cs|, 0, 0), w0)
    ensures Begun(env, listing, cs, w, w0, w1)
  {
    hide Apply, ReadFiles;
  }

  lemma ReindexStoppedBefore(env: Env, listing: seq<Id>, cs: seq<Concept>, w: World, w0: World)
    requires ReadFiles(env, w.bundle, listing) == Some(cs) && w0 == Apply(Op.Truncate, w)
    ensures Stopped(env, Reindex(listing), [], w, 1, w0)
  {
    ReindexPlanIs(env, listing, cs, w);
    var head, batch, last := ReindexHead(cs), BatchOps(env, Renumbered(cs, 0), w.db.clock + 1), [Op.PruneEmbeddings];
    hide Apply, ApplyAll, BatchOps, Renumbered, Plan, Stopped, ReadFiles;
    assert head + batch + last == head + (batch + last);
    ReindexStoppedEarly(env, Reindex(listing), head, batch + last, w, w0);
  }

  lemma ReindexStoppedWriting(env: Env, listing: seq<Id>, cs: seq<Concept>, w: World, w0: World, w1: World, j: nat, w': World)
    requires Begun(env, listing, cs, w, w0, w1)
    requires j <= |BatchOps(env, Renumbered(cs, 0), w.db.clock + 1)|
    requires w' == ApplyAll(BatchOps(env, Renumbered(cs, 0), w.db.clock + 1)[..j], w1)
    ensures Stopped(env, Reindex(listing), [], w, 2 + j, w')
  {
    ReindexPlanIs(env, listing, cs, w);
    var head, batch, last := ReindexHead(cs), BatchOps(env, Renumbered(cs, 0), w.db.clock + 1), [Op.PruneEmbeddings];
    hide Apply, ApplyAll, BatchOps, Renumbered, Plan, Stopped, Finished, ReadFiles;
    ApplyHead(head, w, w0, w1);
    StoppedAt(env, Reindex(listing), [], head, batch, last, w, j, w');
  }

  lemma ReindexFinished(env: Env, listing: seq<Id>, cs: seq<Concept>, w: World, w0: World, w1: World, w': World)
    requires Begun(env, listing, cs, w, w0, w1)
    requires w' == Apply(Op.PruneEmbeddings, ApplyAll(BatchOps(env, Renumbered(cs, 0), w.db.clock + 1), w1))
    ensures
      var k := 3 + |BatchOps(env, Renumbered(cs, 0), w.db.clock + 1)|;
      Stopped(env, Reindex(listing), [], w, k, w') && Finished(env, Reindex(listing), [], w, k)
  {
    ReindexPlanIs(env, listing, cs, w);
    var head, batch := ReindexHead(cs), BatchOps(env, Renumbered(cs, 0), w.db.clock + 1);
    hide Apply, ApplyAll, BatchOps, Renumbered, Plan, Stopped, Finished, ReadFiles;
    ApplyHead(head, w, w0, w1);
    ReindexStoppedLate(env, Reindex(listing), head, batch, w, w1, w');
  }

  lemma EmptyNext(w: World)
    ensures var w0 := Apply(Op.Truncate, w); NextNumber(w0.db.epochs) == 0 && w0.db.clock == w.db.clock
  {
  }

  lemma ReindexStoppedEarly(env: Env, call: Call, head: seq<Op>, rest: seq<Op>, w: World, w0: World)
    requires |head| == 2 && Plan(env, call, [], w) == Some(head + rest) && w0 == Apply(head[0], w)
    ensures Stopped(env, call, [], w, 1, w0)
  {
    hide Apply, ApplyAll, Plan;
    assert (head + rest)[..1] == [head[0]];
    ApplyOne(head[0], w);
  }

  lemma ReindexStoppedLate(env: Env, call: Call, head: seq<Op>, batch: seq<Op>, w: World, w1: World, w': World)
    requires Plan(env, call, [], w) == Some(head + batch + [Op.PruneEmbeddings]) && |head| == 2
    requires w1 == ApplyAll(head, w) && w' == Apply(Op.PruneEmbeddings, ApplyAll(batch, w1))
    ensures Stopped(env, call, [], w, 3 + |batch|, w') && Finished(env, call, [], w, 3 + |batch|)
  {
    hide Apply, ApplyAll, Plan;
    ApplyConcat(head, batch, w);
    ApplyConcat(head + batch, [Op.PruneEmbeddings], w);
    ApplyOne(Op.PruneEmbeddings, ApplyAll(batch, w1));
    AllDone(head + batch + [Op.PruneEmbeddings], 3 + |batch|, w);
  }

  lemma Middle(a: seq<Concept>, b: seq<Concept>, c: seq<Concept>)
    ensures a + (b + c) == a + b + c
  {
  }

  lemma {:induction false} ReadSnoc(env: Env, files: map<Id, File>, listing: seq<Id>, id: Id)
    ensures ReadFiles(env, files, listing + [id]) ==
      if ReadFiles(env, files, listing).Some? && id in files && files[id].Doc?
      then Some(ReadFiles(env, files, listing).value + [ReadFile(env, files, id)]) else None
  {
    hide ReadFile;
    if listing == [] {
      assert listing + [id] == [id] && [id][1..] == [];
      ReadUnroll(env, files, [id]);
      if id in files && files[id].Doc? {
        assert [ReadFile(env, files, id)] + [] == [] + [ReadFile(env, files, id)];
      }
    } else {
      var all := listing + [id];
      assert all[1..] == listing[1..] + [id] && all[0] == listing[0];
      ReadSnoc(env, files, listing[1..], id);
      ReadUnroll(env, files, all);
      ReadUnroll(env, files, listing);
      hide ReadFiles;
      if all[0] in files && files[all[0]].Doc? && ReadFiles(env, files, all[1..]).Some? {
        Middle([ReadFile(env, files, all[0])], ReadFiles(env, files, listing[1..]).value, [ReadFile(env, files, id)]);
      }
    }
  }

  lemma ReadUnroll(env: Env, files: map<Id, File>, listing: seq<Id>)
    requires listing != []
    ensures ReadFiles(env, files, listing) ==
      if listing[0] in files && files[listing[0]].Doc? && ReadFiles(env, files, listing[1..]).Some?
      then Some([ReadFile(env, files, listing[0])] + ReadFiles(env, files, listing[1..]).value) else None
  {
    hide ReadFile;
  }

  class Runner {
    const bundle: Bundle
    const store: Store
    const git: Git
    const env: Env

    constructor (bundle: Bundle, store: Store, git: Git, env: Env)
      ensures this.bundle == bundle && this.store == store && this.git == git && this.env == env
    {
      this.bundle, this.store, this.git, this.env := bundle, store, git, env;
    }

    ghost function Now(): World
      reads bundle, store, git
    {
      World(bundle.files, bundle.log, git.commits, store.Tables())
    }

    lemma NowIs()
      ensures Now().db.epochs == store.epochs && Now().db.clock == store.clock
    {
    }

    /** One vector for each concept, in order. */
    method EmbedAll(concepts: seq<Concept>) returns (ok: bool, vecs: seq<string>)
      modifies store.fate
      ensures ok ==> |vecs| == |concepts| && forall i :: 0 <= i < |vecs| ==> vecs[i] == env.embed(TextOf(concepts[i].content))
    {
      ok := store.fate.Next();
      vecs := [];
      for i := 0 to |concepts|
        invariant |vecs| == i
        invariant forall j :: 0 <= j < i ==> vecs[j] == env.embed(TextOf(concepts[j].content))
      {
        vecs := vecs + [env.embed(TextOf(concepts[i].content))];
      }
    }

    method WriteFile(c: Concept) returns (ok: bool)
      modifies bundle, bundle.fate
      ensures Now() == if ok then Apply(Op.WriteFile(c), old(Now())) else old(Now())
    {
      hide Upsert, RecordFact, Prune, NextNumber;
      ok := bundle.WriteConcept(c);
    }

    method WriteRow(c: Concept) returns (ok: bool)
      modifies store, store.fate
      ensures Now() == if ok then Apply(UpsertRow(c), old(Now())) else old(Now())
    {
      hide RecordFact, Prune, NextNumber;
      ok := store.UpsertConcept(c);
    }

    method WriteEmbedding(c: Concept, vec: string, at: int) returns (ok: bool)
      modifies store, store.fate
      ensures
        var op := StoreEmbedding(c.id, c.epoch, Embedding(vec, env.model, at));
        Now() == if ok then Apply(op, old(Now())) else old(Now())
    {
      hide Upsert, RecordFact, Prune, NextNumber;
      ok := store.UpsertEmbedding(c.id, c.epoch, Embedding(vec, env.model, at));
    }

    method WriteEdges(c: Concept) returns (ok: bool)
      modifies store, store.fate
      ensures Now() == if ok then Apply(Op.ReplaceEdges(c.id, c.links), old(Now())) else old(Now())
    {
      hide Upsert, RecordFact, Prune, NextNumber;
      ok := store.ReplaceEdges(c.id, c.links);
    }

    method WriteVersion(c: Concept, at: int) returns (ok: bool)
      modifies store, store.fate
      ensures Now() == if ok then Apply(AppendFact(c, at), old(Now())) else old(Now())
    {
      hide Upsert, Prune, NextNumber, RecordFact;
      ok := store.RecordVersion(c, at);
    }

    /** The five writes of one concept; `k` of them happened. */
    method ApplyConcept(c: Concept, at: int, vec: string) returns (ok: bool, ghost k: nat)
      requires vec == env.embed(TextOf(c.content))
      modifies bundle, bundle.fate, store, store.fate
      ensures k <= |ConceptOps(env, c, at)| && (ok ==> k == |ConceptOps(env, c, at)|)
      ensures Now() == ApplyAll(ConceptOps(env, c, at)[..k], old(Now()))
    {
      ghost var ops := ConceptOps(env, c, at);
      ghost var w := Now();
      hide Apply, ApplyAll, TextOf;
      k := 0;
      NothingYet(ops, w);
      ok := WriteFile(c);
      if !ok { return; }
      ApplyNext(ops, 0, w);
      k := 1;
      ok := WriteRow(c);
      if !ok { return; }
      ApplyNext(ops, 1, w);
      k := 2;
      ok := WriteEmbedding(c, vec, at);
      if !ok { return; }
      ApplyNext(ops, 2, w);
      k := 3;
      ok := WriteEdges(c);
      if !ok { return; }
      ApplyNext(ops, 3, w);
      k := 4;
      ok := WriteVersion(c, at);
      if !ok { return; }
      ApplyNext(ops, 4, w);
      k := 5;
    }

    /** Stamps and writes every concept, in order. */
    method ApplyConcepts(concepts: seq<Concept>, n: int, at: int) returns (ok: bool, ghost k: nat)
      modifies bundle, bundle.fate, store, store.fate
      ensures
        var ops := BatchOps(env, StampedAll(env, concepts, n, at), at);
        k <= |ops| && (ok ==> k == |ops|) && Now() == ApplyAll(ops[..k], old(Now()))
    {
      hide Apply, ApplyAll, BatchOps, ConceptOps, TextOf, StampedAll, Store.Tables;
      ghost var rs := StampedAll(env, concepts, n, at);
      ghost var ops := BatchOps(env, rs, at);
      ghost var w := Now();
      k := 0;
      NothingYet(ops, w);
      NoneYet(env, rs, at, w);
      StampedEach(env, concepts, n, at);
      var vecs;
      ok, vecs := EmbedAll(concepts);
      if !ok { return; }
      for i := 0 to |concepts|
        invariant ok && |vecs| == |concepts|
        invariant Now() == ApplyAll(BatchOps(env, rs[..i], at), w)
      {
        var c := Stamped(env, concepts[i], n, at);
        ghost var j;
        ok, j := ApplyConcept(c, at, vecs[i]);
        OneMoreConcept(env, rs, at, i, j, w, Now());
        if !ok {
          k := |BatchOps(env, rs[..i], at)| + j;
          return;
        }
      }
      assert rs[..|concepts|] == rs;
      k := |ops|;
      AllDone(ops, k, w);
    }

    /** Deletes every file that is not kept, in the order of the directory. */
    method ReconcileBundle(keep: set<Id>) returns (ok: bool, ghost sweep: seq<Id>, ghost k: nat)
      modifies bundle, bundle.fate
      ensures Listed(sweep, old(bundle.files.Keys) - keep)
      ensures k <= |sweep| && (ok ==> k == |sweep|)
      ensures Now() == ApplyAll(DeleteOps(sweep)[..k], old(Now()))
    {
      ghost var w := Now();
      k := 0;
      var listing := bundle.Walk();
      sweep := Unkept(listing, keep);
      UnkeptListed(listing, bundle.files.Keys, keep);
      NothingYet(DeleteOps(sweep), w);
      assert Unkept(listing[..0], keep) == [];
      hide Apply, ApplyAll, Listed, Unkept, DeleteOps;
      ok := bundle.fate.Next();
      if !ok { return; }
      for i := 0 to |listing|
        invariant ok && k == |Unkept(listing[..i], keep)| && Unkept(listing[..i], keep) <= sweep
        invariant Now() == ApplyAll(DeleteOps(sweep)[..k], w)
      {
        UnkeptNext(listing, keep, i);
        if listing[i] !in keep {
          assert sweep[k] == listing[i];
          DeletedNext(sweep, k, w);
          ok := RemoveFile(listing[i]);
          if !ok { return; }
          k := k + 1;
        }
      }
      assert listing[..|listing|] == listing;
    }

    method RemoveFile(id: Id) returns (ok: bool)
      modifies bundle, bundle.fate
      ensures Now() == if ok then Apply(DeleteFile(id), old(Now())) else old(Now())
    {
      hide Upsert, RecordFact, Prune, NextNumber;
      ok := bundle.Remove(id);
    }

    /** The index files are not part of the world modelled here. */
    method WriteIndexes() returns (ok: bool)
      modifies bundle.fate
    {
      ok := bundle.fate.Next();
    }

    method WriteLog(line: LogLine) returns (ok: bool)
      modifies bundle, bundle.fate
      ensures Now() == if ok then Apply(Op.AppendLog(line), old(Now())) else old(Now())
    {
      hide Upsert, RecordFact, Prune, NextNumber;
      ok := bundle.AppendLog(line);
    }

    method CommitAll() returns (ok: bool, sha: nat)
      modifies git, git.fate
      ensures Now() == if ok then Apply(Op.Commit, old(Now())) else old(Now())
      ensures ok ==> sha == old(git.commits) + 1
    {
      hide Upsert, RecordFact, Prune, NextNumber;
      ok, sha := git.Commit();
    }

    method StampEpoch(n: int, sha: nat) returns (ok: bool)
      modifies store, store.fate
      ensures Now() == if ok then Apply(StampCommit(n, sha), old(Now())) else old(Now())
    {
      hide Upsert, RecordFact, Prune, NextNumber;
      ok := store.SetEpochCommit(n, sha);
    }

    method PruneVectors() returns (ok: bool)
      modifies store, store.fate
      ensures Now() == if ok then Apply(Op.PruneEmbeddings, old(Now())) else old(Now())
    {
      hide Upsert, RecordFact, Prune, NextNumber;
      ok := store.PruneEmbeddings();
    }

    method FinishEpoch(n: int, line: LogLine) returns (ok: bool, sha: nat, ghost k: nat)
      modifies bundle, bundle.fate, store, store.fate, git, git.fate
      ensures
        var ops := FinishOps(n, line, old(git.commits) + 1);
        k <= |ops| && (ok ==> k == |ops| && sha == old(git.commits) + 1) && Now() == ApplyAll(ops[..k], old(Now()))
    {
      hide Apply, ApplyAll, Store.Tables;
      ghost var w := Now();
      ghost var ops := FinishOps(n, line, git.commits + 1);
      k, sha := 0, 0;
      NothingYet(ops, w);
      ok := WriteIndexes();
      if !ok { return; }
      ok := WriteLog(line);
      if !ok { return; }
      ApplyNext(ops, 0, w);
      k := 1;
      ok, sha := CommitAll();
      if !ok { return; }
      ApplyNext(ops, 1, w);
      k := 2;
      ok := StampEpoch(n, sha);
      if !ok { return; }
      ApplyNext(ops, 2, w);
      k := 3;
      ok := PruneVectors();
      if !ok { return; }
      ApplyNext(ops, 3, w);
      k := 4;
    }

    method NewEpoch(source: string, added: nat, changed: nat, removed: nat) returns (ok: bool, n: int, at: int)
      modifies store, store.fate
      ensures Now() == if ok then Apply(CutEpoch(source, added, changed, removed), old(Now())) else old(Now())
      ensures ok ==> n == NextNumber(old(store.epochs)) && at == old(store.clock) + 1
    {
      hide Upsert, RecordFact, Prune, NextNumber;
      ok, n, at := store.NextEpoch(source, added, changed, removed);
    }

    /** Run up to its new epoch: the report against the current tables. */
    method Begin(concepts: seq<Concept>, source: string) returns (ok: bool, d: Diff, n: int, at: int)
      modifies store, store.fate
      ensures Now() == if ok then Apply(RunCut(concepts, source, old(Now())), old(Now())) else old(Now())
      ensures ok ==> d == ReportOf(concepts, old(Now())) && n == NextNumber(old(store.epochs)) && at == old(store.clock) + 1
    {
      ghost var w := Now();
      RunNames(env, concepts, source, w);
      hide Apply, ApplyAll, Plan, Listed, Stopped, Finished, BatchOps, StampedAll, DeleteOps, FinishOps, BatchShas, DiffSets, CurrentShas, NextNumber, ListingsOk, RunCut, RunBatch, RunEnd, ReportOf, Ids, ResultOf;
      d, n, at := Diff({}, {}, {}), 0, 0;
      var before;
      ok, before := store.CurrentSHAs();
      assert Now() == w;
      if !ok { return; }
      var after := ShasOf(concepts);
      d := DiffShas(before, after);
      ok, n, at := NewEpoch(source, |d.added|, |d.changed|, |d.removed|);
    }

    /** Run: report, cut the epoch, write every concept, delete what the batch leaves out,
        finish. `k` writes of its plan happened. */
    method Run(concepts: seq<Concept>, source: string)
      returns (r: Option<EpochResult>, ghost sweep: seq<Id>, ghost k: nat)
      modifies bundle, bundle.fate, store, store.fate, git, git.fate
      ensures ListingsOk(Call.Run(concepts, source), sweep, old(Now()))
      ensures Stopped(env, Call.Run(concepts, source), sweep, old(Now()), k, Now())
      ensures r.Some? ==>
        && Finished(env, Call.Run(concepts, source), sweep, old(Now()), k)
        && r.value == ResultOf(Call.Run(concepts, source), old(Now()))
    {
      hide *;
      ghost var w := Now();
      sweep := SomeSweep(concepts, source, w);
      k, r := 0, None;
      StoppedAtOnce(env, Call.Run(concepts, source), sweep, w);
      RunNames(env, concepts, source, w);
      NowIs();
      var ok, d, n, at := Begin(concepts, source);
      if !ok { return; }
      ghost var j;
      ok, j := ApplyConcepts(concepts, n, at);
      RunStoppedWriting(env, concepts, source, sweep, w, j, Now());
      k := 1 + j;
      if !ok { return; }
      AllDone(RunBatch(env, concepts, w), j, Apply(RunCut(concepts, source, w), w));
      var sha;
      ok, sha, sweep, k := Conclude(concepts, source, n, at, d, w);
      if ok {
        r := Some(EpochResult(n, |d.added|, |d.changed|, |d.removed|, sha));
      }
    }

    /** Run from the deletions on. */
    method Conclude(concepts: seq<Concept>, source: string, n: int, at: int, d: Diff, ghost w: World)
      returns (ok: bool, sha: nat, ghost sweep: seq<Id>, ghost k: nat)
      requires n == NextNumber(w.db.epochs) && at == w.db.clock + 1 && d == ReportOf(concepts, w)
      requires Now() == ApplyAll(RunBatch(env, concepts, w), Apply(RunCut(concepts, source, w), w))
      modifies bundle, bundle.fate, store, store.fate, git, git.fate
      ensures ListingsOk(Call.Run(concepts, source), sweep, w)
      ensures Stopped(env, Call.Run(concepts, source), sweep, w, k, Now())
      ensures ok ==> Finished(env, Call.Run(concepts, source), sweep, w, k) && sha == w.commits + 1
    {
      ghost var w2 := Now();
      RunNames(env, concepts, source, w);
      hide Apply, ApplyAll, Plan, Listed, Stopped, Finished, BatchOps, StampedAll, DeleteOps, FinishOps, BatchShas, DiffSets, CurrentShas, NextNumber, ListingsOk, RunCut, RunBatch, RunEnd, ReportOf, Ids, ResultOf;
      sha := 0;
      var keep := IdsOf(concepts);
      ghost var i;
      ok, sweep, i := ReconcileBundle(keep);
      SweepAfterBatch(env, concepts, source, sweep, w, w2);
      RunStoppedDeleting(env, concepts, source, sweep, w, w2, i, Now());
      k := 1 + |RunBatch(env, concepts, w)| + i;
      if !ok { return; }
      ghost var w3 := Now();
      ghost var j;
      AllDone(DeleteOps(sweep), i, w2);
      SameCommits(sweep, w2);
      ok, sha, j := FinishEpoch(n, LogLine(at, n, source, |d.added|, |d.changed|, |d.removed|));
      RunStoppedFinishing(env, concepts, source, sweep, w, w2, w3, j, Now());
      k := k + j;
    }

    /** UpsertBatch: no diff and no deletion. */
    method UpsertBatch(concepts: seq<Concept>, source: string) returns (r: Option<EpochResult>, ghost k: nat)
      modifies bundle, bundle.fate, store, store.fate, git, git.fate
      ensures Stopped(env, Call.UpsertBatch(concepts, source), [], old(Now()), k, Now())
      ensures r.Some? ==>
        && Finished(env, Call.UpsertBatch(concepts, source), [], old(Now()), k)
        && r.value == ResultOf(Call.UpsertBatch(concepts, source), old(Now()))
    {
      hide *;
      ghost var w := Now();
      k, r := 0, None;
      StoppedAtOnce(env, Call.UpsertBatch(concepts, source), [], w);
      UpsertNames(env, concepts, source, w);
      EmptyUpsert(env, source, w);
      NowIs();
      if |concepts| == 0 {
        assert concepts == [];
        r := Some(EpochResult(0, 0, 0, 0, 0));
        return;
      }
      var ok, n, at := NewEpoch(source, 0, |concepts|, 0);
      if !ok {
        return;
      }
      ghost var j;
      ok, j := ApplyConcepts(concepts, n, at);
      UpsertStoppedWriting(env, concepts, source, w, j, Now());
      k := 1 + j;
      if !ok { return; }
      AllDone(RunBatch(env, concepts, w), j, Apply(UpsertCut(concepts, source), w));
      var sha;
      ok, sha, k := ConcludeUpsert(concepts, source, n, at, w);
      if ok {
        r := Some(EpochResult(n, 0, |concepts|, 0, sha));
      }
    }

    /** UpsertBatch once its concepts are written. */
    method ConcludeUpsert(concepts: seq<Concept>, source: string, n: int, at: int, ghost w: World)
      returns (ok: bool, sha: nat, ghost k: nat)
      requires concepts != [] && n == NextNumber(w.db.epochs) && at == w.db.clock + 1
      requires Now() == ApplyAll(RunBatch(env, concepts, w), Apply(UpsertCut(concepts, source), w))
      modifies bundle, bundle.fate, store, store.fate, git, git.fate
      ensures Stopped(env, Call.UpsertBatch(concepts, source), [], w, k, Now())
      ensures ok ==> Finished(env, Call.UpsertBatch(concepts, source), [], w, k) && sha == w.commits + 1
    {
      hide Apply, ApplyAll, Plan, Stopped, Finished, BatchOps, StampedAll, FinishOps, NextNumber, RunBatch, UpsertCut, UpsertEnd, ResultOf, Store.Tables;
      ghost var w2 := Now();
      UpsertNames(env, concepts, source, w);
      BatchKeepsCommits(env, concepts, UpsertCut(concepts, source), w);
      ghost var j;
      ok, sha, j := FinishEpoch(n, LogLine(at, n, source, 0, |concepts|, 0));
      UpsertStoppedFinishing(env, concepts, source, w, w2, j, Now());
      k := 1 + |RunBatch(env, concepts, w)| + j;
    }

    /** Every file of the bundle, read in the order of the directory; the first that
        cannot be read ends it. */
    method ReadBundle() returns (ok: bool, listing: seq<Id>, concepts: seq<Concept>)
      modifies bundle.fate
      ensures Listed(listing, bundle.files.Keys)
      ensures ok ==> ReadFiles(env, bundle.files, listing) == Some(concepts)
    {
      concepts := [];
      listing := bundle.Walk();
      ok := bundle.fate.Next();
      if !ok { return; }
      assert listing[..0] == [];
      for i := 0 to |listing|
        invariant ok && ReadFiles(env, bundle.files, listing[..i]) == Some(concepts)
      {
        assert listing[..i + 1] == listing[..i] + [listing[i]];
        ReadSnoc(env, bundle.files, listing[..i], listing[i]);
        ok := listing[i] in bundle.files && bundle.files[listing[i]].Doc?;
        if !ok { return; }
        concepts := concepts + [ReadFile(env, bundle.files, listing[i])];
      }
      assert listing[..|listing|] == listing;
    }

    method TruncateTables() returns (ok: bool)
      modifies store, store.fate
      ensures Now() == if ok then Apply(Op.Truncate, old(Now())) else old(Now())
    {
      hide Upsert, RecordFact, Prune, NextNumber;
      ok := store.Truncate();
    }

    /** Writes the concepts of the bundle again with the new epoch, stamps untouched. */
    method Replay(concepts: seq<Concept>, n: int, at: int) returns (ok: bool, ghost k: nat)
      modifies bundle, bundle.fate, store, store.fate
      ensures
        var ops := BatchOps(env, Renumbered(concepts, n), at);
        k <= |ops| && (ok ==> k == |ops|) && Now() == ApplyAll(ops[..k], old(Now()))
    {
      hide Apply, ApplyAll, BatchOps, ConceptOps, TextOf, Renumbered, Store.Tables;
      ghost var rs := Renumbered(concepts, n);
      ghost var ops := BatchOps(env, rs, at);
      ghost var w := Now();
      k := 0;
      NothingYet(ops, w);
      NoneYet(env, rs, at, w);
      RenumberedEach(concepts, n);
      var vecs;
      ok, vecs := EmbedAll(concepts);
      if !ok { return; }
      for i := 0 to |concepts|
        invariant ok && |vecs| == |concepts|
        invariant Now() == ApplyAll(BatchOps(env, rs[..i], at), w)
      {
        var c := concepts[i].(epoch := n);
        ghost var j;
        ok, j := ApplyConcept(c, at, vecs[i]);
        OneMoreConcept(env, rs, at, i, j, w, Now());
        if !ok {
          k := |BatchOps(env, rs[..i], at)| + j;
          return;
        }
      }
      assert rs[..|concepts|] == rs;
      k := |ops|;
      AllDone(ops, k, w);
    }

    /** Reindex: the bundle is read before the tables are emptied. */
    method Reindex() returns (ok: bool, ghost listing: seq<Id>, ghost k: nat)
      modifies bundle, bundle.fate, store, store.fate
      ensures ListingsOk(Call.Reindex(listing), [], old(Now()))
      ensures Stopped(env, Call.Reindex(listing), [], old(Now()), k, Now())
      ensures ok ==> Finished(env, Call.Reindex(listing), [], old(Now()), k)
    {
      ghost var w := Now();
      k := 0;
      var concepts;
      ok, listing, concepts := ReadBundle();
      StoppedAtOnce(env, Call.Reindex(listing), [], w);
      if !ok { return; }
      EmptyNext(w);
      hide Begun, Apply, ApplyAll, Plan, Stopped, Finished, BatchOps, ConceptOps, Renumbered, NextNumber, ReadFiles, ReadFile, Listed, TextOf, Renumber;
      ok := TruncateTables();
      if !ok { return; }
      ghost var w0 := Now();
      ReindexStoppedBefore(env, listing, concepts, w, w0);
      k := 1;
      var n, at;
      ok, n, at := NewEpoch("reindex", |concepts|, 0, 0);
      if !ok { return; }
      BegunIs(env, listing, concepts, w, w0, Now());
      ok, k := ReplayAndPrune(concepts, n, at, listing, w, w0);
    }

    /** Reindex from its new epoch on. */
    method ReplayAndPrune(concepts: seq<Concept>, n: int, at: int, ghost listing: seq<Id>, ghost w: World, ghost w0: World)
      returns (ok: bool, ghost k: nat)
      requires n == 0 && at == w.db.clock + 1 && Begun(env, listing, concepts, w, w0, Now())
      modifies bundle, bundle.fate, store, store.fate
      ensures Stopped(env, Call.Reindex(listing), [], w, k, Now())
      ensures ok ==> Finished(env, Call.Reindex(listing), [], w, k)
    {
      ghost var w1 := Now();
      hide *;
      ghost var j;
      ok, j := Replay(concepts, n, at);
      ReindexStoppedWriting(env, listing, concepts, w, w0, w1, j, Now());
      k := 2 + j;
      if !ok { return; }
      AllDone(BatchOps(env, Renumbered(concepts, 0), at), j, w1);
      ok := PruneVectors();
      if !ok { return; }
      ReindexFinished(env, listing, concepts, w, w0, w1, Now());
      k := k + 1;
    }

    /** epochSHAs */
    method EpochSHAs(n: int) returns (ok: bool, shas: map<Id, string>, ghost m: map<Id, Fact>)
      modifies store.fate
      ensures ok ==> IsAsOf(store.Tables(), n, m) && shas == Shas(m)
    {
      var facts;
      ok, facts := store.AsOf(n);
      m := facts;
      shas := map id | id in facts :: facts[id].sha;
    }

    /** Diff of two epochs, by their views. */
    method DiffEpochs(n: int, m: int) returns (ok: bool, d: Diff, ghost a: map<Id, Fact>, ghost b: map<Id, Fact>)
      modifies store.fate
      ensures ok ==> IsAsOf(store.Tables(), n, a) && IsAsOf(store.Tables(), m, b) && d == DiffSets(Shas(a), Shas(b))
    {
      hide IsAsOf, DiffSets, Shas;
      d, b := Diff({}, {}, {}), map[];
      var before, after;
      ok, before, a := EpochSHAs(n);
      if !ok { return; }
      ok, after, b := EpochSHAs(m);
      if !ok { return; }
      d := DiffShas(before, after);
    }
  }
}
