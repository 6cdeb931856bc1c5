/** The bundle, the derived tables, and the writes the epoch runner makes to them
    (internal/epoch/runner.go, internal/store/postgres). */
module EpochModel {
  import opened Wrappers

  type Id = string

  /** What a concept says, apart from its id, its epoch and its embedding stamp. */
  datatype Content = Content(kind: string, title: string, sha: string, body: string, intent: string, meta: string)

  datatype Stamp = NoStamp | Stamp(at: int, model: string)

  /** A bundle file; `Broken` is one that cannot be read as a concept. */
  datatype File = Doc(content: Content, epoch: int, stamp: Stamp) | Broken

  datatype Concept = Concept(id: Id, content: Content, epoch: int, stamp: Stamp, links: seq<Id>)

  datatype ConceptRow = ConceptRow(content: Content, firstEpoch: int, lastEpoch: int)

  datatype Embedding = Embedding(vec: string, model: string, at: int)

  datatype EpochRow = EpochRow(at: int, source: string, commit: Option<nat>, added: nat, changed: nat, removed: nat)

  /** A version of a concept: valid time and transaction time, open above when the
      upper end is None. */
  datatype Fact = Fact(
    id: Id, kind: string, title: string, sha: string, epoch: int,
    validFrom: int, validTo: Option<int>, txFrom: int, txTo: Option<int>)

  /** The derived tables. `clock` is the last instant the database clock showed; it
      advances with every reading. */
  datatype Db = Db(
    concept: map<Id, ConceptRow>,
    embedding: map<(Id, int), Embedding>,
    edges: map<Id, seq<Id>>,
    epochs: map<int, EpochRow>,
    facts: seq<Fact>,
    clock: int)

  datatype LogLine = LogLine(at: int, epoch: int, source: string, added: nat, changed: nat, removed: nat)

  /** The bundle on disk with its log and its commits, and the tables. */
  datatype World = World(bundle: map<Id, File>, log: seq<LogLine>, commits: nat, db: Db)

  /** What the surroundings fix: the embedder and the links found in a body. */
  datatype Env = Env(model: string, embed: string -> string, links: (Id, string) -> seq<Id>)

  // ---- single statements

  lemma {:induction false} Maximum(s: set<int>, x: int) returns (top: int)
    requires x in s
    ensures top in s && forall e :: e in s ==> e <= top
    decreases |s|
  {
    if y :| y in s && y > x {
      var rest := Maximum(s - {x}, y);
      top := rest;
      assert forall e :: e in s ==> e == x || e in s - {x};
    } else {
      top := x;
    }
  }

  lemma MaximumExists(epochs: map<int, EpochRow>)
    ensures epochs == map[] || exists top :: top in epochs && forall e :: e in epochs ==> e <= top
  {
    if !exists e :: e in epochs {
      assert epochs == map[];
    } else {
      var x :| x in epochs;
      var top := Maximum(epochs.Keys, x);
      assert top in epochs;
    }
  }

  /** coalesce(max(n) + 1, 0) */
  ghost function NextNumber(epochs: map<int, EpochRow>): (n: int)
    ensures epochs == map[] ==> n == 0
    ensures epochs != map[] ==> n - 1 in epochs && forall e :: e in epochs ==> e < n
  {
    if epochs == map[] then 0
    else
      MaximumExists(epochs);
      var top :| top in epochs && forall e :: e in epochs ==> e <= top;
      top + 1
  }

  function Upsert(rows: map<Id, ConceptRow>, c: Concept): map<Id, ConceptRow> {
    var row :=
      if c.id in rows then
        ConceptRow(c.content,
          if rows[c.id].firstEpoch < c.epoch then rows[c.id].firstEpoch else c.epoch,
          if rows[c.id].lastEpoch > c.epoch then rows[c.id].lastEpoch else c.epoch)
      else ConceptRow(c.content, c.epoch, c.epoch);
    rows[c.id := row]
  }

  predicate IsOpen(f: Fact) {
    f.txTo.None?
  }

  /** The open version of `id`, if any, ends now. */
  function CloseOpen(facts: seq<Fact>, id: Id, validFrom: int, now: int): (r: seq<Fact>)
    ensures |r| == |facts|
  {
    seq(|facts|, i requires 0 <= i < |facts| =>
      if facts[i].id == id && IsOpen(facts[i]) then facts[i].(validTo := Some(validFrom), txTo := Some(now)) else facts[i])
  }

  /** Close the open version of the concept and append the new one, each at its own
      reading of the clock. */
  function RecordFact(db: Db, c: Concept, validFrom: int): Db {
    var closed := CloseOpen(db.facts, c.id, validFrom, db.clock + 1);
    var version := Fact(c.id, c.content.kind, c.content.title, c.content.sha, c.epoch, validFrom, None, db.clock + 2, None);
    db.(facts := closed + [version], clock := db.clock + 2)
  }

  /** Embeddings of an earlier epoch than another one of the same concept go. */
  function Prune(rows: map<(Id, int), Embedding>): map<(Id, int), Embedding> {
    map k | k in rows && !Superseded(rows, k) :: rows[k]
  }

  predicate Superseded(rows: map<(Id, int), Embedding>, k: (Id, int)) {
    exists m :: m in rows.Keys && m.0 == k.0 && m.1 > k.1
  }

  // ---- the writes of one call, each of which happens or does not

  datatype Op =
    | Truncate
    | CutEpoch(source: string, added: nat, changed: nat, removed: nat)
    | WriteFile(c: Concept)
    | UpsertRow(c: Concept)
    | StoreEmbedding(id: Id, epoch: int, e: Embedding)
    | ReplaceEdges(id: Id, links: seq<Id>)
    | AppendFact(c: Concept, validFrom: int)
    | DeleteFile(id: Id)
    | AppendLog(line: LogLine)
    | Commit
    | StampCommit(n: int, commit: nat)
    | PruneEmbeddings

  ghost function Apply(op: Op, w: World): World {
    var db := w.db;
    match op
    case Truncate => w.(db := Db(map[], map[], map[], map[], [], db.clock))
    case CutEpoch(source, a, c, r) =>
      w.(db := db.(
        epochs := db.epochs[NextNumber(db.epochs) := EpochRow(db.clock + 1, source, None, a, c, r)],
        clock := db.clock + 1))
    case WriteFile(c) => w.(bundle := w.bundle[c.id := Doc(c.content, c.epoch, c.stamp)])
    case UpsertRow(c) => w.(db := db.(concept := Upsert(db.concept, c)))
    case StoreEmbedding(id, epoch, e) => w.(db := db.(embedding := db.embedding[(id, epoch) := e]))
    case ReplaceEdges(id, links) => w.(db := db.(edges := db.edges[id := links]))
    case AppendFact(c, validFrom) => w.(db := RecordFact(db, c, validFrom))
    case DeleteFile(id) => w.(bundle := w.bundle - {id})
    case AppendLog(line) => w.(log := w.log + [line])
    case Commit => w.(commits := w.commits + 1)
    case StampCommit(n, commit) =>
      if n in db.epochs then w.(db := db.(epochs := db.epochs[n := db.epochs[n].(commit := Some(commit))])) else w
    case PruneEmbeddings => w.(db := db.(embedding := Prune(db.embedding)))
  }

  ghost function ApplyAll(ops: seq<Op>, w: World): World
    decreases |ops|
  {
    if ops == [] then w else ApplyAll(ops[1..], Apply(ops[0], w))
  }

  lemma {:induction false} ApplyConcat(a: seq<Op>, b: seq<Op>, w: World)
    ensures ApplyAll(a + b, w) == ApplyAll(b, ApplyAll(a, w))
    decreases |a|
  {
    if a == [] {
      assert a + b == b;
    } else {
      assert (a + b)[1..] == a[1..] + b;
      ApplyConcat(a[1..], b, Apply(a[0], w));
    }
  }

  // ---- the calls

  datatype Call =
    | Run(concepts: seq<Concept>, source: string)
    | UpsertBatch(concepts: seq<Concept>, source: string)
    | Reindex(listing: seq<Id>)

  datatype Diff = Diff(added: set<Id>, changed: set<Id>, removed: set<Id>)

  /** diffSets: ids only in the new map, ids whose SHA differs, ids only in the old. */
  function DiffSets(old_: map<Id, string>, new_: map<Id, string>): Diff {
    Diff(
      set id | id in new_ && id !in old_,
      set id | id in new_ && id in old_ && old_[id] != new_[id],
      set id | id in old_ && id !in new_)
  }

  function CurrentShas(db: Db): map<Id, string> {
    map id | id in db.concept :: db.concept[id].content.sha
  }

  /** The SHA of each id; the last one counts. */
  function BatchShas(concepts: seq<Concept>): map<Id, string> {
    if concepts == [] then map[]
    else BatchShas(concepts[..|concepts| - 1])[concepts[|concepts| - 1].id := concepts[|concepts| - 1].content.sha]
  }

  function Ids(concepts: seq<Concept>): set<Id> {
    set i | 0 <= i < |concepts| :: concepts[i].id
  }

  function TextOf(c: Content): string {
    c.title + " " + c.intent + " " + c.body
  }

  /** applyConcept: the file, the row, the embedding, the edges, the version. */
  function ConceptOps(env: Env, c: Concept, at: int): seq<Op> {
    [WriteFile(c),
     UpsertRow(c),
     StoreEmbedding(c.id, c.epoch, Embedding(env.embed(TextOf(c.content)), env.model, at)),
     ReplaceEdges(c.id, c.links),
     AppendFact(c, at)]
  }

  function BatchOps(env: Env, concepts: seq<Concept>, at: int): seq<Op> {
    if concepts == [] then [] else ConceptOps(env, concepts[0], at) + BatchOps(env, concepts[1..], at)
  }

  /** What applyAll writes of a concept it was given. */
  function Stamped(env: Env, c: Concept, n: int, at: int): Concept {
    c.(epoch := n, stamp := Stamp(at, env.model))
  }

  function StampedAll(env: Env, concepts: seq<Concept>, n: int, at: int): (r: seq<Concept>)
    ensures |r| == |concepts|
  {
    seq(|concepts|, i requires 0 <= i < |concepts| => Stamped(env, concepts[i], n, at))
  }

  function DeleteOps(ids: seq<Id>): (r: seq<Op>)
    ensures |r| == |ids|
  {
    seq(|ids|, i requires 0 <= i < |ids| => DeleteFile(ids[i]))
  }

  function FinishOps(n: int, line: LogLine, commit: nat): seq<Op> {
    [AppendLog(line), Commit, StampCommit(n, commit), PruneEmbeddings]
  }

  /** The concepts of the bundle, as ReadBundle returns them in the listed order:
      the id is the path, the links are found in the body. */
  function ReadFiles(env: Env, bundle: map<Id, File>, listing: seq<Id>): (r: Option<seq<Concept>>)
    ensures r.Some? ==> |r.value| == |listing|
  {
    if listing == [] then Some([])
    else if listing[0] !in bundle || bundle[listing[0]].Broken? then None
    else
      match ReadFiles(env, bundle, listing[1..])
      case None => None
      case Some(rest) => Some([ReadFile(env, bundle, listing[0])] + rest)
  }

  function ReadFile(env: Env, bundle: map<Id, File>, id: Id): Concept
    requires id in bundle && bundle[id].Doc?
  {
    var f := bundle[id];
    Concept(id, f.content, f.epoch, f.stamp, env.links(id, f.content.body))
  }

  function Renumbered(concepts: seq<Concept>, n: int): (r: seq<Concept>)
    ensures |r| == |concepts|
  {
    seq(|concepts|, i requires 0 <= i < |concepts| => concepts[i].(epoch := n))
  }

  ghost predicate Distinct<T>(s: seq<T>) {
    forall i, j :: 0 <= i < j < |s| ==> s[i] != s[j]
  }

  /** The order in which the file system lists things for a call that starts in `w`:
      the files for Reindex, the files to delete for Run. */
  ghost predicate Listed(s: seq<Id>, ids: set<Id>) {
    Distinct(s) && forall id :: id in s <==> id in ids
  }

  /** The writes of a call that starts in `w`, in order; None when it fails before
      the first. `sweep` lists the files that Run will delete. */
  ghost function Plan(env: Env, call: Call, sweep: seq<Id>, w: World): Option<seq<Op>> {
    var db := w.db;
    var n := NextNumber(db.epochs);
    var at := db.clock + 1;
    match call
    case Run(cs, source) =>
      var d := DiffSets(CurrentShas(db), BatchShas(cs));
      var line := LogLine(at, n, source, |d.added|, |d.changed|, |d.removed|);
      Some([CutEpoch(source, |d.added|, |d.changed|, |d.removed|)]
        + BatchOps(env, StampedAll(env, cs, n, at), at)
        + DeleteOps(sweep)
        + FinishOps(n, line, w.commits + 1))
    case UpsertBatch(cs, source) =>
      if cs == [] then Some([])
      else
        Some([CutEpoch(source, 0, |cs|, 0)]
          + BatchOps(env, StampedAll(env, cs, n, at), at)
          + FinishOps(n, LogLine(at, n, source, 0, |cs|, 0), w.commits + 1))
    case Reindex(listing) =>
      match ReadFiles(env, w.bundle, listing)
      case None => None
      case Some(cs) =>
        Some([Truncate, CutEpoch("reindex", |cs|, 0, 0)]
          + BatchOps(env, Renumbered(cs, 0), at)
          + [PruneEmbeddings])
  }

  datatype EpochResult = EpochResult(epoch: int, added: nat, changed: nat, removed: nat, commit: nat)

  /** What a call that completes returns when it starts in `w`; a Reindex returns
      nothing but success. */
  ghost function ResultOf(call: Call, w: World): EpochResult {
    var n := NextNumber(w.db.epochs);
    match call
    case Run(cs, _) =>
      var d := DiffSets(CurrentShas(w.db), BatchShas(cs));
      EpochResult(n, |d.added|, |d.changed|, |d.removed|, w.commits + 1)
    case UpsertBatch(cs, _) => if cs == [] then EpochResult(0, 0, 0, 0, 0) else EpochResult(n, 0, |cs|, 0, w.commits + 1)
    case Reindex(_) => EpochResult(0, 0, 0, 0, 0)
  }

  /** What the file system reports fits the state the call starts in. */
  ghost predicate ListingsOk(call: Call, sweep: seq<Id>, w: World) {
    match call
    case Run(cs, _) => Listed(sweep, w.bundle.Keys - Ids(cs))
    case UpsertBatch(_, _) => true
    case Reindex(listing) => Listed(listing, w.bundle.Keys)
  }
}
