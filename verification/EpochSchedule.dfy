/** Several callers of one Runner: every write of the three calls happens under one
    mutex, any call may stop between two writes, and the process may die at any time. */
module EpochSchedule {
  import opened Wrappers
  import opened EpochModel
  import opened EpochRecovery
  import opened EpochInvariants
  import opened EpochCurrent
  import opened EpochStops

  type Caller = nat

  datatype Thread =
    | Idle
    | Waiting(call: Call)
    | Holding(call: Call, sweep: seq<Id>, plan: seq<Op>, pc: nat, result: EpochResult)

  /** A call that has released the mutex: how many of its writes happened, and what it
      returned if it did not fail. */
  datatype Done = Done(call: Call, sweep: seq<Id>, steps: nat, result: Option<EpochResult>)

  datatype State = State(world: World, threads: map<Caller, Thread>, mutex: Option<Caller>, past: seq<Done>)

  /** What the caller asked for is what runs; the files a Reindex reads are found when
      it holds the mutex. */
  predicate Asked(call: Call, actual: Call) {
    if call.Reindex? then actual.Reindex? else call == actual
  }

  predicate Invoke(s: State, s': State, t: Caller, call: Call) {
    t in s.threads && s.threads[t].Idle? && s' == s.(threads := s.threads[t := Waiting(call)])
  }

  /** UpsertBatch without concepts returns before it asks for the mutex. */
  predicate Skip(s: State, s': State, t: Caller) {
    && t in s.threads && s.threads[t].Waiting?
    && s.threads[t].call.UpsertBatch? && s.threads[t].call.concepts == []
    && s' == s.(threads := s.threads[t := Idle])
  }

  ghost predicate Lock(env: Env, s: State, s': State, t: Caller, actual: Call, sweep: seq<Id>) {
    && s.mutex == None && t in s.threads && s.threads[t].Waiting?
    && Asked(s.threads[t].call, actual) && ListingsOk(actual, sweep, s.world)
    && match Plan(env, actual, sweep, s.world)
       case None =>
         s' == s.(threads := s.threads[t := Idle], past := s.past + [Done(actual, sweep, 0, None)])
       case Some(plan) =>
         s' == s.(threads := s.threads[t := Holding(actual, sweep, plan, 0, ResultOf(actual, s.world))], mutex := Some(t))
  }

  ghost predicate Write(s: State, s': State, t: Caller) {
    && s.mutex == Some(t) && t in s.threads && s.threads[t].Holding?
    && var h := s.threads[t];
    && h.pc < |h.plan|
    && s' == s.(world := Apply(h.plan[h.pc], s.world), threads := s.threads[t := h.(pc := h.pc + 1)])
  }

  /** The call returns: with its result after the last write, or with an error anywhere. */
  predicate Return(s: State, s': State, t: Caller, failed: bool) {
    && s.mutex == Some(t) && t in s.threads && s.threads[t].Holding?
    && var h := s.threads[t];
    && (!failed ==> h.pc == |h.plan|)
    && s' == s.(threads := s.threads[t := Idle], mutex := None,
                past := s.past + [Done(h.call, h.sweep, h.pc, if failed then None else Some(h.result))])
  }

  /** The process dies, and another one starts with idle callers. */
  predicate Crash(s: State, s': State) {
    && s'.world == s.world && s'.mutex == None
    && (forall t :: t in s'.threads ==> s'.threads[t].Idle?)
    && s'.past == s.past + InFlight(s)
  }

  function InFlight(s: State): seq<Done> {
    if s.mutex.Some? && s.mutex.value in s.threads && s.threads[s.mutex.value].Holding? then
      var h := s.threads[s.mutex.value];
      [Done(h.call, h.sweep, h.pc, None)]
    else []
  }

  ghost predicate Next(env: Env, s: State, s': State) {
    || (exists t, call :: Invoke(s, s', t, call))
    || (exists t :: Skip(s, s', t))
    || (exists t, actual, sweep :: Lock(env, s, s', t, actual, sweep))
    || (exists t :: Write(s, s', t))
    || (exists t, failed :: Return(s, s', t, failed))
    || Crash(s, s')
  }

  predicate Init(s: State) {
    s.mutex == None && s.past == [] && forall t :: t in s.threads ==> s.threads[t].Idle?
  }

  ghost predicate Behaviour(env: Env, run: seq<State>) {
    && run != [] && Init(run[0])
    && forall i :: 0 <= i < |run| - 1 ==> Next(env, run[i], run[i + 1])
  }

  // ---- the same calls one after the other

  /** The world after one call that stopped after `d.steps` writes. */
  ghost function Effect(env: Env, d: Done, w: World): World {
    match Plan(env, d.call, d.sweep, w)
    case None => w
    case Some(plan) => if d.steps <= |plan| then ApplyAll(plan[..d.steps], w) else w
  }

  ghost function Serial(env: Env, past: seq<Done>, w: World): World {
    if past == [] then w else Effect(env, past[|past| - 1], Serial(env, past[..|past| - 1], w))
  }

  /** `d` is a call of the serial execution that starts in `w`. */
  ghost predicate Fits(env: Env, d: Done, w: World) {
    && ListingsOk(d.call, d.sweep, w)
    && match Plan(env, d.call, d.sweep, w)
       case None => d.steps == 0 && d.result == None
       case Some(plan) => d.steps <= |plan| && (d.result.Some? ==> d.steps == |plan| && d.result.value == ResultOf(d.call, w))
  }

  ghost predicate AllFit(env: Env, past: seq<Done>, w: World) {
    forall i :: 0 <= i < |past| ==> Fits(env, past[i], Serial(env, past[..i], w))
  }

  /** The thread with the mutex is partway through its writes, which it planned in the
      world the calls before it left. */
  ghost predicate InProgress(env: Env, h: Thread, world: World, before: World) {
    && h.Holding? && h.pc <= |h.plan|
    && ListingsOk(h.call, h.sweep, before)
    && Plan(env, h.call, h.sweep, before) == Some(h.plan)
    && h.result == ResultOf(h.call, before)
    && world == ApplyAll(h.plan[..h.pc], before)
  }

  ghost predicate Inv(env: Env, s: State, w: World) {
    && AllFit(env, s.past, w)
    && (forall t :: t in s.threads && s.threads[t].Holding? ==> s.mutex == Some(t))
    && match s.mutex
       case None => s.world == Serial(env, s.past, w)
       case Some(t) => t in s.threads && InProgress(env, s.threads[t], s.world, Serial(env, s.past, w))
  }

  lemma SerialSnoc(env: Env, past: seq<Done>, d: Done, w: World)
    requires AllFit(env, past, w) && Fits(env, d, Serial(env, past, w))
    ensures Serial(env, past + [d], w) == Effect(env, d, Serial(env, past, w))
    ensures AllFit(env, past + [d], w)
  {
    var all := past + [d];
    hide Fits, Effect;
    assert all[..|all| - 1] == past;
    forall i | 0 <= i < |all| ensures Fits(env, all[i], Serial(env, all[..i], w)) {
      if i < |past| {
        assert all[..i] == past[..i] && Fits(env, past[i], Serial(env, past[..i], w));
      } else {
        assert all[..i] == past;
      }
    }
  }

  /** The call in flight, wherever it is, is one of the serial execution. */
  lemma FlightFits(env: Env, h: Thread, world: World, before: World, result: Option<EpochResult>)
    requires InProgress(env, h, world, before)
    requires result == None || (h.pc == |h.plan| && result == Some(h.result))
    ensures
      var d := Done(h.call, h.sweep, h.pc, result);
      Fits(env, d, before) && Effect(env, d, before) == world
  {
    hide Plan, ApplyAll, ListingsOk, ResultOf;
  }

  lemma LockKeeps(env: Env, s: State, s': State, w: World, t: Caller, actual: Call, sweep: seq<Id>)
    requires Inv(env, s, w) && Lock(env, s, s', t, actual, sweep)
    ensures Inv(env, s', w)
  {
    var before := Serial(env, s.past, w);
    match Plan(env, actual, sweep, s.world) {
      case None =>
        var d := Done(actual, sweep, 0, None);
        assert Fits(env, d, before) && Effect(env, d, before) == before by { hide Plan, Serial, ListingsOk; }
        hide Plan, Fits, Effect, Serial, AllFit;
        SerialSnoc(env, s.past, d, w);
      case Some(plan) =>
        assert plan[..0] == [];
        assert InProgress(env, s'.threads[t], s'.world, before) by { hide Plan, Serial, ListingsOk, ResultOf, AllFit; }
        hide Plan, Serial, AllFit, InProgress;
    }
  }

  lemma WriteKeeps(env: Env, s: State, s': State, w: World, t: Caller)
    requires Inv(env, s, w) && Write(s, s', t)
    ensures Inv(env, s', w)
  {
    var h := s.threads[t];
    var before := Serial(env, s.past, w);
    hide Plan, Serial, AllFit, Apply, ApplyAll, ListingsOk, ResultOf;
    ApplyNext(h.plan, h.pc, before);
  }

  lemma ReturnKeeps(env: Env, s: State, s': State, w: World, t: Caller, failed: bool)
    requires Inv(env, s, w) && Return(s, s', t, failed)
    ensures Inv(env, s', w)
  {
    var h := s.threads[t];
    var result := if failed then None else Some(h.result);
    hide Plan, Serial, AllFit, Apply, ApplyAll, ListingsOk, ResultOf, Fits, Effect;
    assert h.pc <= |h.plan|;
    FlightFits(env, h, s.world, Serial(env, s.past, w), result);
    SerialSnoc(env, s.past, Done(h.call, h.sweep, h.pc, result), w);
  }

  lemma CrashKeeps(env: Env, s: State, s': State, w: World)
    requires Inv(env, s, w) && Crash(s, s')
    ensures Inv(env, s', w)
  {
    hide Plan, Serial, AllFit, Apply, ApplyAll, ListingsOk, ResultOf, Fits, Effect;
    if s.mutex.Some? {
      var h := s.threads[s.mutex.value];
      FlightFits(env, h, s.world, Serial(env, s.past, w), None);
      SerialSnoc(env, s.past, Done(h.call, h.sweep, h.pc, None), w);
    } else {
      assert s.past + [] == s.past;
    }
  }

  lemma NextKeeps(env: Env, s: State, s': State, w: World)
    requires Inv(env, s, w) && Next(env, s, s')
    ensures Inv(env, s', w)
  {
    hide Inv, Lock, Write, Return, Crash, Skip, Invoke;
    if t, actual, sweep :| Lock(env, s, s', t, actual, sweep) {
      LockKeeps(env, s, s', w, t, actual, sweep);
    } else if t :| Write(s, s', t) {
      WriteKeeps(env, s, s', w, t);
    } else if t, failed :| Return(s, s', t, failed) {
      ReturnKeeps(env, s, s', w, t, failed);
    } else if Crash(s, s') {
      CrashKeeps(env, s, s', w);
    } else {
      OthersKeep(env, s, s', w);
    }
  }

  lemma OthersKeep(env: Env, s: State, s': State, w: World)
    requires Inv(env, s, w)
    requires (exists t, call :: Invoke(s, s', t, call)) || (exists t :: Skip(s, s', t))
    ensures Inv(env, s', w)
  {
    hide AllFit, Serial, Plan, ApplyAll, ListingsOk, ResultOf, Fits;
  }

  /** Whatever the interleaving, the failures and the crashes: the calls have the effect
      and the results of some serial order, the one in which they got the mutex, and the
      call in progress is partway through its own writes. */
  lemma {:induction false} Serializable(env: Env, run: seq<State>, i: nat)
    requires Behaviour(env, run) && i < |run|
    ensures Inv(env, run[i], run[0].world)
  {
    hide Next, Inv;
    if i == 0 {
      InitInv(env, run[0]);
    } else {
      Serializable(env, run, i - 1);
      assert Next(env, run[i - 1], run[i - 1 + 1]);
      NextKeeps(env, run[i - 1], run[i], run[0].world);
    }
  }

  lemma InitInv(env: Env, s: State)
    requires Init(s)
    ensures Inv(env, s, s.world)
  {
    hide Fits;
    assert s.past == [];
    assert Serial(env, s.past, s.world) == s.world;
    assert AllFit(env, s.past, s.world);
    assert forall t :: t in s.threads ==> s.threads[t].Idle?;
    assert s.mutex == None;
  }

  // ---- what holds in every state

  lemma EffectKeepsInv(env: Env, d: Done, w: World)
    requires DbInv(w.db) && Fits(env, d, w)
    ensures DbInv(Effect(env, d, w).db)
  {
    hide DbInv, Plan, ApplyAll, ListingsOk, ResultOf;
    if Plan(env, d.call, d.sweep, w).Some? {
      CallKeepsInv(env, d.call, d.sweep, w, d.steps);
    }
  }

  lemma {:induction false} SerialInv(env: Env, past: seq<Done>, w: World)
    requires DbInv(w.db) && AllFit(env, past, w)
    ensures DbInv(Serial(env, past, w).db)
    decreases |past|
  {
    hide DbInv, Fits, Effect;
    if past != [] {
      var init := past[..|past| - 1];
      InitFits(env, past, w);
      SerialInv(env, init, w);
      assert Fits(env, past[|past| - 1], Serial(env, past[..|past| - 1], w));
      EffectKeepsInv(env, past[|past| - 1], Serial(env, init, w));
    }
  }

  lemma InitFits(env: Env, past: seq<Done>, w: World)
    requires AllFit(env, past, w) && past != []
    ensures AllFit(env, past[..|past| - 1], w)
  {
    var init := past[..|past| - 1];
    hide Fits, Serial;
    forall i | 0 <= i < |init| ensures Fits(env, init[i], Serial(env, init[..i], w)) {
      assert init[..i] == past[..i] && Fits(env, past[i], Serial(env, past[..i], w));
    }
  }

  /** In every reachable state the windows of each concept are disjoint, at most one is
      open, and the epochs are numbered without gaps. */
  lemma TablesAlwaysInOrder(env: Env, run: seq<State>, i: nat)
    requires Behaviour(env, run) && i < |run| && DbInv(run[0].world.db)
    ensures DbInv(run[i].world.db)
  {
    Serializable(env, run, i);
    var s, w := run[i], run[0].world;
    hide DbInv, Plan, ApplyAll, ListingsOk, ResultOf, Next, Serial, AllFit, Init;
    SerialInv(env, s.past, w);
    if s.mutex.Some? {
      var h := s.threads[s.mutex.value];
      CallKeepsInv(env, h.call, h.sweep, Serial(env, s.past, w), h.pc);
    }
  }

  /** The call left no concept half written, or one whose row says what an open version
      says already. */
  ghost predicate Settled(env: Env, d: Done, w: World) {
    match Plan(env, d.call, d.sweep, w)
    case None => true
    case Some(plan) =>
      && d.steps <= |plan|
      && var half := HalfWritten(env, d.call, d.sweep, w, d.steps);
      half.None? || OpenAs(ApplyAll(plan[..d.steps], w).db.facts, half.value.id, half.value.content)
  }

  ghost predicate SettledSince(env: Env, past: seq<Done>, w: World, from: nat) {
    forall i :: from <= i < |past| ==> Settled(env, past[i], Serial(env, past[..i], w))
  }

  /** After the first `from` calls the tables agreed, because they did or because the last of
      them was a complete Reindex, and every call since has left them settled. */
  ghost predicate Repaired(env: Env, past: seq<Done>, w: World, from: nat) {
    && from <= |past|
    && SettledSince(env, past, w, from)
    && (Synced(Serial(env, past[..from], w).db) || (from > 0 && RebuiltBy(env, past[from - 1], Serial(env, past[..from - 1], w))))
  }

  ghost predicate RebuiltBy(env: Env, d: Done, w: World) {
    && d.call.Reindex?
    && Plan(env, d.call, d.sweep, w).Some?
    && d.steps == |Plan(env, d.call, d.sweep, w).value|
  }

  /** From tables in agreement a call, wherever it stopped, keeps the agreement exactly when
      it leaves them settled. */
  lemma EffectAgreesIff(env: Env, d: Done, w: World)
    requires Fits(env, d, w) && Synced(w.db)
    ensures Synced(Effect(env, d, w).db) <==> Settled(env, d, w)
  {
    hide Synced, SyncedBut, Plan, ApplyAll, ListingsOk, ResultOf, OpenAs, HalfWritten, Between, Just;
    if Plan(env, d.call, d.sweep, w).Some? {
      StoppedAgreesIff(env, d.call, d.sweep, w, d.steps);
    }
  }

  lemma RebuildSyncs(env: Env, d: Done, w: World)
    requires RebuiltBy(env, d, w)
    ensures Synced(Effect(env, d, w).db)
  {
    hide Synced, Plan, ApplyAll;
    var plan := Plan(env, d.call, d.sweep, w).value;
    assert plan[..|plan|] == plan;
    ReindexEstablishesSynced(env, d.call.listing, d.sweep, w);
  }

  lemma {:induction false} RepairedIsSynced(env: Env, past: seq<Done>, w: World, from: nat)
    requires AllFit(env, past, w) && Repaired(env, past, w, from)
    ensures Synced(Serial(env, past, w).db)
    decreases |past|
  {
    hide Synced, Fits, Settled, RebuiltBy, Effect;
    if past == [] {
      assert past[..from] == past;
    } else {
      var n := |past|;
      var init := past[..n - 1];
      InitFits(env, past, w);
      assert Fits(env, past[n - 1], Serial(env, past[..n - 1], w));
      if from < n {
        SerialOfPrefixes(env, past, w, from);
        RepairedIsSynced(env, init, w, from);
        assert Settled(env, past[n - 1], Serial(env, past[..n - 1], w));
        EffectAgreesIff(env, past[n - 1], Serial(env, init, w));
      } else {
        assert past[..from] == past;
        if !Synced(Serial(env, past, w).db) {
          RebuildSyncs(env, past[n - 1], Serial(env, init, w));
        }
      }
    }
  }

  lemma SerialOfPrefixes(env: Env, past: seq<Done>, w: World, from: nat)
    requires past != [] && from < |past| && Repaired(env, past, w, from)
    ensures Repaired(env, past[..|past| - 1], w, from)
  {
    var init := past[..|past| - 1];
    hide Synced, Settled, RebuiltBy, Serial;
    assert init[..from] == past[..from];
    assert from > 0 ==> init[..from - 1] == past[..from - 1];
    forall i | from <= i < |init| ensures Settled(env, init[i], Serial(env, init[..i], w)) {
      assert init[..i] == past[..i] && Settled(env, past[i], Serial(env, past[..i], w));
    }
  }

  /** From a complete Reindex on, or from tables in agreement, while calls may fail anywhere as
      long as each leaves the tables settled: with no call in progress the open versions and
      the concept rows agree, and during a call at most one concept is behind. */
  lemma QuietTablesAgree(env: Env, run: seq<State>, i: nat, from: nat)
    requires Behaviour(env, run) && i < |run|
    requires Repaired(env, run[i].past, run[0].world, from)
    ensures run[i].mutex == None ==> Synced(run[i].world.db)
    ensures OneBehind(run[i].world.db)
  {
    Serializable(env, run, i);
    var s, w := run[i], run[0].world;
    hide Synced, OneBehind, Plan, ApplyAll, ListingsOk, ResultOf, Next, Serial, AllFit, Init, Repaired;
    RepairedIsSynced(env, s.past, w, from);
    if s.mutex.Some? {
      var h := s.threads[s.mutex.value];
      CallKeepsSynced(env, h.call, h.sweep, Serial(env, s.past, w), h.pc);
    } else {
      SyncedIsOneBehind(s.world.db);
    }
  }

  // ---- epoch numbers

  /** The call got as far as its new epoch. */
  ghost predicate Cuts(d: Done) {
    match d.call
    case Run(_, _) => d.steps >= 1
    case UpsertBatch(cs, _) => cs != [] && d.steps >= 1
    case Reindex(_) => d.steps >= 2
  }

  ghost function EpochOf(d: Done, w: World): int {
    if d.call.Reindex? then 0 else NextNumber(w.db.epochs)
  }

  /** A write that leaves the epochs that there are. */
  predicate NoEpoch(op: Op) {
    !op.Truncate? && !op.CutEpoch?
  }

  lemma {:induction false} NoEpochKeeps(ops: seq<Op>, w: World)
    requires forall i :: 0 <= i < |ops| ==> NoEpoch(ops[i])
    ensures NextNumber(ApplyAll(ops, w).db.epochs) == NextNumber(w.db.epochs)
    decreases |ops|
  {
    if ops != [] {
      assert NoEpoch(ops[0]);
      StepNoEpoch(ops[0], w);
      hide Apply, NextNumber, NoEpoch;
      NextNumberSame(w.db.epochs, Apply(ops[0], w).db.epochs);
      assert forall i :: 0 <= i < |ops[1..]| ==> ops[1..][i] == ops[i + 1];
      NoEpochKeeps(ops[1..], Apply(ops[0], w));
    }
  }

  lemma StepNoEpoch(op: Op, w: World)
    requires NoEpoch(op)
    ensures Apply(op, w).db.epochs.Keys == w.db.epochs.Keys
  {
    hide Prune, Upsert, CloseOpen, NextNumber;
  }

  lemma {:induction false} BatchNoEpoch(env: Env, cs: seq<Concept>, at: int)
    ensures forall i :: 0 <= i < |BatchOps(env, cs, at)| ==> NoEpoch(BatchOps(env, cs, at)[i])
    decreases |cs|
  {
    if cs != [] {
      BatchNoEpoch(env, cs[1..], at);
      ConceptNoEpoch(env, cs[0], at);
      hide ConceptOps, NoEpoch;
    }
  }

  lemma ConceptNoEpoch(env: Env, c: Concept, at: int)
    ensures forall i :: 0 <= i < |ConceptOps(env, c, at)| ==> NoEpoch(ConceptOps(env, c, at)[i])
  {
    hide TextOf;
    var ops := ConceptOps(env, c, at);
    assert NoEpoch(ops[0]) && NoEpoch(ops[1]) && NoEpoch(ops[2]) && NoEpoch(ops[3]) && NoEpoch(ops[4]);
    forall i | 0 <= i < |ops| ensures NoEpoch(ops[i]) {
      assert i == 0 || i == 1 || i == 2 || i == 3 || i == 4;
    }
  }

  /** After its first write a call has one epoch more, wherever it stops. */
  lemma CutPrefix(env: Env, plan: seq<Op>, cut: Op, rs: seq<Concept>, rest: seq<Op>, w: World, k: nat)
    requires DbInv(w.db) && CutsAndWrites(env, plan, cut, rs, rest, w) && 1 <= k <= |plan|
    ensures NextNumber(ApplyAll(plan[..k], w).db.epochs) == NextNumber(w.db.epochs) + 1
  {
    var batch := BatchOps(env, rs, w.db.clock + 1);
    BatchNoEpoch(env, rs, w.db.clock + 1);
    var tail := (batch + rest)[..k - 1];
    assert forall i :: 0 <= i < |tail| ==> NoEpoch(tail[i]);
    AfterCut(cut, w);
    assert plan[..k] == [cut] + tail;
    assert Writing(Apply(cut, w).db, NextNumber(w.db.epochs), w.db.clock + 1);
    hide BatchOps, NoEpoch, Apply, NextNumber, DbInv;
    ApplyConcat([cut], tail, w);
    ApplyOne(cut, w);
    NoEpochKeeps(tail, Apply(cut, w));
  }

  lemma EffectEpochs(env: Env, d: Done, w: World)
    requires DbInv(w.db) && Fits(env, d, w) && !d.call.Reindex?
    ensures NextNumber(Effect(env, d, w).db.epochs) == NextNumber(w.db.epochs) + if Cuts(d) then 1 else 0
  {
    var plan := Plan(env, d.call, d.sweep, w).value;
    if !Cuts(d) {
      assert plan[..d.steps] == [];
      NoWrites(w);
      hide Plan, ListingsOk, ResultOf, NextNumber, DbInv;
    } else if d.call.Run? {
      var cut, rs, rest := RunComposed(env, d.call.concepts, d.call.source, d.sweep, w);
      hide Plan, CutsAndWrites, NextNumber, DbInv, ListingsOk, ResultOf, ApplyAll;
      CutPrefix(env, plan, cut, rs, rest, w, d.steps);
    } else {
      var cut, rs, rest := UpsertComposed(env, d.call.concepts, d.call.source, d.sweep, w);
      hide Plan, CutsAndWrites, NextNumber, DbInv, ListingsOk, ResultOf, ApplyAll;
      CutPrefix(env, plan, cut, rs, rest, w, d.steps);
    }
  }

  lemma ReindexEpochs(env: Env, d: Done, w: World)
    requires Fits(env, d, w) && d.call.Reindex? && Cuts(d)
    ensures NextNumber(Effect(env, d, w).db.epochs) == 1
  {
    var plan := Plan(env, d.call, d.sweep, w).value;
    var cut, rs, rest := ReindexComposed(env, d.call.listing, d.sweep, w);
    TruncatedInv(w);
    var w0 := Apply(Truncate, w);
    assert NextNumber(w0.db.epochs) == 0;
    assert plan[..d.steps] == [Truncate] + plan[1..][..d.steps - 1];
    hide Plan, CutsAndWrites, NextNumber, DbInv, ListingsOk, ResultOf, Apply, ApplyAll, ReadFiles;
    CutPrefix(env, plan[1..], cut, rs, rest, w0, d.steps - 1);
    ApplyConcat([Truncate], plan[1..][..d.steps - 1], w);
    ApplyOne(Truncate, w);
  }

  /** No Reindex wrote anything from call `i + 1` to call `j`. */
  ghost predicate NoReindexBetween(past: seq<Done>, i: nat, j: nat) {
    forall k :: i < k <= j && k < |past| ==> past[k].call.Reindex? ==> past[k].steps == 0
  }

  lemma {:induction false} NumbersGrow(env: Env, past: seq<Done>, w: World, i: nat, j: nat)
    requires i < j < |past| && DbInv(w.db) && AllFit(env, past, w)
    requires Cuts(past[i]) && NoReindexBetween(past, i, j)
    ensures EpochOf(past[i], Serial(env, past[..i], w)) < NextNumber(Serial(env, past[..j], w).db.epochs)
    decreases j
  {
    hide DbInv, Fits, Effect, NextNumber;
    var k := j - 1;
    SerialAt(env, past, w, k);
    SerialInvAt(env, past, w, k);
    assert Fits(env, past[k], Serial(env, past[..k], w));
    if i == k {
      if past[i].call.Reindex? {
        ReindexEpochs(env, past[k], Serial(env, past[..k], w));
      } else {
        EffectEpochs(env, past[k], Serial(env, past[..k], w));
      }
    } else {
      assert NoReindexBetween(past, i, k);
      NumbersGrow(env, past, w, i, k);
      if past[k].call.Reindex? {
        NothingDone(env, past[k], Serial(env, past[..k], w));
      } else {
        EffectEpochs(env, past[k], Serial(env, past[..k], w));
      }
    }
  }

  lemma NothingDone(env: Env, d: Done, w: World)
    requires d.steps == 0
    ensures Effect(env, d, w) == w
  {
    hide Plan;
    NoWrites(w);
    if Plan(env, d.call, d.sweep, w).Some? {
      assert Plan(env, d.call, d.sweep, w).value[..0] == [];
    }
  }

  lemma SerialAt(env: Env, past: seq<Done>, w: World, k: nat)
    requires k < |past|
    ensures Serial(env, past[..k + 1], w) == Effect(env, past[k], Serial(env, past[..k], w))
  {
    hide Effect;
    assert past[..k + 1][..k] == past[..k];
  }

  lemma SerialInvAt(env: Env, past: seq<Done>, w: World, k: nat)
    requires k <= |past| && DbInv(w.db) && AllFit(env, past, w)
    ensures DbInv(Serial(env, past[..k], w).db)
  {
    hide DbInv, Fits, Serial;
    var part := past[..k];
    forall i | 0 <= i < |part| ensures Fits(env, part[i], Serial(env, part[..i], w)) {
      assert part[..i] == past[..i] && Fits(env, past[i], Serial(env, past[..i], w));
    }
    SerialInv(env, part, w);
  }

  /** Calls that cut an epoch, with no Reindex between them, cut different ones, the
      later call the greater. */
  lemma EpochsDistinct(env: Env, run: seq<State>, s: nat, i: nat, j: nat)
    requires Behaviour(env, run) && s < |run| && DbInv(run[0].world.db)
    requires i < j < |run[s].past| && NoReindexBetween(run[s].past, i, j)
    requires Cuts(run[s].past[i]) && Cuts(run[s].past[j])
    ensures
      var past, w := run[s].past, run[0].world;
      EpochOf(past[i], Serial(env, past[..i], w)) < EpochOf(past[j], Serial(env, past[..j], w))
  {
    Serializable(env, run, s);
    var past, w := run[s].past, run[0].world;
    assert !past[j].call.Reindex?;
    hide DbInv, Next, Serial, AllFit, Init, InProgress, NextNumber;
    NumbersGrow(env, past, w, i, j);
  }

  /** The epoch a completed call reports is the one it cut. */
  lemma ReportedEpoch(env: Env, run: seq<State>, s: nat, i: nat)
    requires Behaviour(env, run) && s < |run| && i < |run[s].past|
    requires run[s].past[i].result.Some?
    ensures
      var past, w := run[s].past, run[0].world;
      && past[i].result.value == ResultOf(past[i].call, Serial(env, past[..i], w))
      && (Cuts(past[i]) ==> past[i].result.value.epoch == EpochOf(past[i], Serial(env, past[..i], w)))
  {
    Serializable(env, run, s);
    var past, w := run[s].past, run[0].world;
    hide DbInv, Next, Serial, Init, InProgress, NextNumber, Plan, ListingsOk, CurrentShas, BatchShas, DiffSets;
    assert Fits(env, past[i], Serial(env, past[..i], w));
  }
}
