/**
  Whole runs: any sequence of deploys and boots, by any mix of valid binaries, with any flags, each
  process dying after any number of transactions. The invariant holds throughout; the exactly-once
  and receipt-chain theorems read it off.
 */
module DeployRuns {
  import opened Wrappers
  import opened DeployPlan
  import opened DeployDatabase
  import opened DeployApply
  import opened DeployInvariant
  import opened Migrations
  import opened BootGate

  // ---------------------------------------------------------------- lookups

  lemma {:induction false} FindFinds(files: seq<SqlFile>, id: FileName)
    ensures Find(files, id).Some? ==> Find(files, id).value in files && Find(files, id).value.name == id
    ensures Find(files, id).None? <==> forall f :: f in files ==> f.name != id
    decreases |files|
  {
    if files != [] {
      FindFinds(files[1..], id);
      assert files == [files[0]] + files[1..];
    }
  }

  lemma FindIsTheFile(files: seq<SqlFile>, f: SqlFile)
    requires Ascending(files) && f in files
    ensures Find(files, f.name) == Some(f)
  {
    FindFinds(files, f.name);
    SameVersionSameFile(files, Find(files, f.name).value, f);
  }

  ghost predicate TranscriptMatches(b: Binary, steps: seq<Step>) {
    forall i :: 0 <= i < |steps| ==> StepMatches(b, steps[i])
  }

  lemma {:induction false} TranscriptErrorIff(b: Binary, steps: seq<Step>)
    ensures TranscriptError(b, steps).None? <==> TranscriptMatches(b, steps)
    decreases |steps|
  {
    if steps != [] {
      TranscriptErrorIff(b, steps[1..]);
      assert forall i :: 0 < i < |steps| ==> steps[i] == steps[1..][i - 1];
      assert TranscriptMatches(b, steps) <==> StepMatches(b, steps[0]) && TranscriptMatches(b, steps[1..]);
    }
  }

  lemma ResolvedName(b: Binary, s: Step)
    requires StepMatches(b, s)
    ensures Resolve(b, s.role, s.id).value.name == s.id && Resolve(b, s.role, s.id).value.sha == s.sha
  {
    FindFinds(b.migrations, s.id);
    FindFinds(b.bundles, s.id);
  }

  lemma OwnStepMatches(b: Binary, s: Step, f: SqlFile)
    requires ValidBinary(b) && s.id == f.name && s.sha == f.sha
    requires f in (if s.role.Runtime? then b.migrations else b.bundles)
    ensures StepMatches(b, s)
  {
    FindIsTheFile(if s.role.Runtime? then b.migrations else b.bundles, f);
  }

  lemma OwnerSegmentMatches(b: Binary, baseOwner: nat, owner: seq<SqlFile>, steps: seq<Step>)
    requires ValidBinary(b) && owner == OwnerPending(b.bundles, baseOwner) && |owner| <= |steps|
    requires forall i :: 0 <= i < |owner| ==> steps[i] == Step(i, owner[i].name, Owner, owner[i].sha)
    ensures forall i :: 0 <= i < |owner| ==> StepMatches(b, steps[i])
  {
    OwnerPendingCharacterised(b.bundles, baseOwner);
    hide OwnerPending, ValidBinary, StepMatches;
    forall i | 0 <= i < |owner| ensures StepMatches(b, steps[i]) {
      assert owner[i] in owner;
      OwnStepMatches(b, steps[i], owner[i]);
    }
  }

  lemma RuntimeSegmentMatches(b: Binary, baseRuntime: nat, n: nat, runtime: seq<SqlFile>, steps: seq<Step>)
    requires ValidBinary(b) && runtime == RuntimePending(b.migrations, baseRuntime) && n + |runtime| <= |steps|
    requires forall i :: n <= i < n + |runtime| ==> steps[i] == Step(i, runtime[i - n].name, Runtime, runtime[i - n].sha)
    ensures forall i :: n <= i < n + |runtime| ==> StepMatches(b, steps[i])
  {
    RuntimePendingCharacterised(b.migrations, baseRuntime);
    hide RuntimePending, ValidBinary, StepMatches;
    forall i | n <= i < n + |runtime| ensures StepMatches(b, steps[i]) {
      assert runtime[i - n] in runtime;
      OwnStepMatches(b, steps[i], runtime[i - n]);
    }
  }

  lemma RevokeMatches(b: Binary, s: Step)
    requires ValidBinary(b) && RevokeOf(b.bundles).Some? && s.role.Owner?
    requires s.id == RevokeOf(b.bundles).value.name && s.sha == RevokeOf(b.bundles).value.sha
    ensures StepMatches(b, s)
  {
    RevokeOfCharacterised(b.bundles);
    OwnStepMatches(b, s, RevokeOf(b.bundles).value);
  }

  // A binary always agrees with the plan it builds.
  lemma OwnPlanMatches(b: Binary, baseOwner: nat, baseRuntime: nat)
    requires ValidBinary(b)
    ensures TranscriptMatches(b, PlanSteps(b, baseOwner, baseRuntime))
  {
    var owner, runtime := OwnerPending(b.bundles, baseOwner), RuntimePending(b.migrations, baseRuntime);
    var steps := PlanSteps(b, baseOwner, baseRuntime);
    PlanShape(b, baseOwner, baseRuntime, owner, runtime, steps);
    OwnerSegmentMatches(b, baseOwner, owner, steps);
    RuntimeSegmentMatches(b, baseRuntime, |owner|, runtime, steps);
    if PlannedRevoke(b, baseOwner).Some? {
      RevokeMatches(b, steps[|owner| + |runtime|]);
    }
    hide PlanSteps, OwnerPending, RuntimePending, RevokeOf, ValidBinary, StepMatches;
  }

  // ---------------------------------------------------------------- one deploy keeps the invariant

  // The fingerprint recorded by a binary that agrees with a plan covers the plan's runtime steps.
  lemma FingerprintCovers(db: Db, b: Binary, p: Plan)
    requires TranscriptMatches(b, p.steps)
    ensures Covers(WithFingerprint(db, ExpectedFingerprint(b)).schemaState, p)
  {
    forall i | 0 <= i < |p.steps| && p.steps[i].role.Runtime?
      ensures SqlFile(p.steps[i].id, p.steps[i].sha) in b.migrations
    {
      assert StepMatches(b, p.steps[i]);
      FindFinds(b.migrations, p.steps[i].id);
    }
  }

  lemma FinalizeKeepsInv(w: World, b: Binary, p: Plan)
    requires Inv(w.db) && p.hash in w.db.plans && w.db.plans[p.hash] == p && Committed(w.db, p.hash) == |p.steps|
    requires InFlight(w.db) && w.db.cursor.value.plan == p.hash
    ensures Inv(Finalize(w, b, p).0.db) && Finalize(w, b, p).0.db.plans == w.db.plans
    ensures Finalize(w, b, p).0.db.executed == w.db.executed
  {
    hide Inv, WellFormedPlan, PlansOk, TranscriptMatches, Covers, ExpectedFingerprint;
    TranscriptErrorIff(b, p.steps);
    if TranscriptError(b, p.steps).None? && w.credit > 0 {
      FinalizingKeepsInv(w.db, p);
      var w1 := WriteCursor(w, p, Finalizing).value;
      FingerprintKeepsInv(w1.db, ExpectedFingerprint(b));
      FingerprintCovers(w1.db, b, p);
      var w2 := RecordFingerprint(w1, ExpectedFingerprint(b));
      if w2.Some? && w2.value.credit > 0 {
        assert w2.value.db == WithFingerprint(w1.db, ExpectedFingerprint(b));
        CompleteKeepsInv(w2.value.db, p);
      }
    }
  }

  lemma {:induction false} RunFromKeepsInv(w: World, b: Binary, p: Plan, next: nat, applied: seq<nat>, resumed: bool)
    requires At(w.db, p, next) && TranscriptMatches(b, p.steps)
    ensures Inv(RunFrom(w, b, p, next, ChainAt(p, next), applied, resumed).0.db)
    decreases |p.steps| - next
  {
    hide Inv, StepDone, Finalize;
    if next == |p.steps| {
      FinalizeKeepsInv(w, b, p);
    } else {
      ResolvedName(b, p.steps[next]);
      if w.credit > 0 {
        var file := Resolve(b, p.steps[next].role, p.steps[next].id).value;
        StepKeepsInv(w.db, p, next, file);
        RunFromKeepsInv(World(StepDone(w.db, p.hash, p.steps[next], file, ChainAt(p, next)), w.credit - 1), b, p, next + 1,
                        applied + [p.steps[next].index], resumed);
      }
    }
  }

  // The stored receipt a resume chains from is the one the prefix determines.
  lemma ResumePoint(db: Db)
    requires Inv(db) && db.cursor.Some? && db.cursor.value.state in {InProgress, StepCommitted}
    ensures var c := db.cursor.value; var p := db.plans[c.plan];
      At(db, p, CommittedThrough(c)) && LastReceipt(db, p.hash, CommittedThrough(c)) == ChainAt(p, CommittedThrough(c))
  {
    var c := db.cursor.value;
    var k := CommittedThrough(c);
    if k > 0 {
      assert (c.plan, k - 1) in db.receipts;
    }
  }

  lemma ApplyKeepsInv(w: World, b: Binary, o: Options)
    requires ValidBinary(b) && Inv(w.db)
    ensures Inv(Apply(w, b, o).0.db)
  {
    hide Inv, Dispatch;
    if HasSubstrate(b) && w.credit > 0 {
      SubstrateKeepsInv(w.db, SubstrateFile(b).value);
      DispatchKeepsInv(World(Prepared(w.db, b), w.credit - 1), b, o);
    }
  }

  lemma DispatchKeepsInv(w: World, b: Binary, o: Options)
    requires ValidBinary(b) && Inv(w.db)
    ensures Inv(Dispatch(w, b, o).0.db)
  {
    if LoadCursor(w.db).None? || w.db.cursor.value.state.Aborted? {
      var p := FreshPlan(w.db, b);
      if !o.dryRun && w.credit > 0 {
        MaterializedIsAtZero(w.db, b);
        OwnPlanMatches(b, MaxVersion(w.db.bundles.Keys), w.db.substrate);
        hide Inv, RunFrom, PlanSteps;
        RunFromKeepsInv(World(Materialized(w.db, p), w.credit - 1), b, p, 0, [], false);
      }
    } else if !w.db.cursor.value.state.Complete? {
      ResumeKeepsInv(w, b, o);
    }
  }

  lemma ResumeKeepsInv(w: World, b: Binary, o: Options)
    requires Inv(w.db) && InFlight(w.db)
    ensures Inv(Dispatch(w, b, o).0.db)
  {
    hide Inv, RunFrom, Finalize, StampError, TranscriptError;
    InFlightFacts(w.db);
    var c := LoadCursor(w.db).value;
    var p := w.db.plans[c.plan];
    if o.abort {
      AbortKeepsInv(w.db, c);
    } else {
      TranscriptErrorIff(b, p.steps);
      if TranscriptMatches(b, p.steps) {
        if c.state.Finalizing? {
          FinalizeKeepsInv(w, b, p);
        } else {
          ResumePoint(w.db);
          RunFromKeepsInv(w, b, p, CommittedThrough(c), [], true);
        }
      }
    }
  }

  // ---------------------------------------------------------------- one boot keeps the invariant

  lemma {:induction false} PlanLogIsPart(log: seq<Executed>, h: PlanHash, i: nat)
    requires i < |PlanLog(log, h)|
    ensures PlanLog(log, h)[i] in log
    decreases |log|
  {
    var front := log[..|log| - 1];
    if i < |PlanLog(front, h)| {
      PlanLogIsPart(front, h, i);
    }
  }

  // A fully executed plan has carried the runtime watermark to its target.
  lemma CompleteReachesTarget(db: Db)
    requires Inv(db) && db.cursor.Some? && db.cursor.value.state.Complete?
    ensures var p := db.plans[db.cursor.value.plan]; db.substrate >= p.targetRuntime
  {
    var p := db.plans[db.cursor.value.plan];
    if p.targetRuntime > p.baseRuntime {
      var i :| 0 <= i < |p.steps| && p.steps[i].role.Runtime? && p.steps[i].id.version == p.targetRuntime;
      assert PlanLog(db.executed, p.hash)[i] == ExecutionOf(p, i);
      PlanLogIsPart(db.executed, p.hash, i);
    }
  }

  // Once a deploy is complete no boot by any binary executes DDL; a legacy serve finds nothing
  // pending and reports the watermark.
  lemma CompleteBootAppliesNothing(db: Db, b: Binary, decoupled: bool, refuseDrift: bool, c: nat)
    requires Inv(db) && ValidBinary(b) && db.cursor.Some? && db.cursor.value.state.Complete?
    ensures var (w, r) := Boot(World(db, c), b, decoupled, refuseDrift);
      && w.db == db
      && (r.Served? ==> r.version == db.substrate)
  {
    hide Inv, WellFormedPlan;
    GateServesExactlyWhen(db, b, decoupled);
    if Activation(db, b, decoupled).ServeLegacy? {
      CompleteReachesTarget(db);
      LatestBoundsMigrations(b);
      NothingPending(World(db, c), b.migrations, db.substrate);
    }
  }

  lemma LatestBoundsMigrations(b: Binary)
    requires ValidBinary(b)
    ensures forall i :: 0 <= i < |b.migrations| ==> b.migrations[i].name.version <= b.latest
  {
  }

  lemma {:induction false} PendingKeepsInv(w: World, files: seq<SqlFile>, current: nat)
    requires Inv(w.db) && LoadCursor(w.db).None? && current == w.db.substrate
    ensures Inv(ApplyPending(w, files, current).0.db) && ApplyPending(w, files, current).0.db.cursor == w.db.cursor
    decreases |files|
  {
    hide Inv;
    if files != [] {
      var m := files[0];
      if m.name.version <= current {
        PendingKeepsInv(w, files[1..], current);
      } else if w.credit > 0 && RecordedHashAgrees(InsertNew(w.db.migrations, m.name.version, m.sha), m) {
        MigrationKeepsInv(w.db, m);
        PendingKeepsInv(World(MigrationDone(w.db, m), w.credit - 1), files[1..], m.name.version);
      }
    }
  }

  lemma BootKeepsInv(w: World, b: Binary, decoupled: bool, refuseDrift: bool)
    requires Inv(w.db) && ValidBinary(b)
    ensures Inv(Boot(w, b, decoupled, refuseDrift).0.db)
  {
    hide Inv, ApplyPending;
    GateServesExactlyWhen(w.db, b, decoupled);
    if w.db.cursor.Some? && w.db.cursor.value.state.Complete? {
      CompleteBootAppliesNothing(w.db, b, decoupled, refuseDrift, w.credit);
    } else if Activation(w.db, b, decoupled).ServeLegacy? {
      PendingKeepsInv(w, b.migrations, w.db.substrate);
      FingerprintKeepsInv(ApplyMigrations(w, b).0.db, ExpectedFingerprint(b));
    }
  }

  // ---------------------------------------------------------------- runs

  // One process: a deploy or a daemon start, allowed `credit` transactions before it dies.
  // `readFails` says that its read of the runtime watermark fails, if it gets that far.
  datatype Event =
    | Deploy(b: Binary, o: Options, credit: nat, readFails: bool := false)
    | Start(b: Binary, decoupled: bool, refuseDrift: bool, credit: nat, readFails: bool := false)

  ghost function After(db: Db, e: Event): Db {
    match e
    case Deploy(b, o, credit, readFails) => Apply(World(db, credit), b, o, readFails).0.db
    case Start(b, decoupled, refuseDrift, credit, readFails) => Boot(World(db, credit), b, decoupled, refuseDrift, readFails).0.db
  }

  ghost function Run(db: Db, events: seq<Event>): Db
    decreases |events|
  {
    if events == [] then db else After(Run(db, events[..|events| - 1]), events[|events| - 1])
  }

  // The processes that plan or migrate from the watermark they read.
  ghost predicate UsesWatermark(db: Db, e: Event) {
    match e
    case Deploy(b, _, credit, _) => HasSubstrate(b) && credit > 0 && Startable(db)
    case Start(b, decoupled, _, _, _) =>
      && !OwnerShortfall(db, b)
      && (RevokeEmbedded(b) || DDL_REVOKE_VERSION !in db.bundles)
      && Activation(db, b, decoupled).ServeLegacy?
  }

  // The read succeeds, or would have found 0.
  ghost predicate ReadsTrue(db: Db, e: Event) {
    e.readFails && UsesWatermark(db, e) ==> db.substrate == 0
  }

  ghost predicate ValidEvent(db: Db, e: Event) {
    ValidBinary(e.b) && ReadsTrue(db, e)
  }

  // Every process runs a valid binary and reads the true watermark.
  ghost predicate ValidEvents(db: Db, events: seq<Event>)
    decreases |events|
  {
    events == []
    || (ValidEvents(db, events[..|events| - 1]) && ValidEvent(Run(db, events[..|events| - 1]), events[|events| - 1]))
  }

  // A process that reads the true watermark does what it would have done without the failure.
  lemma TrueReadIsRead(db: Db, e: Event)
    requires ReadsTrue(db, e)
    ensures After(db, e) == After(db, e.(readFails := false))
  {
    match e {
      case Deploy(b, o, credit, readFails) =>
        if HasSubstrate(b) && credit > 0 {
          TrueReadDispatch(World(Prepared(db, b), credit - 1), b, o, readFails);
        }
        hide Dispatch;
      case Start(b, decoupled, refuseDrift, credit, readFails) =>
        hide Activation, OwnerShortfall, RevokeEmbedded, ApplyPending;
    }
  }

  lemma TrueReadDispatch(w: World, b: Binary, o: Options, readFails: bool)
    requires readFails && Startable(w.db) ==> w.db.substrate == 0
    ensures Dispatch(w, b, o, readFails) == Dispatch(w, b, o)
  {
    hide RunFrom, TranscriptError, StampError, Finalize, PlanOf, MaxVersion, LastReceipt;
  }

  // Before the first deploy: no cursor, empty deploy tables, an empty history. The stamps are
  // arbitrary, above the watermark as well as below it.
  ghost predicate Undeployed(db: Db) {
    && (db.cursor.None? || (db.cursor.value.state.Idle? && db.deployTables))
    && db.plans == map[]
    && db.receipts == map[]
    && db.executed == []
  }

  lemma AfterKeepsInv(db: Db, e: Event)
    requires Inv(db) && ValidEvent(db, e)
    ensures Inv(After(db, e))
  {
    TrueReadIsRead(db, e);
    hide Inv, Apply, Boot, ReadsTrue, ValidBinary;
    match e.(readFails := false) {
      case Deploy(b, o, credit, _) => ApplyKeepsInv(World(db, credit), b, o);
      case Start(b, decoupled, refuseDrift, credit, _) => BootKeepsInv(World(db, credit), b, decoupled, refuseDrift);
    }
  }

  lemma UndeployedIsInv(db: Db)
    requires Undeployed(db)
    ensures Inv(db)
  {
  }

  lemma {:induction false} RunKeepsInv(db: Db, events: seq<Event>)
    requires Undeployed(db) && ValidEvents(db, events)
    ensures Inv(Run(db, events))
    decreases |events|
  {
    UndeployedIsInv(db);
    hide Inv, After, ValidEvent, Undeployed;
    if events != [] {
      RunKeepsInv(db, events[..|events| - 1]);
      AfterKeepsInv(Run(db, events[..|events| - 1]), events[|events| - 1]);
    }
  }

  // ---------------------------------------------------------------- exactly once

  // How often a file's DDL is in the history: in all, and as a plan step or boot migration alone.
  ghost function Times(log: seq<Executed>, role: Role, version: nat): nat {
    if log == [] then 0
    else
      var e := log[|log| - 1];
      Times(log[..|log| - 1], role, version) + if e.role == role && e.version == version then 1 else 0
  }

  ghost function NumberedTimes(log: seq<Executed>, role: Role, version: nat): nat {
    if log == [] then 0
    else
      var e := log[|log| - 1];
      NumberedTimes(log[..|log| - 1], role, version)
      + if !e.via.BySubstrate? && e.role == role && e.version == version then 1 else 0
  }

  ghost function SubstrateTimes(log: seq<Executed>): nat {
    if log == [] then 0
    else SubstrateTimes(log[..|log| - 1]) + if log[|log| - 1].via.BySubstrate? then 1 else 0
  }

  lemma {:induction false} CountedOnce(log: seq<Executed>, role: Role, version: nat)
    requires OnceOnly(log)
    ensures NumberedTimes(log, role, version) <= 1
    ensures NumberedTimes(log, role, version) == 1 <==>
              exists i :: 0 <= i < |log| && !log[i].via.BySubstrate? && log[i].role == role && log[i].version == version
    decreases |log|
  {
    if log != [] {
      var front := log[..|log| - 1];
      CountedOnce(front, role, version);
      assert forall i :: 0 <= i < |front| ==> front[i] == log[i];
    }
  }

  lemma {:induction false} TimesSplit(log: seq<Executed>, role: Role, version: nat)
    requires forall e :: e in log && e.via.BySubstrate? ==> e.role.Runtime? && e.version == SUBSTRATE_FILE.version
    ensures Times(log, role, version) == NumberedTimes(log, role, version)
              + if role.Runtime? && version == SUBSTRATE_FILE.version then SubstrateTimes(log) else 0
    decreases |log|
  {
    if log != [] {
      assert log[|log| - 1] in log;
      TimesSplit(log[..|log| - 1], role, version);
    }
  }

  lemma SubstrateTimesSnoc(log: seq<Executed>, e: Executed)
    ensures SubstrateTimes(log + [e]) == SubstrateTimes(log) + if e.via.BySubstrate? then 1 else 0
  {
    assert (log + [e])[..|log|] == log;
  }

  lemma {:induction false} RunFromKeepsSubstrateTimes(w: World, b: Binary, p: Plan, next: nat, prev: Digest,
          applied: seq<nat>, resumed: bool)
    ensures SubstrateTimes(RunFrom(w, b, p, next, prev, applied, resumed).0.db.executed) == SubstrateTimes(w.db.executed)
    decreases |p.steps| - next
  {
    hide SubstrateTimes, TranscriptError, ExpectedFingerprint, InsertNew, AfterDdl;
    if next < |p.steps| {
      var s := p.steps[next];
      var file := Resolve(b, s.role, s.id);
      if file.Some? && w.credit > 0 {
        SubstrateTimesSnoc(w.db.executed, Executed(ByPlan(p.hash), s.role, file.value.name.version, file.value.sha));
        RunFromKeepsSubstrateTimes(World(StepDone(w.db, p.hash, s, file.value, prev), w.credit - 1), b, p, next + 1,
                                   LinkOf(prev, p.hash, s), applied + [s.index], resumed);
      }
    }
  }

  lemma DispatchKeepsSubstrateTimes(w: World, b: Binary, o: Options, readFails: bool)
    ensures SubstrateTimes(Dispatch(w, b, o, readFails).0.db.executed) == SubstrateTimes(w.db.executed)
  {
    hide SubstrateTimes, RunFrom, StampError, TranscriptError, ExpectedFingerprint, PlanOf;
    forall v: World, p: Plan, next: nat, prev: Digest, resumed: bool
      ensures SubstrateTimes(RunFrom(v, b, p, next, prev, [], resumed).0.db.executed) == SubstrateTimes(v.db.executed)
    {
      RunFromKeepsSubstrateTimes(v, b, p, next, prev, [], resumed);
    }
  }

  lemma {:induction false} PendingKeepsSubstrateTimes(w: World, files: seq<SqlFile>, current: nat)
    ensures SubstrateTimes(ApplyPending(w, files, current).0.db.executed) == SubstrateTimes(w.db.executed)
    decreases |files|
  {
    hide SubstrateTimes;
    if files != [] {
      var m := files[0];
      if m.name.version <= current {
        PendingKeepsSubstrateTimes(w, files[1..], current);
      } else if w.credit > 0 {
        SubstrateTimesSnoc(w.db.executed, Executed(ByBoot, Runtime, m.name.version, m.sha));
        PendingKeepsSubstrateTimes(World(MigrationDone(w.db, m), w.credit - 1), files[1..], m.name.version);
      }
    }
  }

  // The deploys of a run that got as far as executing the body of migration 44.
  ghost function SubstrateCalls(events: seq<Event>): nat
    decreases |events|
  {
    if events == [] then 0
    else
      var e := events[|events| - 1];
      SubstrateCalls(events[..|events| - 1]) + if e.Deploy? && HasSubstrate(e.b) && e.credit > 0 then 1 else 0
  }

  lemma {:induction false} RunCountsSubstrate(db: Db, events: seq<Event>)
    ensures SubstrateTimes(Run(db, events).executed) == SubstrateTimes(db.executed) + SubstrateCalls(events)
    decreases |events|
  {
    hide SubstrateTimes, Dispatch, ApplyPending, Activation, MaxVersion;
    if events != [] {
      var front := events[..|events| - 1];
      RunCountsSubstrate(db, front);
      var s := Run(db, front);
      match events[|events| - 1] {
        case Deploy(b, o, credit, readFails) =>
          if HasSubstrate(b) && credit > 0 {
            SubstrateTimesSnoc(s.executed, Executed(BySubstrate, Runtime, SUBSTRATE_FILE.version, SubstrateFile(b).value.sha));
            DispatchKeepsSubstrateTimes(World(Prepared(s, b), credit - 1), b, o, readFails);
          }
        case Start(b, decoupled, refuseDrift, credit, readFails) =>
          PendingKeepsSubstrateTimes(World(s, credit), b.migrations, ReadVersion(s.substrate, readFails));
      }
    }
  }

  // Exactly once, over every run from any undeployed database in which each process reads the true
  // watermark: every file but migration 44 runs at most once, by a deploy or by a boot. Migration 44
  // runs once for every deploy that gets under way, and at most once more under its number.
  lemma {:induction false} ExactlyOnce(db: Db, events: seq<Event>, role: Role, version: nat)
    requires Undeployed(db) && ValidEvents(db, events)
    ensures var log := Run(db, events).executed;
      && NumberedTimes(log, role, version) <= 1
      && Times(log, role, version) == NumberedTimes(log, role, version)
           + if role.Runtime? && version == SUBSTRATE_FILE.version then SubstrateCalls(events) else 0
  {
    RunKeepsInv(db, events);
    RunCountsSubstrate(db, events);
    hide Run, ReceiptsOk, LogsOk, NumberedTimes, Times, SubstrateTimes, SubstrateCalls;
    assert SubstrateTimes(db.executed) == 0 by {
      NothingYet();
    }
    CountedOnce(Run(db, events).executed, role, version);
    TimesSplit(Run(db, events).executed, role, version);
  }

  lemma NothingYet()
    ensures SubstrateTimes([]) == 0
  {
  }

  // A plan in flight has executed exactly its first committedThrough steps, in order; one that is
  // finalizing or complete has executed all of them.
  lemma {:induction false} PlanRunsItsPrefix(db: Db, events: seq<Event>)
    requires Undeployed(db) && ValidEvents(db, events)
    ensures var s := Run(db, events);
      s.cursor.Some? && !s.cursor.value.state.Idle? ==>
        var c := s.cursor.value;
        && c.plan in s.plans
        && (c.state in {InProgress, StepCommitted} ==>
              CommittedThrough(c) <= |s.plans[c.plan].steps|
              && PlanLog(s.executed, c.plan) == Executions(s.plans[c.plan], CommittedThrough(c)))
        && (c.state in {Finalizing, Complete} ==>
              PlanLog(s.executed, c.plan) == Executions(s.plans[c.plan], |s.plans[c.plan].steps|))
  {
    RunKeepsInv(db, events);
  }

  // The receipt at index i is step i's, chained to the receipt before it.
  ghost predicate ChainedReceipt(db: Db, h: PlanHash, i: nat) {
    && h in db.plans && i < |db.plans[h].steps| && (h, i) in db.receipts
    && var step := db.plans[h].steps[i]; var r := db.receipts[(h, i)];
       && step.index == i
       && r == Receipt(step.id, step.sha, r.prev, LinkOf(r.prev, h, step))
       && (i == 0 ==> r.prev == NoDigest)
       && (i > 0 ==> (h, i - 1) in db.receipts && r.prev == db.receipts[(h, i - 1)].row)
  }

  lemma ReceiptIsChained(db: Db, h: PlanHash, i: nat)
    requires Inv(db) && h in db.plans && i < Committed(db, h)
    ensures ChainedReceipt(db, h, i)
  {
    hide ProgressOk, SeenOk, OnceOnly, CursorOk, PendingOk, OriginOk, FingerprintOk;
    var p := db.plans[h];
    assert (h, i) in db.receipts && db.receipts[(h, i)] == Receipt(p.steps[i].id, p.steps[i].sha, ChainAt(p, i), ChainAt(p, i + 1));
    assert p.steps[i].index == i && ChainAt(p, i + 1) == LinkOf(ChainAt(p, i), h, p.steps[i]);
    if i > 0 {
      assert (h, i - 1) in db.receipts && db.receipts[(h, i - 1)].row == ChainAt(p, i - 1 + 1);
    }
  }

  // Receipts, over every run: for each plan exactly the indices of its executed steps, each
  // chained to the one before it and the first to the empty digest.
  lemma {:induction false} ReceiptChain(db: Db, events: seq<Event>, h: PlanHash, i: nat)
    requires Undeployed(db) && ValidEvents(db, events)
    ensures var s := Run(db, events);
      && ((h, i) in s.receipts <==> h in s.plans && i < |PlanLog(s.executed, h)|)
      && ((h, i) in s.receipts ==> ChainedReceipt(s, h, i))
  {
    RunKeepsInv(db, events);
    var s := Run(db, events);
    if (h, i) in s.receipts {
      ReceiptIsChained(s, h, i);
    }
  }

  // ---------------------------------------------------------------- the deploy tables

  ghost predicate RowsNeedTables(db: Db) {
    !db.deployTables ==> db.cursor.None? && db.plans == map[] && db.receipts == map[]
  }

  lemma {:induction false} PendingKeepsRows(w: World, files: seq<SqlFile>, current: nat)
    ensures var db := ApplyPending(w, files, current).0.db;
      && db.cursor == w.db.cursor && db.plans == w.db.plans && db.receipts == w.db.receipts && db.bundles == w.db.bundles
      && (w.db.deployTables ==> db.deployTables)
    decreases |files|
  {
    if files != [] {
      var m := files[0];
      if m.name.version <= current {
        PendingKeepsRows(w, files[1..], current);
      } else if w.credit > 0 {
        PendingKeepsRows(World(MigrationDone(w.db, m), w.credit - 1), files[1..], m.name.version);
      }
    }
  }

  lemma {:induction false} RunFromKeepsTables(w: World, b: Binary, p: Plan, next: nat, prev: Digest, applied: seq<nat>, resumed: bool)
    requires w.db.deployTables
    ensures RunFrom(w, b, p, next, prev, applied, resumed).0.db.deployTables
    decreases |p.steps| - next
  {
    hide TranscriptError, ExpectedFingerprint, InsertNew, AfterDdl;
    if next < |p.steps| {
      var s := p.steps[next];
      var file := Resolve(b, s.role, s.id);
      if file.Some? && w.credit > 0 {
        RunFromKeepsTables(World(StepDone(w.db, p.hash, s, file.value, prev), w.credit - 1), b, p, next + 1,
                           LinkOf(prev, p.hash, s), applied + [s.index], resumed);
      }
    }
  }

  lemma DispatchKeepsTables(w: World, b: Binary, o: Options, readFails: bool)
    requires w.db.deployTables
    ensures Dispatch(w, b, o, readFails).0.db.deployTables
  {
    hide RunFrom, StampError, TranscriptError, ExpectedFingerprint, PlanOf;
    forall v: World, p: Plan, next: nat, prev: Digest, resumed: bool | v.db.deployTables
      ensures RunFrom(v, b, p, next, prev, [], resumed).0.db.deployTables
    {
      RunFromKeepsTables(v, b, p, next, prev, [], resumed);
    }
  }

  // Over every run a deploy row exists only where its table does: reading the cursor of a database
  // without the tables as "no deploy" loses nothing.
  lemma {:induction false} RunKeepsTables(db: Db, events: seq<Event>)
    requires RowsNeedTables(db)
    ensures RowsNeedTables(Run(db, events))
    decreases |events|
  {
    hide Dispatch, ApplyPending, Activation, MaxVersion;
    if events != [] {
      var front := events[..|events| - 1];
      RunKeepsTables(db, front);
      var s := Run(db, front);
      match events[|events| - 1] {
        case Deploy(b, o, credit, readFails) =>
          if HasSubstrate(b) && credit > 0 {
            DispatchKeepsTables(World(Prepared(s, b), credit - 1), b, o, readFails);
          }
        case Start(b, decoupled, refuseDrift, credit, readFails) =>
          PendingKeepsRows(World(s, credit), b.migrations, ReadVersion(s.substrate, readFails));
      }
    }
  }
}
