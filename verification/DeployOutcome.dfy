/**
  What a deploy run means for the operator: when the flags bite, what a foreign binary can do, what
  `complete` forecloses, and how the finished deploy and the boot gate fit together.
 */
module DeployOutcome {
  import opened Wrappers
  import opened DeployPlan
  import opened DeployDatabase
  import opened DeployApply
  import opened DeployInvariant
  import opened Migrations
  import opened BootGate
  import opened DeployRuns
  import opened DeployResume
  import opened DeployStamps

  // ---------------------------------------------------------------- flags and foreign binaries

  // `--abort` acts exactly on a deploy in flight, and there before any verification; on every other
  // cursor the flag is ignored, so it starts a fresh deploy over an aborted or absent one.
  lemma AbortActsExactlyInFlight(w: World, b: Binary, dryRun: bool)
    requires Inv(w.db)
    ensures InFlight(w.db) && HasSubstrate(b) && w.credit > 1 ==>
      Apply(w, b, Options(dryRun, true)).0.db
        == Prepared(w.db, b).(cursor := Some(w.db.cursor.value.(state := Aborted, stepId := None)))
    ensures !InFlight(w.db) ==> Apply(w, b, Options(dryRun, true)) == Apply(w, b, Options(dryRun, false))
  {
    if InFlight(w.db) {
      InFlightFacts(w.db);
    }
    hide Inv, Find, RunFrom, TranscriptError, StampError, Finalize, PlanOf, MaxVersion;
  }

  // The tables of a database, without the history.
  ghost function Tables(db: Db): Db {
    db.(executed := [], origin := map[])
  }

  // A dry run that nothing interrupts changes the tables exactly when the deploy tables are absent,
  // because it creates them, or when a deploy it can resume is in flight: the flag is read only
  // where a fresh plan is built, so a resume finishes the deploy for real.
  lemma DryRunMutatesExactlyWhen(db: Db, b: Binary, c: nat)
    requires Inv(db) && ValidBinary(b) && HasSubstrate(b) && c >= Remaining(db, b) + 4
    ensures var db' := Apply(World(db, c), b, Options(true, false)).0.db;
      && (Tables(db') != Tables(db) <==> !db.deployTables || (InFlight(db) && Agrees(db, b) && StampsPass(db)))
      && (InFlight(db) && Agrees(db, b) && StampsPass(db) ==> Core(db') == Core(Destination(db, b)))
  {
    hide *;
    ApplyIsDispatch(db, b, Options(true, false), c);
    ApplyIsDispatch(db, b, GO, c);
    PreparedIsTheSame(db, b);
    var e := Prepared(db, b);
    if InFlight(db) {
      DryRunInFlight(World(e, c - 1), b);
      DeployCompletesIff(db, b, c);
      if Agrees(db, b) && StampsPass(db) {
        DestinationIsComplete(db, b);
        CompleteDiffers(db, Destination(db, b), Dispatch(World(e, c - 1), b, GO).0.db);
      } else {
        PreparedTables(db, b);
      }
    } else {
      DryRunNotInFlight(World(e, c - 1), b);
      PreparedTables(db, b);
    }
  }

  lemma DryRunInFlight(w: World, b: Binary)
    requires InFlight(w.db)
    ensures Dispatch(w, b, Options(true, false)) == Dispatch(w, b, GO)
  {
    hide RunFrom, TranscriptError, StampError, Finalize, PlanOf, MaxVersion, LastReceipt;
  }

  lemma DryRunNotInFlight(w: World, b: Binary)
    requires !InFlight(w.db)
    ensures Dispatch(w, b, Options(true, false)).0 == w
  {
    hide RunFrom, TranscriptError, PlanOf, MaxVersion;
  }

  lemma PreparedTables(db: Db, b: Binary)
    requires HasSubstrate(b)
    ensures Tables(Prepared(db, b)) != Tables(db) <==> !db.deployTables
  {
    hide Find;
  }

  lemma DestinationIsComplete(db: Db, b: Binary)
    requires Inv(db) && ValidBinary(b) && InFlight(db)
    ensures Completed(Destination(db, b))
  {
    PlanInFlight(db);
    EndStateIsComplete(db, b, db.plans[db.cursor.value.plan], Committed(db, db.cursor.value.plan));
    hide Inv, EndState, Committed;
  }

  lemma {:induction false} EndStateIsComplete(db: Db, b: Binary, p: Plan, next: nat)
    requires next <= |p.steps|
    ensures Completed(EndState(db, b, p, next))
    decreases |p.steps| - next
  {
    hide StepDone, WithFingerprint, ExpectedFingerprint, LastStepIndex, LastStepId;
    if next < |p.steps| {
      var s := p.steps[next];
      EndStateIsComplete(StepDone(db, p.hash, s, SqlFile(s.id, s.sha), ChainAt(p, next)), b, p, next + 1);
    }
  }

  lemma CompleteDiffers(db: Db, d: Db, e: Db)
    requires InFlight(db) && Completed(d) && Core(d) == Core(e)
    ensures Tables(e) != Tables(db)
  {
    hide Numbered;
    assert e.cursor == Core(e).cursor && d.cursor == Core(d).cursor;
    assert Tables(e).cursor == e.cursor && Tables(db).cursor == db.cursor;
  }

  // A binary whose bytes disagree with any stored step applies nothing but the substrate.
  lemma ForeignBinaryAppliesNothing(w: World, b: Binary, dryRun: bool)
    requires Inv(w.db) && LoadCursor(w.db).Some? && !w.db.cursor.value.state.Aborted?
    requires !TranscriptMatches(b, w.db.plans[w.db.cursor.value.plan].steps)
    ensures var (w', r) := Apply(w, b, Options(dryRun, false));
      r.Halted?
      && if HasSubstrate(b) && w.credit > 0 then w' == World(Prepared(w.db, b), w.credit - 1) && r.error.BinaryMismatch?
         else w' == w
  {
    hide *;
    CursorCases(w.db);
    ForeignFacts(w.db);
    var steps := w.db.plans[w.db.cursor.value.plan].steps;
    TranscriptErrorIff(b, steps);
    TranscriptErrorKind(b, steps);
    if HasSubstrate(b) && w.credit > 0 {
      ApplyIsDispatch(w.db, b, Options(dryRun, false), w.credit);
      PreparedFrame(w.db, b);
      ForeignDispatch(World(Prepared(w.db, b), w.credit - 1), b, Options(dryRun, false));
    } else {
      ApplyIsNothing(w.db, b, Options(dryRun, false), w.credit);
    }
  }

  lemma ForeignFacts(db: Db)
    requires Inv(db) && LoadCursor(db).Some? && !db.cursor.value.state.Aborted?
    ensures !Startable(db) && db.cursor.Some? && db.cursor.value.plan in db.plans
  {
    hide PlansOk, LogsOk, ReceiptsOk, SeenOk, OnceOnly, PendingOk, ProgressOk, OriginOk, FingerprintOk;
  }

  lemma ForeignDispatch(w: World, b: Binary, o: Options)
    requires !Startable(w.db) && w.db.cursor.Some? && w.db.cursor.value.plan in w.db.plans && !o.abort
    requires TranscriptError(b, w.db.plans[w.db.cursor.value.plan].steps).Some?
    ensures Dispatch(w, b, o) == (w, Halted(TranscriptError(b, w.db.plans[w.db.cursor.value.plan].steps).value))
  {
    hide RunFrom, Finalize, StampError, TranscriptError, PlanOf, LastReceipt, MaxVersion;
  }

  lemma {:induction false} TranscriptErrorKind(b: Binary, steps: seq<Step>)
    ensures TranscriptError(b, steps).Some? ==> TranscriptError(b, steps).value.BinaryMismatch?
    decreases |steps|
  {
    if steps != [] {
      TranscriptErrorKind(b, steps[1..]);
    }
  }

  // ---------------------------------------------------------------- what the stamp checks miss

  ghost function Tampered(db: Db, s: Step, stamp: string): Db {
    if s.role.Runtime? then db.(migrations := db.migrations[s.id.version := stamp])
    else db.(bundles := db.bundles[s.id.version := stamp])
  }

  // At `finalizing` the stamp check counts one step too few: whatever the last step's stamp says,
  // every deploy, by any binary with any flags, reports what it would have reported, although that
  // step is committed.
  lemma FinalizingIgnoresLastStamp(db: Db, p: Plan, stamp: string, b: Binary, o: Options, c: nat)
    requires WellFormedPlan(p) && p.steps != [] && p.hash in db.plans && db.plans[p.hash] == p
    requires db.cursor.Some? && db.cursor.value.plan == p.hash
    requires db.cursor.value.state.Finalizing? && db.cursor.value.stepIndex == LastStepIndex(p)
    ensures var db' := Tampered(db, p.steps[|p.steps| - 1], stamp);
      Apply(World(db', c), b, o).1 == Apply(World(db, c), b, o).1
  {
    hide *;
    var db' := Tampered(db, p.steps[|p.steps| - 1], stamp);
    if HasSubstrate(b) && c > 0 {
      ApplyIsDispatch(db, b, o, c);
      ApplyIsDispatch(db', b, o, c);
      TamperedPrepared(db, p.steps[|p.steps| - 1], stamp, b);
      PreparedFrame(db, b);
      DispatchIgnoresLastStamp(Prepared(db, b), p, stamp, b, o, c - 1);
    } else {
      ApplyHaltsAlike(db, db', b, o, c);
    }
  }

  lemma TamperedPrepared(db: Db, s: Step, stamp: string, b: Binary)
    requires HasSubstrate(b)
    ensures Prepared(Tampered(db, s, stamp), b) == Tampered(Prepared(db, b), s, stamp)
  {
    hide SubstrateFile;
    match s.role {
      case Runtime =>
      case Owner =>
    }
  }

  lemma ApplyHaltsAlike(db: Db, db': Db, b: Binary, o: Options, c: nat)
    requires !(HasSubstrate(b) && c > 0)
    ensures Apply(World(db', c), b, o).1 == Apply(World(db, c), b, o).1
  {
    hide Dispatch, HasSubstrate;
  }

  lemma DispatchIgnoresLastStamp(db: Db, p: Plan, stamp: string, b: Binary, o: Options, c: nat)
    requires WellFormedPlan(p) && p.steps != [] && p.hash in db.plans && db.plans[p.hash] == p
    requires db.cursor.Some? && db.cursor.value.plan == p.hash
    requires db.cursor.value.state.Finalizing? && db.cursor.value.stepIndex == LastStepIndex(p)
    ensures var db' := Tampered(db, p.steps[|p.steps| - 1], stamp);
      Dispatch(World(db', c), b, o).1 == Dispatch(World(db, c), b, o).1
  {
    var db' := Tampered(db, p.steps[|p.steps| - 1], stamp);
    hide *;
    UncountedStamp(db, p, stamp);
    TamperedFields(db, p.steps[|p.steps| - 1], stamp);
    FinalizeVerdict(World(db, c), World(db', c), b, p);
    SameVerdict(db, db', b, p, o, c);
  }

  lemma TamperedFields(db: Db, s: Step, stamp: string)
    ensures var e := Tampered(db, s, stamp); e.cursor == db.cursor && e.plans == db.plans && e.schemaState == db.schemaState
  {
  }

  lemma SameVerdict(db: Db, db': Db, b: Binary, p: Plan, o: Options, c: nat)
    requires db.cursor.Some? && db.cursor.value.state.Finalizing? && db'.cursor == db.cursor && db'.plans == db.plans
    requires db.cursor.value.plan in db.plans && db.plans[db.cursor.value.plan] == p
    requires StampError(db', p.steps, CommittedThrough(db.cursor.value)) == StampError(db, p.steps, CommittedThrough(db.cursor.value))
    requires Finalize(World(db, c), b, p).1 == Finalize(World(db', c), b, p).1
    ensures Dispatch(World(db', c), b, o).1 == Dispatch(World(db, c), b, o).1
  {
    hide StampError, TranscriptError, Finalize, RunFrom, PlanOf;
  }

  // The verdict of a finalizer depends on the credit and on whether schema_state exists.
  lemma FinalizeVerdict(w: World, w': World, b: Binary, p: Plan)
    requires w.credit == w'.credit && w.db.schemaState == w'.db.schemaState
    ensures Finalize(w, b, p).1 == Finalize(w', b, p).1
  {
    hide TranscriptError, ExpectedFingerprint, LastStepIndex, LastStepId;
  }

  lemma UncountedStamp(db: Db, p: Plan, stamp: string)
    requires WellFormedPlan(p) && p.steps != [] && db.cursor.Some?
    requires db.cursor.value.state.Finalizing? && db.cursor.value.stepIndex == LastStepIndex(p)
    ensures var db' := Tampered(db, p.steps[|p.steps| - 1], stamp);
      StampError(db', p.steps, CommittedThrough(db.cursor.value)) == StampError(db, p.steps, CommittedThrough(db.cursor.value))
  {
    hide *;
    var n := |p.steps|;
    var db' := Tampered(db, p.steps[n - 1], stamp);
    forall i | 0 <= i < n && p.steps[i].index < CommittedThrough(db.cursor.value)
      ensures StampOf(db, p.steps[i]) == StampOf(db', p.steps[i])
    {
      UncountedStampAt(db, p, stamp, i);
    }
    SameStampError(db, db', p.steps, CommittedThrough(db.cursor.value));
  }

  lemma UncountedStampAt(db: Db, p: Plan, stamp: string, i: nat)
    requires WellFormedPlan(p) && i < |p.steps| && db.cursor.Some?
    requires db.cursor.value.state.Finalizing? && db.cursor.value.stepIndex == LastStepIndex(p)
    requires p.steps[i].index < CommittedThrough(db.cursor.value)
    ensures StampOf(db, p.steps[i]) == StampOf(Tampered(db, p.steps[|p.steps| - 1], stamp), p.steps[i])
  {
    var n := |p.steps|;
    assert p.steps[i].index == i && p.steps[n - 1].index == n - 1;
    if p.steps[i].role == p.steps[n - 1].role {
      StepsAreDistinct(p, i, n - 1);
    }
    hide WellFormedPlan;
  }

  // The same tampering one transaction earlier is caught.
  lemma {:induction false} StepCommittedChecksEveryStamp(db: Db, steps: seq<Step>, through: nat, i: nat)
    requires i < |steps| && steps[i].index < through
    requires StampOf(db, steps[i]) != steps[i].sha
    ensures StampError(db, steps, through).Some?
    decreases i
  {
    if i > 0 {
      StepCommittedChecksEveryStamp(db, steps[1..], through, i - 1);
    }
  }

  // ---------------------------------------------------------------- complete is final

  lemma CompleteIsAbsorbing(w: World, b: Binary, o: Options)
    requires Completed(w.db)
    ensures Core(Apply(w, b, o).0.db) == Core(w.db) && Completed(Apply(w, b, o).0.db)
  {
    hide Core, Numbered, Find, TranscriptError;
    if HasSubstrate(b) && w.credit > 0 {
      PreparedFrame(w.db, b);
      DispatchOfCompleted(World(Prepared(w.db, b), w.credit - 1), b, o);
    }
  }

  // Over complete every process, deploy or boot, leaves all but the substrate executions alone.
  lemma AfterKeepsComplete(db: Db, e: Event)
    requires Inv(db) && Completed(db) && ValidEvent(db, e)
    ensures Core(After(db, e)) == Core(db) && Completed(After(db, e))
  {
    TrueReadIsRead(db, e);
    hide Inv, Apply, Boot, ValidBinary, Core, ReadsTrue;
    match e.(readFails := false) {
      case Deploy(b, o, credit, _) => CompleteIsAbsorbing(World(db, credit), b, o);
      case Start(b, decoupled, refuseDrift, credit, _) => BootStays(db, b, decoupled, refuseDrift, credit, db.cursor.value.plan);
    }
  }

  lemma {:induction false} RunKeepsComplete(db: Db, events: seq<Event>)
    requires Inv(db) && Completed(db) && ValidEvents(db, events)
    ensures Inv(Run(db, events)) && Core(Run(db, events)) == Core(db) && Completed(Run(db, events))
    decreases |events|
  {
    hide Inv, Core, After, Completed, ValidEvent;
    if events != [] {
      RunKeepsComplete(db, events[..|events| - 1]);
      AfterKeepsInv(Run(db, events[..|events| - 1]), events[|events| - 1]);
      AfterKeepsComplete(Run(db, events[..|events| - 1]), events[|events| - 1]);
    }
  }

  // Plans and boot decisions do not see the substrate executions.
  lemma PlannedByCore(db: Db, e: Db, b: Binary, decoupled: bool)
    requires Core(db) == Core(e)
    ensures FreshPlan(db, b) == FreshPlan(e, b) && Activation(db, b, decoupled) == Activation(e, b, decoupled)
  {
    hide Numbered, PlanOf, MaxVersion, ExpectedFingerprint;
    assert e == Core(e).(executed := e.executed, deployTables := e.deployTables);
    assert db == Core(db).(executed := db.executed, deployTables := db.deployTables);
  }

  ghost predicate PendingWork(db: Db, b: Binary) {
    || (exists f :: f in b.migrations && f.name.version > db.substrate)
    || (exists f :: f in b.bundles && f.name.version > MaxVersion(db.bundles.Keys))
  }

  // Re-running deploy over a `complete` cursor reports success whenever the stored bytes still
  // match; it leaves work unapplied exactly when the binary embeds a file above a watermark, and no
  // run of deploys and boots, by any binaries, ever applies it.
  lemma {:induction false} CompleteRerunLeavesPendingWork(db: Db, b: Binary, o: Options, c: nat, events: seq<Event>)
    requires Inv(db) && ValidEvents(db, events) && ValidBinary(b) && HasSubstrate(b) && c > 0
    requires Completed(db) && db.cursor.value.plan in db.plans
    requires TranscriptMatches(b, db.plans[db.cursor.value.plan].steps)
    ensures Apply(World(db, c), b, o).1.Deployed? && Apply(World(db, c), b, o).1.state == ReportedComplete
    ensures FreshPlan(Run(db, events), b).steps != [] <==> PendingWork(db, b)
  {
    hide *;
    RunKeepsComplete(db, events);
    PlannedByCore(Run(db, events), db, b, true);
    FreshPlanEmptyIff(db, b);
    RerunReportsComplete(db, b, o, c);
  }

  lemma RerunReportsComplete(db: Db, b: Binary, o: Options, c: nat)
    requires HasSubstrate(b) && c > 0 && Completed(db) && db.cursor.value.plan in db.plans
    requires TranscriptMatches(b, db.plans[db.cursor.value.plan].steps)
    ensures Apply(World(db, c), b, o).1.Deployed? && Apply(World(db, c), b, o).1.state == ReportedComplete
  {
    TranscriptErrorIff(b, db.plans[db.cursor.value.plan].steps);
    hide TranscriptError, TranscriptMatches, Find, RunFrom, Finalize, StampError, PlanOf;
  }

  lemma FreshPlanEmptyIff(db: Db, b: Binary)
    requires ValidBinary(b)
    ensures FreshPlan(db, b).steps != [] <==> PendingWork(db, b)
  {
    var bo, br := MaxVersion(db.bundles.Keys), db.substrate;
    var steps := PlanSteps(b, bo, br);
    PlanCoverage(b, bo, br);
    if steps != [] {
      StepHasOrigin(b, bo, br, 0);
      BuiltPlanIsWellFormed(b, bo, br);
    }
  }

  // Every step of a fresh plan is an embedded file of the right set.
  lemma StepHasOrigin(b: Binary, bo: nat, br: nat, i: nat)
    requires ValidBinary(b) && i < |PlanSteps(b, bo, br)|
    ensures var s := PlanSteps(b, bo, br)[i]; SqlFile(s.id, s.sha) in (if s.role.Runtime? then b.migrations else b.bundles)
  {
    var steps := PlanSteps(b, bo, br);
    var owner, runtime := OwnerPending(b.bundles, bo), RuntimePending(b.migrations, br);
    PlanShape(b, bo, br, owner, runtime, steps);
    OwnerPendingCharacterised(b.bundles, bo);
    RuntimePendingCharacterised(b.migrations, br);
    RevokeOfCharacterised(b.bundles);
    if i < |owner| {
      assert owner[i] in owner;
    } else if i < |owner| + |runtime| {
      assert runtime[i - |owner|] in runtime;
    }
  }

  // So a binary whose frontier differs from the completed plan's can neither deploy nor serve:
  // after any run of deploys and boots the gate still halts it.
  lemma {:induction false} NewFrontierIsStuck(db: Db, b: Binary, decoupled: bool, events: seq<Event>)
    requires Inv(db) && Completed(db) && ValidEvents(db, events)
    requires !TargetsThisFrontier(db, b, db.cursor.value.plan)
    ensures Activation(Run(db, events), b, decoupled) in {HaltAwaitingDeploy, HaltAwaitingConfig}
  {
    RunKeepsComplete(db, events);
    PlannedByCore(Run(db, events), db, b, decoupled);
    GateServesExactlyWhen(db, b, decoupled);
    hide Core, Run, TargetsThisFrontier, InputsOf, FreshPlan;
  }

  // ---------------------------------------------------------------- the lost revoke

  // The revoke bundle is unapplied although a bundle above it is, and no plan in flight has it.
  ghost predicate RevokeLost(db: Db) {
    && MaxVersion(db.bundles.Keys) >= DDL_REVOKE_VERSION
    && DDL_REVOKE_VERSION !in db.bundles
    && (InFlight(db) ==> db.cursor.value.plan.baseOwner >= DDL_REVOKE_VERSION)
  }

  lemma NoRevokeStep(p: Plan, i: nat)
    requires WellFormedPlan(p) && p.baseOwner >= DDL_REVOKE_VERSION && i < |p.steps|
    ensures p.steps[i].role.Owner? ==> p.steps[i].id.version > DDL_REVOKE_VERSION
  {
  }

  lemma {:induction false} RunFromKeepsLost(w: World, b: Binary, p: Plan, next: nat, prev: Digest, applied: seq<nat>, resumed: bool)
    requires WellFormedPlan(p) && p.baseOwner >= DDL_REVOKE_VERSION && next <= |p.steps|
    requires TranscriptMatches(b, p.steps) && RevokeLost(w.db)
    requires InFlight(w.db) && w.db.cursor.value.plan == p.hash
    ensures RevokeLost(RunFrom(w, b, p, next, prev, applied, resumed).0.db)
    decreases |p.steps| - next
  {
    hide WellFormedPlan, StepDone, Finalize, RevokeLost;
    if next == |p.steps| {
      FinalizeKeepsLost(w, b, p);
    } else {
      ResolvedName(b, p.steps[next]);
      if w.credit > 0 {
        var s := p.steps[next];
        var file := Resolve(b, s.role, s.id).value;
        StepKeepsLost(w.db, p, next, file, prev);
        RunFromKeepsLost(World(StepDone(w.db, p.hash, s, file, prev), w.credit - 1), b, p, next + 1, LinkOf(prev, p.hash, s),
                         applied + [s.index], resumed);
      }
    }
  }

  lemma FinalizeKeepsLost(w: World, b: Binary, p: Plan)
    requires RevokeLost(w.db) && WellFormedPlan(p) && p.baseOwner >= DDL_REVOKE_VERSION
    ensures RevokeLost(Finalize(w, b, p).0.db)
  {
    hide WellFormedPlan;
    HashFields(p);
  }

  lemma StepKeepsLost(db: Db, p: Plan, k: nat, file: SqlFile, prev: Digest)
    requires WellFormedPlan(p) && p.baseOwner >= DDL_REVOKE_VERSION && k < |p.steps|
    requires RevokeLost(db) && InFlight(db) && db.cursor.value.plan == p.hash && file.name == p.steps[k].id
    ensures var db' := StepDone(db, p.hash, p.steps[k], file, prev);
      RevokeLost(db') && InFlight(db') && db'.cursor.value.plan == p.hash
  {
    hide WellFormedPlan;
    HashFields(p);
    NoRevokeStep(p, k);
    if p.steps[k].role.Owner? {
      MaxOfInsert(db.bundles, p.steps[k].id.version, p.steps[k].sha);
    }
  }

  lemma HashFields(p: Plan)
    requires WellFormedPlan(p)
    ensures p.hash.baseOwner == p.baseOwner && p.hash.baseRuntime == p.baseRuntime
  {
  }

  lemma ApplyKeepsLost(w: World, b: Binary, o: Options)
    requires ValidBinary(b) && Inv(w.db) && RevokeLost(w.db)
    ensures RevokeLost(Apply(w, b, o).0.db)
  {
    hide *;
    if HasSubstrate(b) && w.credit > 0 {
      ApplyIsDispatch(w.db, b, o, w.credit);
      SubstrateKept(w.db, b);
      PreparedKeepsLost(w.db, b);
      DispatchKeepsLost(World(Prepared(w.db, b), w.credit - 1), b, o);
    } else {
      ApplyIsNothing(w.db, b, o, w.credit);
    }
  }

  lemma PreparedKeepsLost(db: Db, b: Binary)
    requires HasSubstrate(b) && RevokeLost(db)
    ensures RevokeLost(Prepared(db, b))
  {
    hide Find, MaxVersion;
  }

  lemma DispatchKeepsLost(w: World, b: Binary, o: Options)
    requires ValidBinary(b) && Inv(w.db) && RevokeLost(w.db)
    ensures RevokeLost(Dispatch(w, b, o).0.db)
  {
    hide Inv, WellFormedPlan, RunFrom, StampError, TranscriptError;
    if InFlight(w.db) {
      InFlightFacts(w.db);
      var c := LoadCursor(w.db).value;
      var p := w.db.plans[c.plan];
      HashFields(p);
      TranscriptErrorIff(b, p.steps);
      if TranscriptMatches(b, p.steps) && !c.state.Finalizing? {
        RunFromKeepsLost(w, b, p, CommittedThrough(c), LastReceipt(w.db, p.hash, CommittedThrough(c)), [], true);
      }
    } else if LoadCursor(w.db).None? || w.db.cursor.value.state.Aborted? {
      if !o.dryRun && w.credit > 0 {
        var p := FreshPlan(w.db, b);
        BuiltPlanIsWellFormed(b, MaxVersion(w.db.bundles.Keys), w.db.substrate);
        OwnPlanMatches(b, MaxVersion(w.db.bundles.Keys), w.db.substrate);
        RunFromKeepsLost(World(Materialized(w.db, p), w.credit - 1), b, p, 0, NoDigest, [], false);
      }
    }
  }

  lemma BootKeepsLost(w: World, b: Binary, decoupled: bool, refuseDrift: bool)
    requires RevokeLost(w.db)
    ensures RevokeLost(Boot(w, b, decoupled, refuseDrift).0.db)
  {
    hide ApplyPending, Activation;
    PendingKeepsRows(w, b.migrations, w.db.substrate);
  }

  // Abort a revoke-embedding deploy after a bundle above 21 has committed, and the revoke is lost:
  // no later run of deploys and boots, by any binaries, ever applies it.
  lemma {:induction false} LostRevokeStaysLost(db: Db, events: seq<Event>)
    requires Inv(db) && RevokeLost(db) && ValidEvents(db, events)
    ensures Inv(Run(db, events)) && RevokeLost(Run(db, events))
    decreases |events|
  {
    hide Inv, RevokeLost, After, ValidEvent;
    if events != [] {
      LostRevokeStaysLost(db, events[..|events| - 1]);
      AfterKeepsLost(Run(db, events[..|events| - 1]), events[|events| - 1]);
    }
  }

  lemma AfterKeepsLost(db: Db, e: Event)
    requires Inv(db) && RevokeLost(db) && ValidEvent(db, e)
    ensures Inv(After(db, e)) && RevokeLost(After(db, e))
  {
    AfterKeepsInv(db, e);
    TrueReadIsRead(db, e);
    hide Inv, Apply, Boot, ValidBinary, RevokeLost, ReadsTrue;
    match e.(readFails := false) {
      case Deploy(b, o, credit, _) => ApplyKeepsLost(World(db, credit), b, o);
      case Start(b, decoupled, refuseDrift, credit, _) => BootKeepsLost(World(db, credit), b, decoupled, refuseDrift);
    }
  }

  // It happens to every binary that embeds the revoke together with a bundle above it: let the
  // deploy die once its ordinary bundles have committed, abort it, and the revoke is lost.
  lemma AbortLosesRevoke(db: Db, b: Binary, f: SqlFile)
    requires Inv(db) && ValidBinary(b) && HasSubstrate(b) && RevokeEmbedded(b)
    requires f in b.bundles && f.name.version > DDL_REVOKE_VERSION
    requires MaxVersion(db.bundles.Keys) < DDL_REVOKE_VERSION && Startable(db)
    ensures var n := |OwnerPending(b.bundles, MaxVersion(db.bundles.Keys))|;
      RevokeLost(After(After(db, Deploy(b, GO, n + 2)), Deploy(b, Options(false, true), 2)))
  {
    var n := |OwnerPending(b.bundles, MaxVersion(db.bundles.Keys))|;
    OwnerStepsFit(db, b);
    RevokeIsPlannedLast(b, MaxVersion(db.bundles.Keys), db.substrate);
    hide Inv, Apply, PlanSteps, WellFormedPlan, RevokeLost, Startable, HasSubstrate;
    DeployDiesAfter(db, b, n);
    var s := Apply(World(db, n + 2), b, GO).0.db;
    OwnerPrefixAboveRevoke(s, b, FreshPlan(db, b), n, OwnerPending(b.bundles, MaxVersion(db.bundles.Keys)), f);
    AbortFreezesRevoke(s, b);
  }

  lemma OwnerStepsFit(db: Db, b: Binary)
    ensures |OwnerPending(b.bundles, MaxVersion(db.bundles.Keys))| <= |FreshPlan(db, b).steps|
  {
  }

  lemma AbortFreezesRevoke(s: Db, b: Binary)
    requires Inv(s) && InFlight(s) && HasSubstrate(b)
    requires MaxVersion(s.bundles.Keys) >= DDL_REVOKE_VERSION && DDL_REVOKE_VERSION !in s.bundles
    ensures RevokeLost(Apply(World(s, 2), b, Options(false, true)).0.db)
  {
    AbortActsExactlyInFlight(World(s, 2), b, false);
    hide Inv, Apply, Find, MaxVersion;
  }

  // An abort loses the revoke exactly when a bundle above it is committed and the revoke is not.
  lemma AbortLosesRevokeIff(s: Db, b: Binary, dryRun: bool, c: nat)
    requires Inv(s) && InFlight(s) && HasSubstrate(b) && c > 1
    ensures RevokeLost(Apply(World(s, c), b, Options(dryRun, true)).0.db) <==>
            (exists v :: v in s.bundles && v > DDL_REVOKE_VERSION) && DDL_REVOKE_VERSION !in s.bundles
  {
    AbortActsExactlyInFlight(World(s, c), b, dryRun);
    if DDL_REVOKE_VERSION !in s.bundles {
      AboveIffMax(s.bundles);
    }
    hide Inv, Apply, Find, MaxVersion;
  }

  lemma AboveIffMax(bundles: map<nat, string>)
    requires DDL_REVOKE_VERSION !in bundles
    ensures (exists v :: v in bundles && v > DDL_REVOKE_VERSION) <==> MaxVersion(bundles.Keys) >= DDL_REVOKE_VERSION
  {
    var max := MaxVersion(bundles.Keys);
    if max >= DDL_REVOKE_VERSION {
      assert max in bundles.Keys;
    }
  }

  lemma RevokeIsPlannedLast(b: Binary, bo: nat, br: nat)
    requires ValidBinary(b) && RevokeEmbedded(b) && bo < DDL_REVOKE_VERSION
    ensures RevokePlanned(b, bo)
  {
    var i :| 0 <= i < |b.bundles| && b.bundles[i].name.version == DDL_REVOKE_VERSION;
    assert b.bundles[i] in b.bundles;
    RevokeOfCharacterised(b.bundles);
  }

  // With the ordinary bundles committed and the revoke step still ahead, the MAX watermark has
  // passed the revoke.
  lemma OwnerPrefixAboveRevoke(s: Db, b: Binary, p: Plan, n: nat, owner: seq<SqlFile>, f: SqlFile)
    requires ValidBinary(b) && At(s, p, n) && p == PlanOf(b, p.baseOwner, p.baseRuntime)
    requires owner == OwnerPending(b.bundles, p.baseOwner) && n == |owner| && RevokePlanned(b, p.baseOwner)
    requires f in b.bundles && f.name.version > DDL_REVOKE_VERSION
    ensures MaxVersion(s.bundles.Keys) >= DDL_REVOKE_VERSION && DDL_REVOKE_VERSION !in s.bundles
  {
    hide PlanSteps, ReceiptsOk, OnceOnly, ProgressOk;
    var runtime := RuntimePending(b.migrations, p.baseRuntime);
    PlanShape(b, p.baseOwner, p.baseRuntime, owner, runtime, p.steps);
    OwnerPendingCharacterised(b.bundles, p.baseOwner);
    RevokeOfCharacterised(b.bundles);
    assert f in owner;
    var i :| 0 <= i < n && owner[i] == f;
    assert p.steps[i] == Step(i, f.name, Owner, f.sha);
    assert PlanLog(s.executed, p.hash)[i] == ExecutionOf(p, i);
    PlanLogIsPart(s.executed, p.hash, i);
    assert f.name.version in s.bundles.Keys;
    assert InFlight(s) && Ahead(s, p.steps[|p.steps| - 1]);
  }

  // ---------------------------------------------------------------- where a deploy ends

  // The end of a plan: the invariant, every step committed, the complete cursor and the fingerprint.
  ghost predicate EndsIn(e: Db, plans: map<PlanHash, Plan>, b: Binary, p: Plan) {
    && Inv(e) && e.plans == plans && Committed(e, p.hash) == |p.steps|
    && e.cursor == Some(CursorRow(p.hash, Complete, LastStepIndex(p), LastStepId(p)))
    && (e.schemaState == NoTable || e.schemaState == Recorded(ExpectedFingerprint(b)))
  }

  ghost predicate NoTableStep(p: Plan, next: nat) {
    forall i :: next <= i < |p.steps| && p.steps[i].role.Runtime? ==> p.steps[i].id.version != SCHEMA_STATE_MIGRATION
  }

  lemma {:induction false} EndStateFacts(db: Db, b: Binary, p: Plan, next: nat)
    requires next <= |p.steps| && At(db, p, next) && TranscriptMatches(b, p.steps)
    ensures EndsIn(EndState(db, b, p, next), db.plans, b, p)
    ensures EndState(db, b, p, next).schemaState == NoTable <==> db.schemaState == NoTable && NoTableStep(p, next)
    decreases |p.steps| - next
  {
    hide *;
    NoTableStepUnfolds(p, next);
    if next == |p.steps| {
      EndOfNoSteps(db, b, p);
    } else {
      var s := p.steps[next];
      var file := SqlFile(s.id, s.sha);
      EndStateUnfolds(db, b, p, next);
      StepFields(db, p.hash, s, file, ChainAt(p, next));
      StepKeepsInv(db, p, next, file);
      EndStateFacts(StepDone(db, p.hash, s, file, ChainAt(p, next)), b, p, next + 1);
    }
  }

  lemma NoTableStepUnfolds(p: Plan, next: nat)
    requires next <= |p.steps|
    ensures NoTableStep(p, next) <==>
      next == |p.steps| || (NoTableStep(p, next + 1) && !CreatesSchemaState(p.steps[next]))
  {
  }

  predicate CreatesSchemaState(s: Step) {
    s.role.Runtime? && s.id.version == SCHEMA_STATE_MIGRATION
  }

  lemma EndStateUnfolds(db: Db, b: Binary, p: Plan, next: nat)
    requires next < |p.steps|
    ensures var s := p.steps[next];
      EndState(db, b, p, next) == EndState(StepDone(db, p.hash, s, SqlFile(s.id, s.sha), ChainAt(p, next)), b, p, next + 1)
  {
    hide StepDone, ChainAt, WithFingerprint, WithCursor, ExpectedFingerprint, LastStepIndex, LastStepId;
  }

  lemma StepFields(db: Db, plan: PlanHash, s: Step, file: SqlFile, prev: Digest)
    requires file.name == s.id
    ensures var e := StepDone(db, plan, s, file, prev);
      e.plans == db.plans && (e.schemaState == NoTable <==> db.schemaState == NoTable && !CreatesSchemaState(s))
  {
    hide InsertNew, CreatesTables, LinkOf;
  }

  lemma EndOfNoSteps(db: Db, b: Binary, p: Plan)
    requires At(db, p, |p.steps|) && TranscriptMatches(b, p.steps)
    ensures var e := EndState(db, b, p, |p.steps|); EndsIn(e, db.plans, b, p) && (e.schemaState == NoTable <==> db.schemaState == NoTable)
  {
    hide *;
    var f := WithFingerprint(db, ExpectedFingerprint(b));
    AtIsInv(db, p, |p.steps|);
    FingerprintFields(db, b, p);
    FingerprintKeepsInv(db, ExpectedFingerprint(b));
    FingerprintCovers(db, b, p);
    CompleteKeepsInv(f, p);
    EndStateOfNoSteps(db, b, p);
    AtCompleteIs(db, b, p);
    CursorFields(f, p.hash, Complete, LastStepIndex(p), LastStepId(p));
    MakesEnd(f, db.plans, b, p);
  }

  lemma FingerprintFields(db: Db, b: Binary, p: Plan)
    requires At(db, p, |p.steps|)
    ensures var f := WithFingerprint(db, ExpectedFingerprint(b));
      && f.plans == db.plans && Committed(f, p.hash) == Committed(db, p.hash) == |p.steps| && f.cursor == db.cursor
      && InFlight(f) && db.cursor.Some? && !db.cursor.value.state.Complete?
      && (f.schemaState == NoTable || f.schemaState == Recorded(ExpectedFingerprint(b)))
      && (f.schemaState == NoTable <==> db.schemaState == NoTable)
  {
    hide Inv, PlanLog, ExpectedFingerprint;
  }

  lemma CursorFields(db: Db, h: PlanHash, state: CursorState, i: nat, id: Option<FileName>)
    ensures var e := WithCursor(db, h, state, i, id);
      e.plans == db.plans && e.schemaState == db.schemaState && e.cursor == Some(CursorRow(h, state, i, id))
          && Committed(e, h) == Committed(db, h)
  {
    hide PlanLog;
  }

  lemma MakesEnd(f: Db, plans: map<PlanHash, Plan>, b: Binary, p: Plan)
    requires var e := WithCursor(f, p.hash, Complete, LastStepIndex(p), LastStepId(p));
      Inv(e) && e.plans == plans && Committed(e, p.hash) == |p.steps|
    requires f.schemaState == NoTable || f.schemaState == Recorded(ExpectedFingerprint(b))
    ensures EndsIn(WithCursor(f, p.hash, Complete, LastStepIndex(p), LastStepId(p)), plans, b, p)
  {
    hide Inv, Committed, LastStepIndex, LastStepId, ExpectedFingerprint;
  }

  // The bundles of a finished plan: those there before it, and its owner steps.
  lemma {:induction false} EndStateBundles(db: Db, b: Binary, p: Plan, next: nat, v: nat)
    requires next <= |p.steps|
    ensures v in EndState(db, b, p, next).bundles <==> v in db.bundles || HasOwnerStep(p, next, v)
    decreases |p.steps| - next
  {
    hide *;
    OwnerStepUnfolds(p, next, v);
    if next == |p.steps| {
      EndStateOfNoSteps(db, b, p);
      CompleteKeepsBundles(db, b, p);
    } else {
      var s := p.steps[next];
      var file := SqlFile(s.id, s.sha);
      EndStateUnfolds(db, b, p, next);
      StepBundles(db, p.hash, s, file, ChainAt(p, next), v);
      EndStateBundles(StepDone(db, p.hash, s, file, ChainAt(p, next)), b, p, next + 1, v);
    }
  }

  ghost predicate HasOwnerStep(p: Plan, next: nat, v: nat) {
    exists i :: next <= i < |p.steps| && p.steps[i].role.Owner? && p.steps[i].id.version == v
  }

  lemma OwnerStepUnfolds(p: Plan, next: nat, v: nat)
    requires next <= |p.steps|
    ensures HasOwnerStep(p, next, v) <==>
      next < |p.steps| && (HasOwnerStep(p, next + 1, v) || (p.steps[next].role.Owner? && p.steps[next].id.version == v))
  {
  }

  lemma CompleteKeepsBundles(db: Db, b: Binary, p: Plan)
    ensures AtComplete(db, b, p).bundles == db.bundles
  {
    hide ExpectedFingerprint, LastStepIndex, LastStepId;
  }

  lemma StepBundles(db: Db, plan: PlanHash, s: Step, file: SqlFile, prev: Digest, v: nat)
    requires file.name == s.id
    ensures v in StepDone(db, plan, s, file, prev).bundles <==> v in db.bundles || (s.role.Owner? && s.id.version == v)
  {
    hide AfterDdl, CreatesTables, LinkOf;
  }

  // From a reachable state without a deploy in flight, the completed deploy of a revoke-embedding
  // binary leaves the revoke applied exactly when no bundle at or above it was, or it was itself.
  lemma DeployRevokesIff(db: Db, b: Binary, c: nat)
    requires Inv(db) && ValidBinary(b) && HasSubstrate(b) && Startable(db) && RevokeEmbedded(b) && c >= Remaining(db, b) + 4
    ensures DDL_REVOKE_VERSION in Apply(World(db, c), b, GO).0.db.bundles <==>
            MaxVersion(db.bundles.Keys) < DDL_REVOKE_VERSION || DDL_REVOKE_VERSION in db.bundles
  {
    hide *;
    CursorCases(db);
    PreparedIsTheSame(db, b);
    PreparedPlansTheSame(db, b);
    ApplyIsDispatch(db, b, GO, c);
    var e := Prepared(db, b);
    StartableAgrees(e, b);
    DispatchCompletes(e, b, c - 1);
    EndStateBundles(Materialized(e, FreshPlan(e, b)), b, FreshPlan(e, b), 0, DDL_REVOKE_VERSION);
    SameBundles(e, FreshPlan(e, b));
    RevokeStepIff(db, b);
  }

  lemma SameBundles(db: Db, p: Plan)
    ensures Materialized(db, p).bundles == db.bundles
  {
  }

  lemma RevokeStepIff(db: Db, b: Binary)
    requires ValidBinary(b) && RevokeEmbedded(b)
    ensures HasOwnerStep(FreshPlan(db, b), 0, DDL_REVOKE_VERSION) <==> MaxVersion(db.bundles.Keys) < DDL_REVOKE_VERSION
  {
    var bo := MaxVersion(db.bundles.Keys);
    BuiltPlanIsWellFormed(b, bo, db.substrate);
    if bo < DDL_REVOKE_VERSION {
      var i :| 0 <= i < |b.bundles| && b.bundles[i].name.version == DDL_REVOKE_VERSION;
      OwnerFileIsPlanned(b, bo, db.substrate, b.bundles[i]);
    }
    hide PlanSteps, ValidBinary, MaxVersion;
  }

  // The schema_state table exists once migration 43 has run.
  ghost predicate TableReady(db: Db, b: Binary) {
    !db.schemaState.NoTable? || exists f :: f in b.migrations && f.name.version == SCHEMA_STATE_MIGRATION > db.substrate
  }

  // Where an uninterrupted fresh deploy leaves the cursor, the plan and the fingerprint.
  ghost predicate DeployedAt(e: Db, b: Binary, p: Plan, tableReady: bool) {
    && Inv(e) && p.hash in e.plans && e.plans[p.hash] == p && Committed(e, p.hash) == |p.steps|
    && e.cursor.Some? && e.cursor.value.state.Complete? && e.cursor.value.plan == p.hash
    && e.schemaState == if tableReady then Recorded(ExpectedFingerprint(b)) else NoTable
  }

  lemma FreshDeployEnd(db: Db, b: Binary, c: nat)
    requires Inv(db) && ValidBinary(b) && HasSubstrate(b) && Startable(db) && c >= Remaining(db, b) + 4
    ensures DeployedAt(Apply(World(db, c), b, GO).0.db, b, FreshPlan(db, b), TableReady(db, b))
  {
    hide *;
    CursorCases(db);
    PreparedIsTheSame(db, b);
    PreparedPlansTheSame(db, b);
    SameTableReady(db, Prepared(db, b), b);
    ApplyIsDispatch(db, b, GO, c);
    StartableEnd(Prepared(db, b), b, c - 1);
  }

  lemma FreshPlanIs(db: Db, b: Binary)
    ensures FreshPlan(db, b) == PlanOf(b, MaxVersion(db.bundles.Keys), db.substrate)
  {
  }

  lemma SameTableReady(db: Db, e: Db, b: Binary)
    requires e == db.(executed := e.executed, deployTables := true)
    ensures TableReady(e, b) == TableReady(db, b)
  {
  }

  lemma StartableEnd(db: Db, b: Binary, c: nat)
    requires Inv(db) && ValidBinary(b) && Startable(db) && c >= Remaining(db, b) + 3
    ensures DeployedAt(Dispatch(World(db, c), b, GO).0.db, b, FreshPlan(db, b), TableReady(db, b))
  {
    hide *;
    CursorCases(db);
    StartableAgrees(db, b);
    DispatchCompletes(db, b, c);
    MaterializedStart(db, b);
    EndOfMaterialized(db, b);
  }

  lemma StartableAgrees(db: Db, b: Binary)
    requires Inv(db) && ValidBinary(b) && Startable(db)
    ensures Agrees(db, b) && StampsPass(db)
    ensures Destination(db, b) == EndState(Materialized(db, FreshPlan(db, b)), b, FreshPlan(db, b), 0)
  {
    hide Inv, ValidBinary, EndState, PlanOf, Materialized, TranscriptMatches, MaxVersion;
  }

  lemma EndOfMaterialized(db: Db, b: Binary)
    requires Inv(db) && ValidBinary(b) && Startable(db)
    ensures var p := FreshPlan(db, b); DeployedAt(EndState(Materialized(db, p), b, p, 0), b, p, TableReady(db, b))
  {
    var p := FreshPlan(db, b);
    MaterializedStart(db, b);
    EndStateFacts(Materialized(db, p), b, p, 0);
    TableStepIff(db, b);
    hide Inv, EndState, PlanOf, MaxVersion, TranscriptMatches, Committed, ExpectedFingerprint, Startable, Deploying,
         At, LastStepIndex, LastStepId;
  }

  lemma TableStepIff(db: Db, b: Binary)
    requires ValidBinary(b)
    ensures var steps := FreshPlan(db, b).steps;
      (exists i :: 0 <= i < |steps| && steps[i].role.Runtime? && steps[i].id.version == SCHEMA_STATE_MIGRATION)
      <==> exists f :: f in b.migrations && f.name.version == SCHEMA_STATE_MIGRATION > db.substrate
  {
    var bo, br := MaxVersion(db.bundles.Keys), db.substrate;
    var steps := FreshPlan(db, b).steps;
    BuiltPlanIsWellFormed(b, bo, br);
    PlanCoverage(b, bo, br);
    forall i | 0 <= i < |steps| ensures SqlFile(steps[i].id, steps[i].sha) in (if steps[i].role.Runtime? then b.migrations else b.bundles) {
      StepHasOrigin(b, bo, br, i);
    }
    if f :| f in b.migrations && f.name.version == SCHEMA_STATE_MIGRATION > db.substrate {
      assert Planned(steps, Runtime, f);
    }
  }

  // A finished deploy has carried the owner watermark to the binary's frontier.
  lemma FreshDeployClosesOwnerGap(e: Db, b: Binary, bo: nat, br: nat)
    requires Inv(e) && ValidBinary(b)
    requires var p := PlanOf(b, bo, br); p.hash in e.plans && e.plans[p.hash] == p && Committed(e, p.hash) == |p.steps|
    ensures !OwnerShortfall(e, b)
  {
    hide WellFormedPlan, ReceiptsOk, CursorOk, PendingOk, OnceOnly, PlanSteps, OriginOk, FingerprintOk;
    var p := PlanOf(b, bo, br);
    assert MaxVersion(e.bundles.Keys) >= bo;
    if b.latestOwner > bo {
      var f := b.bundles[|b.bundles| - 1];
      OwnerFileIsPlanned(b, bo, br, f);
      var i :| 0 <= i < |p.steps| && p.steps[i].role == Owner && p.steps[i].id == f.name && p.steps[i].sha == f.sha;
      assert PlanLog(e.executed, p.hash)[i] == ExecutionOf(p, i);
      PlanLogIsPart(e.executed, p.hash, i);
      assert ExecutionOf(p, i) in e.executed;
      assert f.name.version in e.bundles.Keys;
    }
  }

  // The decoupled boot of the binary that has just finished a deploy serves, and writes nothing,
  // exactly when the schema_state table exists; the one other refusal is a database that already
  // carries a revoke this binary does not embed.
  lemma FinishedDeployServes(db: Db, b: Binary, c: nat, refuseDrift: bool, c': nat)
    requires Inv(db) && ValidBinary(b) && HasSubstrate(b) && Startable(db) && c >= Remaining(db, b) + 4
    ensures var e := Apply(World(db, c), b, GO).0.db;
      Boot(World(e, c'), b, true, refuseDrift) == (World(e, c'),
        if !RevokeEmbedded(b) && DDL_REVOKE_VERSION in e.bundles then RevokeAlreadyApplied
        else if TableReady(db, b) then Served(e.substrate)
        else AwaitingDeploy)
  {
    hide *;
    FreshDeployEnd(db, b, c);
    FreshPlanIs(db, b);
    DeployedServes(Apply(World(db, c), b, GO).0.db, b, MaxVersion(db.bundles.Keys), db.substrate, TableReady(db, b), refuseDrift, c');
  }

  lemma DeployedServes(e: Db, b: Binary, bo: nat, br: nat, tableReady: bool, refuseDrift: bool, c: nat)
    requires ValidBinary(b) && DeployedAt(e, b, PlanOf(b, bo, br), tableReady)
    ensures Boot(World(e, c), b, true, refuseDrift) == (World(e, c),
        if !RevokeEmbedded(b) && DDL_REVOKE_VERSION in e.bundles then RevokeAlreadyApplied
        else if tableReady then Served(e.substrate)
        else AwaitingDeploy)
  {
    FreshDeployClosesOwnerGap(e, b, bo, br);
    GateServesExactlyWhen(e, b, true);
    hide Inv, WellFormedPlan, PlanSteps, RevokeEmbedded, OwnerShortfall, ApplyPending, PlanLog, ExpectedFingerprint;
  }

  // Files at or below the watermark are only compared with their recorded hashes.
  lemma {:induction false} CheckedFiles(w: World, files: seq<SqlFile>, current: nat)
    requires forall i :: 0 <= i < |files| ==> files[i].name.version <= current
    ensures (forall i :: 0 <= i < |files| ==> RecordedHashAgrees(w.db.migrations, files[i])) ==>
        ApplyPending(w, files, current) == (w, Ok(current))
    ensures (exists i :: 0 <= i < |files| && !RecordedHashAgrees(w.db.migrations, files[i])) ==>
              var (w', r) := ApplyPending(w, files, current); w' == w && r.Err? && r.error.HashMismatch?
    decreases |files|
  {
    hide RecordedHashAgrees;
    if files != [] {
      assert forall i :: 0 < i < |files| ==> files[i] == files[1..][i - 1];
      CheckedFiles(w, files[1..], current);
    }
  }

  ghost predicate AllAgree(db: Db, b: Binary) {
    forall i :: 0 <= i < |b.migrations| ==> RecordedHashAgrees(db.migrations, b.migrations[i])
  }

  // The legacy boot of the binary that has just finished a deploy compares every embedded migration
  // with its recorded hash; it serves, without changing the database, exactly when all agree and it
  // neither meets a revoke, nor lacks the fingerprint table, nor finds a newer schema.
  lemma FinishedDeployServesLegacyIff(db: Db, b: Binary, c: nat, refuseDrift: bool, c': nat)
    requires Inv(db) && ValidBinary(b) && HasSubstrate(b) && Startable(db) && c >= Remaining(db, b) + 4 && c' > 0
    ensures var e := Apply(World(db, c), b, GO).0.db;
      var (w, r) := Boot(World(e, c'), b, false, refuseDrift);
      var open := !RevokeEmbedded(b) && DDL_REVOKE_VERSION !in e.bundles && TableReady(db, b) && e.substrate <= b.latest && b.preflightOk;
      && w.db == e
      && (r.Served? <==> open && AllAgree(e, b))
      && (r.Served? ==> r.version == e.substrate)
      && (open && !AllAgree(e, b) ==> r.MigrateFailed? && r.error.HashMismatch?)
  {
    hide *;
    FreshDeployEnd(db, b, c);
    FreshPlanIs(db, b);
    DeployedServesLegacy(Apply(World(db, c), b, GO).0.db, b, MaxVersion(db.bundles.Keys), db.substrate, TableReady(db, b), refuseDrift, c');
  }

  lemma DeployedServesLegacy(e: Db, b: Binary, bo: nat, br: nat, tableReady: bool, refuseDrift: bool, c: nat)
    requires ValidBinary(b) && DeployedAt(e, b, PlanOf(b, bo, br), tableReady) && c > 0
    ensures var (w, r) := Boot(World(e, c), b, false, refuseDrift);
      var open := !RevokeEmbedded(b) && DDL_REVOKE_VERSION !in e.bundles && tableReady && e.substrate <= b.latest && b.preflightOk;
      && w.db == e
      && (r.Served? <==> open && AllAgree(e, b))
      && (r.Served? ==> r.version == e.substrate)
      && (open && !AllAgree(e, b) ==> r.MigrateFailed? && r.error.HashMismatch?)
  {
    hide *;
    DeployedGate(e, b, bo, br, tableReady);
    CompleteBootAppliesNothing(e, b, false, refuseDrift, c);
    CompleteReachesTarget(e);
    LatestBoundsMigrations(b);
    CheckedFiles(World(e, c), b.migrations, e.substrate);
    AllAgreeIs(e, b);
    LegacyBootIs(e, b, refuseDrift, c);
  }

  lemma DeployedGate(e: Db, b: Binary, bo: nat, br: nat, tableReady: bool)
    requires ValidBinary(b) && DeployedAt(e, b, PlanOf(b, bo, br), tableReady)
    ensures !OwnerShortfall(e, b)
    ensures Inv(e) && e.cursor.Some? && e.cursor.value.state.Complete? && e.cursor.value.plan in e.plans
    ensures e.plans[e.cursor.value.plan].targetRuntime == b.latest
    ensures e.schemaState == if tableReady then Recorded(ExpectedFingerprint(b)) else NoTable
    ensures Activation(e, b, false) ==
      if RevokeEmbedded(b) then HaltAwaitingConfig else if tableReady then ServeLegacy else HaltAwaitingDeploy
  {
    hide Inv, PlanSteps, Committed, ExpectedFingerprint, RevokeEmbedded, ValidBinary, OwnerShortfall;
    FreshDeployClosesOwnerGap(e, b, bo, br);
  }

  lemma AllAgreeIs(db: Db, b: Binary)
    ensures AllAgree(db, b) <==> forall i :: 0 <= i < |b.migrations| ==> RecordedHashAgrees(db.migrations, b.migrations[i])
  {
  }

  // The legacy boot from its gate on, where the owner bundles are all there.
  lemma LegacyBootIs(e: Db, b: Binary, refuseDrift: bool, c: nat)
    requires !OwnerShortfall(e, b) && c > 0
    ensures var r := Boot(World(e, c), b, false, refuseDrift).1;
      var (w1, m) := ApplyPending(World(e, c), b.migrations, e.substrate);
      if !RevokeEmbedded(b) && DDL_REVOKE_VERSION in e.bundles then r == RevokeAlreadyApplied
      else if !Activation(e, b, false).ServeLegacy? then Activation(e, b, false).ServeVerify? || (!r.Served? && !r.MigrateFailed?)
      else if e.substrate > b.latest || !b.preflightOk then r.MigrateFailed?
      else if m.Err? then r == MigrateFailed(m.error)
      else w1 == World(e, c) && e.schemaState == Recorded(ExpectedFingerprint(b)) ==> r == Served(m.value)
  {
    hide ApplyPending, Activation, OwnerShortfall, RevokeEmbedded, ExpectedFingerprint;
  }

  // ---------------------------------------------------------------- migration 44 runs twice

  // From a base below 44, one uninterrupted deploy executes the body of migration 44 twice: up
  // front, and as a step of its own plan.
  lemma SubstrateRunsTwice(db: Db, b: Binary, c: nat)
    requires Inv(db) && ValidBinary(b) && HasSubstrate(b) && Startable(db) && db.substrate < SUBSTRATE_FILE.version
    requires c >= Remaining(db, b) + 4
    ensures var log := Apply(World(db, c), b, GO).0.db.executed;
      Times(log, Runtime, SUBSTRATE_FILE.version) == Times(db.executed, Runtime, SUBSTRATE_FILE.version) + 2
  {
    hide *;
    var e := Apply(World(db, c), b, GO).0.db;
    FreshDeployEnd(db, b, c);
    OneDeploy(db, b, c);
    RunCountsSubstrate(db, [Deploy(b, GO, c)]);
    OneCall(b, c);
    InvSplitsTimes(db);
    NumberedBelow(db);
    FreshPlanIs(db, b);
    DeployedStepRan(e, b, MaxVersion(db.bundles.Keys), db.substrate, TableReady(db, b));
  }

  lemma OneCall(b: Binary, c: nat)
    requires HasSubstrate(b) && c > 0
    ensures SubstrateCalls([Deploy(b, GO, c)]) == 1
  {
    hide HasSubstrate;
    assert [Deploy(b, GO, c)][..0] == [];
  }

  lemma InvSplitsTimes(db: Db)
    requires Inv(db)
    ensures var v := SUBSTRATE_FILE.version;
      Times(db.executed, Runtime, v) == NumberedTimes(db.executed, Runtime, v) + SubstrateTimes(db.executed)
  {
    TimesSplit(db.executed, Runtime, SUBSTRATE_FILE.version);
    hide LogsOk, ReceiptsOk, CursorOk, PendingOk, OriginOk, FingerprintOk, PlansOk, ProgressOk, Times, NumberedTimes, SubstrateTimes;
  }

  lemma NumberedBelow(db: Db)
    requires Inv(db) && db.substrate < SUBSTRATE_FILE.version
    ensures NumberedTimes(db.executed, Runtime, SUBSTRATE_FILE.version) == 0
  {
    CountedOnce(db.executed, Runtime, SUBSTRATE_FILE.version);
    hide LogsOk, ReceiptsOk, CursorOk, PendingOk, OriginOk, FingerprintOk, PlansOk, ProgressOk, NumberedTimes;
  }

  lemma DeployedStepRan(e: Db, b: Binary, bo: nat, br: nat, tableReady: bool)
    requires ValidBinary(b) && HasSubstrate(b) && br < SUBSTRATE_FILE.version && DeployedAt(e, b, PlanOf(b, bo, br), tableReady)
    ensures var v := SUBSTRATE_FILE.version;
      NumberedTimes(e.executed, Runtime, v) == 1 && Times(e.executed, Runtime, v) == 1 + SubstrateTimes(e.executed)
  {
    var p := PlanOf(b, bo, br);
    var f := SubstrateFile(b).value;
    FindFinds(b.migrations, SUBSTRATE_FILE);
    RuntimeFileIsPlanned(b, bo, br, f);
    hide PlanSteps, Find, ValidBinary, WellFormedPlan, ReceiptsOk, CursorOk, PendingOk, OriginOk, FingerprintOk,
         ProgressOk, NumberedTimes, Times, SubstrateTimes;
    var i :| 0 <= i < |p.steps| && p.steps[i].role == Runtime && p.steps[i].id == f.name && p.steps[i].sha == f.sha;
    assert PlanLog(e.executed, p.hash)[i] == ExecutionOf(p, i);
    PlanLogIsPart(e.executed, p.hash, i);
    assert ExecutionOf(p, i) in e.executed;
    CountedOnce(e.executed, Runtime, SUBSTRATE_FILE.version);
    InvSplitsTimes(e);
  }
}
