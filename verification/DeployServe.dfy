/**
  What a serving boot gate has established. Over runs by any binaries: the completed plan's runtime
  steps are the serving binary's own bytes, and which of its migrations carry their own hash is
  decided by the stamps the plan found when it was materialized.
 */
module DeployServe {
  import opened Wrappers
  import opened DeployPlan
  import opened DeployDatabase
  import opened DeployApply
  import opened DeployInvariant
  import opened Migrations
  import opened BootGate
  import opened DeployRuns
  import opened DeployResume
  import opened DeployStamps
  import opened DeployOutcome
  import opened DeployCoverage

  // ---------------------------------------------------------------- the gate and the stored bytes

  // Every runtime step of the plan is a file the binary embeds.
  ghost predicate OwnSteps(b: Binary, p: Plan) {
    forall i :: 0 <= i < |p.steps| && p.steps[i].role.Runtime? ==> SqlFile(p.steps[i].id, p.steps[i].sha) in b.migrations
  }

  // A planned file found its own stamp or none; any other file found its own stamp.
  ghost predicate OwnWhenMaterialized(origin: map<nat, string>, p: Plan, f: SqlFile) {
    if Planned(p.steps, Runtime, f) then f.name.version in origin ==> origin[f.name.version] == f.sha
    else OwnStamp(origin, f)
  }

  lemma GateChecksTheBytes(db: Db, b: Binary, decoupled: bool)
    requires Inv(db) && Completed(db) && Activation(db, b, decoupled) in {ServeVerify, ServeLegacy}
    ensures db.cursor.value.plan in db.plans && OwnSteps(b, db.plans[db.cursor.value.plan])
    ensures db.plans[db.cursor.value.plan].targetRuntime == b.latest
  {
    GateServesExactlyWhen(db, b, decoupled);
    hide PlansOk, LogsOk, ReceiptsOk, SeenOk, OnceOnly, PendingOk, ProgressOk, OriginOk, Activation;
    var p := db.plans[db.cursor.value.plan];
    assert Covers(db.schemaState, p) && db.schemaState == Recorded(ExpectedFingerprint(b));
  }

  lemma StampOfPlanned(db: Db, f: SqlFile)
    requires Inv(db) && Completed(db) && Planned(db.plans[db.cursor.value.plan].steps, Runtime, f)
    ensures OwnStamp(db.migrations, f) <==> (f.name.version in db.origin ==> db.origin[f.name.version] == f.sha)
  {
    CompleteCount(db);
    var p := db.plans[db.cursor.value.plan];
    assert WellFormedPlan(p);
    StepsAreIndexed(p);
    hide Inv, Committed, WellFormedPlan;
    var i :| 0 <= i < |p.steps| && p.steps[i].role == Runtime && p.steps[i].id == f.name && p.steps[i].sha == f.sha;
    CommittedStamp(db, i);
  }

  // An unplanned file's stamp is the one the plan found: no step could have added it.
  lemma StampOfUnplanned(db: Db, b: Binary, f: SqlFile)
    requires Inv(db) && Completed(db) && ValidBinary(b) && f in b.migrations
    requires var p := db.plans[db.cursor.value.plan]; OwnSteps(b, p) && !Planned(p.steps, Runtime, f)
    ensures OwnStamp(db.migrations, f) <==> OwnStamp(db.origin, f)
  {
    CompleteCount(db);
    var p := db.plans[db.cursor.value.plan];
    var v := f.name.version;
    assert StampsSince(db.origin, db.migrations, p, |p.steps|);
    hide Inv, Committed;
    if v in db.migrations {
      forall i: nat | i < |p.steps| ensures !AddedBy(p.steps[i], v, db.migrations[v]) {
        UnplannedIsNotAdded(b, p, f, i, db.migrations[v]);
      }
    }
  }

  lemma UnplannedIsNotAdded(b: Binary, p: Plan, f: SqlFile, i: nat, sha: string)
    requires ValidBinary(b) && f in b.migrations && OwnSteps(b, p) && !Planned(p.steps, Runtime, f) && i < |p.steps|
    ensures !AddedBy(p.steps[i], f.name.version, sha)
  {
    if p.steps[i].role.Runtime? && p.steps[i].id.version == f.name.version {
      SameVersionSameFile(b.migrations, SqlFile(p.steps[i].id, p.steps[i].sha), f);
    }
  }

  // When the gate serves a binary over a complete cursor, after any run by any binaries, every
  // runtime step of the completed plan is one of its files; and a migration it embeds carries its
  // own hash exactly when it was OwnWhenMaterialized. What the plan does not contain, neither the
  // deploy nor the gate ever compares.
  lemma {:induction false} ServeMeansStamped(base: Db, events: seq<Event>, b: Binary, decoupled: bool)
    requires Undeployed(base) && ValidEvents(base, events) && ValidBinary(b)
    requires Completed(Run(base, events)) && Activation(Run(base, events), b, decoupled) in {ServeVerify, ServeLegacy}
    ensures var s := Run(base, events);
      && s.cursor.value.plan in s.plans
      && var p := s.plans[s.cursor.value.plan];
         && OwnSteps(b, p)
         && (forall f :: f in b.migrations ==> (OwnStamp(s.migrations, f) <==> OwnWhenMaterialized(s.origin, p, f)))
         && ((forall f :: f in b.migrations ==> OwnStamp(s.migrations, f))
             <==> forall f :: f in b.migrations ==> OwnWhenMaterialized(s.origin, p, f))
  {
    RunKeepsInv(base, events);
    var s := Run(base, events);
    GateChecksTheBytes(s, b, decoupled);
    hide Inv, Run, Activation, OwnStamp, OwnSteps, Planned, ValidBinary, Undeployed;
    var p := s.plans[s.cursor.value.plan];
    forall f | f in b.migrations ensures OwnStamp(s.migrations, f) <==> OwnWhenMaterialized(s.origin, p, f) {
      if Planned(p.steps, Runtime, f) {
        StampOfPlanned(s, f);
      } else {
        StampOfUnplanned(s, b, f);
      }
    }
  }

  // ---------------------------------------------------------------- which files a plan contains

  // The repository's own tests pin the runtime sequence to 1, 2, 3, ...
  ghost predicate Sequential(b: Binary) {
    forall i :: 0 <= i < |b.migrations| ==> b.migrations[i].name.version == i + 1
  }

  ghost predicate SequentialEvents(base: Db, events: seq<Event>) {
    ValidEvents(base, events) && forall i :: 0 <= i < |events| ==> Sequential(events[i].b)
  }

  // No version between base and target is missing.
  ghost predicate RuntimeDense(p: Plan) {
    forall v :: p.baseRuntime < v <= p.targetRuntime ==> HasRuntimeStep(p, v)
  }

  ghost predicate HasRuntimeStep(p: Plan, v: nat) {
    exists i :: 0 <= i < |p.steps| && p.steps[i].role.Runtime? && p.steps[i].id.version == v
  }

  ghost predicate DensePlans(db: Db) {
    forall h :: h in db.plans ==> RuntimeDense(db.plans[h])
  }

  lemma FreshPlanIsDense(db: Db, b: Binary)
    requires ValidBinary(b) && Sequential(b)
    ensures RuntimeDense(FreshPlan(db, b))
  {
    hide PlanSteps, MaxVersion;
    var bo, br := MaxVersion(db.bundles.Keys), db.substrate;
    forall v: nat | br < v <= b.latest ensures HasRuntimeStep(FreshPlan(db, b), v) {
      var f := b.migrations[v - 1];
      RuntimeFileIsPlanned(b, bo, br, f);
    }
  }

  // A stored plan is an old one, or the plan the deploy has just built.
  lemma AfterPlans(db: Db, e: Event)
    requires Inv(db) && ValidEvent(db, e)
    ensures forall h :: h in After(db, e).plans ==>
      (h in db.plans && After(db, e).plans[h] == db.plans[h]) || After(db, e).plans[h] == FreshPlan(db, e.b)
  {
    TrueReadIsRead(db, e);
    hide Inv, Apply, Boot, FreshPlan, ReadsTrue;
    match e.(readFails := false) {
      case Deploy(b, o, credit, _) => ApplyPlans(World(db, credit), b, o);
      case Start(b, decoupled, refuseDrift, credit, _) => BootPlans(World(db, credit), b, decoupled, refuseDrift);
    }
  }

  lemma ApplyPlans(w: World, b: Binary, o: Options)
    requires Inv(w.db) && ValidBinary(b)
    ensures var db' := Apply(w, b, o).0.db;
      || db'.plans == w.db.plans
      || db'.plans == InsertNew(w.db.plans, FreshPlan(w.db, b).hash, FreshPlan(w.db, b))
  {
    hide *;
    if HasSubstrate(b) && w.credit > 0 {
      ApplyIsDispatch(w.db, b, o, w.credit);
      SubstrateKept(w.db, b);
      PreparedFrame(w.db, b);
      PreparedPlansTheSame(w.db, b);
      DispatchPlans(World(Prepared(w.db, b), w.credit - 1), b, o);
    } else {
      ApplyIsNothing(w.db, b, o, w.credit);
    }
  }

  lemma DispatchPlans(w: World, b: Binary, o: Options)
    requires Inv(w.db)
    ensures var db' := Dispatch(w, b, o).0.db;
      || db'.plans == w.db.plans
      || db'.plans == InsertNew(w.db.plans, FreshPlan(w.db, b).hash, FreshPlan(w.db, b))
  {
    DispatchContinuesOrStarts(w, b, o);
    hide Inv, Dispatch, FreshPlan, InsertNew, Startable, InFlight, Completed;
  }

  lemma BootPlans(w: World, b: Binary, decoupled: bool, refuseDrift: bool)
    ensures Boot(w, b, decoupled, refuseDrift).0.db.plans == w.db.plans
    ensures Boot(w, b, decoupled, refuseDrift).0.db.cursor == w.db.cursor
  {
    hide ApplyPending, Activation, ExpectedFingerprint, OwnerShortfall, RevokeEmbedded;
    PendingKeepsRows(w, b.migrations, w.db.substrate);
  }

  lemma {:induction false} RunKeepsDense(base: Db, events: seq<Event>)
    requires Undeployed(base) && SequentialEvents(base, events)
    ensures ValidEvents(base, events) && DensePlans(Run(base, events))
    decreases |events|
  {
    if events != [] {
      var front, e := events[..|events| - 1], events[|events| - 1];
      assert SequentialEvents(base, front);
      RunKeepsDense(base, front);
      RunKeepsInv(base, front);
      AfterPlans(Run(base, front), e);
      FreshPlanIsDense(Run(base, front), e.b);
      hide Inv, After, RuntimeDense, FreshPlan, Sequential, ValidBinary;
    }
  }

  // With gap-free numbering the completed plan contains exactly the serving binary's migrations
  // above its base: the others are those at or below the watermark it was materialized at.
  lemma {:induction false} PlannedIffAboveBase(base: Db, events: seq<Event>, b: Binary, decoupled: bool, f: SqlFile)
    requires Undeployed(base) && SequentialEvents(base, events) && ValidBinary(b) && f in b.migrations
    requires Completed(Run(base, events)) && Activation(Run(base, events), b, decoupled) in {ServeVerify, ServeLegacy}
    ensures var s := Run(base, events);
      && s.cursor.value.plan in s.plans
      && var p := s.plans[s.cursor.value.plan]; Planned(p.steps, Runtime, f) <==> f.name.version > p.baseRuntime
  {
    RunKeepsDense(base, events);
    RunKeepsInv(base, events);
    var s := Run(base, events);
    GateChecksTheBytes(s, b, decoupled);
    DensePlanContains(s.plans[s.cursor.value.plan], b, f) by {
      assert WellFormedPlan(s.plans[s.cursor.value.plan]);
    }
  }

  lemma DensePlanContains(p: Plan, b: Binary, f: SqlFile)
    requires WellFormedPlan(p) && RuntimeDense(p) && OwnSteps(b, p) && ValidBinary(b) && p.targetRuntime == b.latest && f in b.migrations
    ensures Planned(p.steps, Runtime, f) <==> f.name.version > p.baseRuntime
  {
    if f.name.version > p.baseRuntime {
      assert HasRuntimeStep(p, f.name.version);
      var i :| 0 <= i < |p.steps| && p.steps[i].role.Runtime? && p.steps[i].id.version == f.name.version;
      SameVersionSameFile(b.migrations, SqlFile(p.steps[i].id, p.steps[i].sha), f);
    }
  }

  // ---------------------------------------------------------------- what the origin is

  // The deploy at position n materialized the cursor's plan, and found these stamps.
  ghost predicate MaterializedBy(base: Db, events: seq<Event>, s: Db, n: nat) {
    && n < |events| && events[n].Deploy?
    && var d, b := Run(base, events[..n]), events[n].b;
       && Startable(d) && s.origin == d.migrations
       && s.cursor.Some? && s.cursor.value.plan == FreshPlan(d, b).hash
       && s.cursor.value.plan in s.plans && s.plans[s.cursor.value.plan] == FreshPlan(d, b)
  }

  // `origin` is history, not a free variable: for every deploy in flight or complete it is the
  // stamps as they stood before the deploy, earlier in the run, that built the cursor's plan.
  lemma {:induction false} OriginIsPast(base: Db, events: seq<Event>) returns (n: nat)
    requires Undeployed(base) && ValidEvents(base, events)
    requires InFlight(Run(base, events)) || Completed(Run(base, events))
    ensures MaterializedBy(base, events, Run(base, events), n)
    decreases |events|
  {
    hide Inv, After, Startable, FreshPlan, Undeployed, ValidEvent, InFlight, Completed, SameDeploy, Starts;
    NothingDeployed(base);
    var front, e := events[..|events| - 1], events[|events| - 1];
    RunKeepsInv(base, front);
    var d, s := Run(base, front), Run(base, events);
    AfterDeploying(d, e);
    if e.Deploy? && Starts(d, s, e.b) {
      n := |front|;
      ValidEventFacts(d, e);
      JustMaterialized(d, s, e.b);
    } else {
      n := OriginIsPast(base, front);
      StaysMaterialized(d, s, n, base, front, events);
    }
  }

  lemma ValidEventFacts(db: Db, e: Event)
    requires ValidEvent(db, e)
    ensures ValidBinary(e.b)
  {
  }

  lemma StaysMaterialized(d: Db, s: Db, n: nat, base: Db, front: seq<Event>, events: seq<Event>)
    requires MaterializedBy(base, front, d, n) && SameDeploy(d, s, d.cursor.value.plan)
    requires events != [] && front == events[..|events| - 1]
    ensures MaterializedBy(base, events, s, n)
  {
    hide Run, FreshPlan, Startable, InFlight, Completed;
    assert events[..n] == front[..n];
  }

  lemma NothingDeployed(base: Db)
    requires Undeployed(base)
    ensures !InFlight(Run(base, [])) && !Completed(Run(base, []))
  {
  }

  lemma JustMaterialized(d: Db, s: Db, b: Binary)
    requires Inv(d) && ValidBinary(b) && Starts(d, s, b)
    ensures Startable(d) && s.origin == d.migrations && s.cursor.Some? && s.cursor.value.plan == FreshPlan(d, b).hash
    ensures s.cursor.value.plan in s.plans && s.plans[s.cursor.value.plan] == FreshPlan(d, b)
  {
    FreshPlanIsUnstarted(d, b);
    hide Inv, FreshPlan, WellFormedPlan, Startable;
  }

  // One process leaves a deploy in flight or complete only by going on with it or by starting it.
  lemma AfterDeploying(db: Db, e: Event)
    requires Inv(db) && ValidEvent(db, e)
    ensures var s := After(db, e);
      InFlight(s) || Completed(s) ==>
        || ((InFlight(db) || Completed(db)) && SameDeploy(db, s, db.cursor.value.plan))
        || (e.Deploy? && Starts(db, s, e.b))
  {
    TrueReadIsRead(db, e);
    hide Inv, Apply, Boot, ValidBinary, SameDeploy, Starts, ReadsTrue;
    match e.(readFails := false) {
      case Deploy(b, o, credit, _) =>
        ApplyDeploying(db, b, o, credit);
      case Start(b, decoupled, refuseDrift, credit, _) =>
        BootPlans(World(db, credit), b, decoupled, refuseDrift);
        if InFlight(db) || Completed(db) {
          BootStays(db, b, decoupled, refuseDrift, credit, db.cursor.value.plan);
          DeployingIsSame(db, db.cursor.value.plan);
        }
    }
  }

  lemma ApplyDeploying(db: Db, b: Binary, o: Options, c: nat)
    requires Inv(db) && ValidBinary(b)
    ensures var s := Apply(World(db, c), b, o).0.db;
      InFlight(s) || Completed(s) ==>
        || ((InFlight(db) || Completed(db)) && SameDeploy(db, s, db.cursor.value.plan))
        || Starts(db, s, b)
  {
    hide *;
    var s := Apply(World(db, c), b, o).0.db;
    if HasSubstrate(b) && c > 0 {
      ApplyIsDispatch(db, b, o, c);
      SubstrateKept(db, b);
      DispatchDeploying(Prepared(db, b), b, o, c - 1);
      DeployingThroughSubstrate(db, s, b);
    } else {
      ApplyIsNothing(db, b, o, c);
      if InFlight(s) || Completed(s) {
        SameAsItself(db);
      }
    }
  }

  lemma SameAsItself(db: Db)
    requires InFlight(db) || Completed(db)
    ensures SameDeploy(db, db, db.cursor.value.plan)
  {
  }

  lemma DispatchDeploying(db: Db, b: Binary, o: Options, c: nat)
    requires Inv(db)
    ensures var s := Dispatch(World(db, c), b, o).0.db;
      InFlight(s) || Completed(s) ==>
        || ((InFlight(db) || Completed(db)) && SameDeploy(db, s, db.cursor.value.plan))
        || Starts(db, s, b)
  {
    var s := Dispatch(World(db, c), b, o).0.db;
    DispatchContinuesOrStarts(World(db, c), b, o);
    if s == db && (InFlight(db) || Completed(db)) {
      DeployingIsSame(db, db.cursor.value.plan);
    }
    hide Inv, Dispatch, Starts;
  }

  lemma DeployingThroughSubstrate(db: Db, s: Db, b: Binary)
    requires HasSubstrate(b)
    ensures var e := Prepared(db, b);
      && InFlight(e) == InFlight(db) && Completed(e) == Completed(db)
      && (InFlight(db) || Completed(db) ==>
            e.cursor == db.cursor && (SameDeploy(e, s, db.cursor.value.plan) ==> SameDeploy(db, s, db.cursor.value.plan)))
      && (Starts(e, s, b) ==> Starts(db, s, b))
  {
    PreparedFrame(db, b);
    PreparedPlansTheSame(db, b);
    hide HasSubstrate, FreshPlan, InsertNew, Startable, Prepared, Core;
  }

  // ---------------------------------------------------------------- a foreign stamp that is served

  // A stamp of other bytes at or below the watermark survives a deploy, and the gate then serves.
  lemma ForeignStampIsServed(db: Db, b: Binary, f: SqlFile, c: nat)
    requires Inv(db) && ValidBinary(b) && HasSubstrate(b) && Startable(db) && c >= Remaining(db, b) + 4
    requires f in b.migrations && f.name.version <= db.substrate && !OwnStamp(db.migrations, f) && TableReady(db, b)
    ensures var s := Apply(World(db, c), b, GO).0.db;
      Completed(s) && Activation(s, b, true) == ServeVerify && !OwnStamp(s.migrations, f)
  {
    hide *;
    var s := Apply(World(db, c), b, GO).0.db;
    FreshDeployEnd(db, b, c);
    DeployedFacts(s, b, FreshPlan(db, b));
    CursorCases(db);
    ApplyStarts(db, b, c);
    OutsideThePlan(db, b, f);
    SameMaterialized(db, s, b);
    OwnPlanSteps(db, b);
    StampOfUnplanned(s, b, f);
    GateServesFinished(db, s, b);
  }

  // The same stamp, if it is not empty, makes the binary's own legacy boot fail.
  lemma ForeignStampFailsLegacy(db: Db, b: Binary, i: nat, c: nat, refuseDrift: bool, c': nat)
    requires Inv(db) && ValidBinary(b) && HasSubstrate(b) && Startable(db) && c >= Remaining(db, b) + 4 && c' > 0
    requires i < |b.migrations| && b.migrations[i].name.version <= db.substrate && !RecordedHashAgrees(db.migrations, b.migrations[i])
    requires TableReady(db, b) && !RevokeEmbedded(b) && b.preflightOk
    requires var e := Apply(World(db, c), b, GO).0.db; DDL_REVOKE_VERSION !in e.bundles && e.substrate <= b.latest
    ensures var r := Boot(World(Apply(World(db, c), b, GO).0.db, c'), b, false, refuseDrift).1; r.MigrateFailed? && r.error.HashMismatch?
  {
    hide *;
    var e := Apply(World(db, c), b, GO).0.db;
    FreshDeployEnd(db, b, c);
    DeployedFacts(e, b, FreshPlan(db, b));
    ApplyStarts(db, b, c);
    SameMaterialized(db, e, b);
    OriginStampKept(e, db.migrations, b.migrations[i].name.version);
    StillDisagrees(db.migrations, e, b, i);
    FinishedDeployServesLegacyIff(db, b, c, refuseDrift, c');
  }

  lemma OriginStampKept(e: Db, stamps: map<nat, string>, v: nat)
    requires Inv(e) && Completed(e) && e.origin == stamps
    ensures v in stamps ==> v in e.migrations && e.migrations[v] == stamps[v]
  {
    CompleteCount(e);
    assert StampsSince(e.origin, e.migrations, e.plans[e.cursor.value.plan], Committed(e, e.cursor.value.plan));
    hide Inv, Committed;
  }

  lemma StillDisagrees(stamps: map<nat, string>, e: Db, b: Binary, i: nat)
    requires i < |b.migrations| && !RecordedHashAgrees(stamps, b.migrations[i])
    requires var v := b.migrations[i].name.version; v in stamps ==> v in e.migrations && e.migrations[v] == stamps[v]
    ensures !AllAgree(e, b)
  {
    assert !RecordedHashAgrees(e.migrations, b.migrations[i]);
  }

  lemma DeployedFacts(s: Db, b: Binary, p: Plan)
    requires DeployedAt(s, b, p, true) || DeployedAt(s, b, p, false)
    ensures Inv(s) && Completed(s) && s.cursor.value.plan == p.hash && p.hash in s.plans && s.plans[p.hash] == p
  {
    hide Inv, Committed, ExpectedFingerprint;
  }

  lemma ApplyStarts(db: Db, b: Binary, c: nat)
    requires Inv(db) && ValidBinary(b) && Startable(db) && Completed(Apply(World(db, c), b, GO).0.db)
    ensures Starts(db, Apply(World(db, c), b, GO).0.db, b)
  {
    hide *;
    ApplyDeploying(db, b, GO, c);
    CursorCases(db);
  }

  lemma SameMaterialized(db: Db, s: Db, b: Binary)
    requires Starts(db, s, b)
    ensures s.origin == db.migrations
  {
    hide Startable, FreshPlan, InsertNew;
  }

  lemma OutsideThePlan(db: Db, b: Binary, f: SqlFile)
    requires ValidBinary(b) && f.name.version <= db.substrate
    ensures !Planned(FreshPlan(db, b).steps, Runtime, f)
  {
    hide MaxVersion;
    BuiltPlanIsWellFormed(b, MaxVersion(db.bundles.Keys), db.substrate);
  }

  lemma OwnPlanSteps(db: Db, b: Binary)
    requires ValidBinary(b)
    ensures OwnSteps(b, FreshPlan(db, b))
  {
    hide PlanSteps, MaxVersion;
    var p := FreshPlan(db, b);
    forall i | 0 <= i < |p.steps| && p.steps[i].role.Runtime? ensures SqlFile(p.steps[i].id, p.steps[i].sha) in b.migrations {
      StepHasOrigin(b, MaxVersion(db.bundles.Keys), db.substrate, i);
    }
  }

  lemma GateServesFinished(db: Db, s: Db, b: Binary)
    requires DeployedAt(s, b, FreshPlan(db, b), TableReady(db, b)) && TableReady(db, b)
    ensures Activation(s, b, true) == ServeVerify
  {
    hide Inv, Committed, ExpectedFingerprint, PlanSteps, MaxVersion, RevokeEmbedded;
    GateServesExactlyWhen(s, b, true);
  }

  // The smallest case, with two honest binaries: the old one boots and applies its migration 44, the
  // new one carries other bytes under that number, deploys, and is served over the old stamp. No
  // file of either lies at or below the first watermark.
  const OLD_BINARY: Binary := Binary([SqlFile(SUBSTRATE_FILE, "x")], [], None, 44, 0, true)

  const NEW_BINARY: Binary :=
    Binary([SqlFile(SUBSTRATE_FILE, "y"), SqlFile(FileName(45, "cullable_entity.sql"), "z")], [], None, 45, 0, true)

  const LEGACY_BASE: Db := Db(None, map[], map[], map[], 43, map[], NoRow, false, map[], [])

  lemma TwoBinariesServeForeignStamp()
    ensures Undeployed(LEGACY_BASE) && ValidBinary(OLD_BINARY) && ValidBinary(NEW_BINARY)
    ensures forall f :: f in OLD_BINARY.migrations || f in NEW_BINARY.migrations ==> f.name.version > LEGACY_BASE.substrate
    ensures exists c: nat :: var s := Run(LEGACY_BASE, [Start(OLD_BINARY, false, false, 9), Deploy(NEW_BINARY, GO, c)]);
      Completed(s) && Activation(s, NEW_BINARY, true) == ServeVerify && !OwnStamp(s.migrations, NEW_BINARY.migrations[0])
  {
    var first := [Start(OLD_BINARY, false, false, 9)];
    var d := Run(LEGACY_BASE, first);
    OldBootApplies44();
    RunKeepsInv(LEGACY_BASE, first);
    var f := NEW_BINARY.migrations[0];
    assert f in NEW_BINARY.migrations;
    var c := Remaining(d, NEW_BINARY) + 4;
    ForeignStampIsServed(d, NEW_BINARY, f, c);
    assert (first + [Deploy(NEW_BINARY, GO, c)])[..1] == first;
    assert first + [Deploy(NEW_BINARY, GO, c)] == [Start(OLD_BINARY, false, false, 9), Deploy(NEW_BINARY, GO, c)];
    hide Apply, Activation, Inv;
  }

  lemma OldBootApplies44()
    ensures Undeployed(LEGACY_BASE) && ValidBinary(OLD_BINARY) && ValidBinary(NEW_BINARY)
        && HasSubstrate(NEW_BINARY) && HasSubstrate(OLD_BINARY)
    ensures ValidEvents(LEGACY_BASE, [Start(OLD_BINARY, false, false, 9)])
    ensures var d := Run(LEGACY_BASE, [Start(OLD_BINARY, false, false, 9)]);
      && Startable(d) && LoadCursor(d).None? && d.substrate == 44 && d.migrations == map[44 := "x"] && d.bundles == map[]
      && !d.schemaState.NoTable? && d.executed == [Executed(ByBoot, Runtime, 44, "x")]
  {
    var e := Start(OLD_BINARY, false, false, 9);
    assert [e][..0] == [];
    assert Run(LEGACY_BASE, []) == LEGACY_BASE;
    assert Run(LEGACY_BASE, [e]) == After(LEGACY_BASE, e);
    assert MaxVersion({}) == 0;
    var m := OLD_BINARY.migrations[0];
    var w := World(LEGACY_BASE, 9);
    assert OLD_BINARY.migrations[1..] == [];
    assert ApplyPending(World(MigrationDone(LEGACY_BASE, m), 8), [], 44).0 == World(MigrationDone(LEGACY_BASE, m), 8);
    assert ApplyPending(w, OLD_BINARY.migrations, 43).0 == World(MigrationDone(LEGACY_BASE, m), 8);
  }

  // The same base with a stamp of other bytes above its watermark.
  const STALE_BASE: Db := LEGACY_BASE.(migrations := map[44 := "old"])

  // Every further deploy reports a mismatch.
  ghost predicate Stuck(db: Db, b: Binary) {
    forall c: nat :: c > 0 ==> HaltsOnStamp(db, b, c)
  }

  ghost predicate HaltsOnStamp(db: Db, b: Binary, c: nat) {
    var r := Apply(World(db, c), b, GO).1;
    r.Halted? && r.error.StampMismatch?
  }

  ghost predicate StuckAfter(i: nat) {
    Stuck(Apply(World(STALE_BASE, i + 3), NEW_BINARY, GO).0.db, NEW_BINARY)
  }

  // One binary, one crash: once the step of migration 44 has committed, its deploy is stuck.
  lemma StaleBaseFalselyHalts()
    ensures Undeployed(STALE_BASE) && ValidBinary(NEW_BINARY)
    ensures exists i: nat :: i < |FreshPlan(STALE_BASE, NEW_BINARY).steps| && StuckAfter(i)
  {
    hide *;
    var i := StaleStep44();
    UndeployedIsInv(STALE_BASE);
    GoNeitherTriesNorAborts();
    var dead := Apply(World(STALE_BASE, i + 3), NEW_BINARY, GO).0.db;
    NoEvents(dead);
    forall c: nat | c > 0 ensures HaltsOnStamp(dead, NEW_BINARY, c) {
      FalseHalt(STALE_BASE, NEW_BINARY, i, [], GO, c);
      HaltsOnStampIs(dead, NEW_BINARY, c);
    }
    StuckAfterIs(i, dead);
  }

  lemma StaleStep44() returns (i: nat)
    ensures Undeployed(STALE_BASE) && Startable(STALE_BASE) && ValidBinary(NEW_BINARY) && HasSubstrate(NEW_BINARY)
    ensures i < |FreshPlan(STALE_BASE, NEW_BINARY).steps|
    ensures !OwnOrAbsent(STALE_BASE.migrations, FreshPlan(STALE_BASE, NEW_BINARY).steps[i])
  {
    var f := NEW_BINARY.migrations[0];
    assert f in NEW_BINARY.migrations;
    RuntimeFileIsPlanned(NEW_BINARY, MaxVersion(STALE_BASE.bundles.Keys), 43, f);
    hide PlanSteps, MaxVersion;
    var steps := FreshPlan(STALE_BASE, NEW_BINARY).steps;
    i :| 0 <= i < |steps| && steps[i].role == Runtime && steps[i].id == f.name && steps[i].sha == f.sha;
  }

  lemma NoEvents(db: Db)
    ensures ValidEvents(db, []) && NoAborts([]) && Run(db, []) == db
  {
  }

  lemma HaltsOnStampIs(db: Db, b: Binary, c: nat)
    ensures HaltsOnStamp(db, b, c) <==> Apply(World(db, c), b, GO).1.Halted? && Apply(World(db, c), b, GO).1.error.StampMismatch?
  {
  }

  lemma StuckAfterIs(i: nat, dead: Db)
    requires dead == Apply(World(STALE_BASE, i + 3), NEW_BINARY, GO).0.db
    requires forall c: nat :: c > 0 ==> HaltsOnStamp(dead, NEW_BINARY, c)
    ensures StuckAfter(i)
  {
    hide HaltsOnStamp, Apply;
  }
}
