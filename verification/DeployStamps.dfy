/**
  The M1 stamp check on resume, exactly. The step transaction inserts its stamp ON CONFLICT DO
  NOTHING, so a stamp of other bytes above the watermark survives the step that should replace it.
 */
module DeployStamps {
  import opened DeployPlan
  import opened DeployDatabase
  import opened DeployApply
  import opened DeployInvariant
  import opened BootGate
  import opened DeployRuns
  import opened DeployResume

  // ---------------------------------------------------------------- runs that never abort

  ghost predicate NoAborts(events: seq<Event>) {
    forall i :: 0 <= i < |events| ==> events[i].Deploy? ==> !events[i].o.abort
  }

  ghost predicate Deploying(db: Db, h: PlanHash) {
    db.cursor.Some? && db.cursor.value.plan == h && (InFlight(db) || Completed(db))
  }

  lemma DispatchStays(w: World, b: Binary, o: Options, h: PlanHash)
    requires Inv(w.db) && Deploying(w.db, h) && !o.abort
    ensures SameDeploy(w.db, Dispatch(w, b, o).0.db, h)
  {
    DispatchContinuesOrStarts(w, b, o);
    CursorCases(w.db);
    hide Inv, Dispatch, Startable;
  }

  lemma ApplyStays(db: Db, b: Binary, o: Options, c: nat, h: PlanHash)
    requires Inv(db) && ValidBinary(b) && Deploying(db, h) && !o.abort
    ensures SameDeploy(db, Apply(World(db, c), b, o).0.db, h)
  {
    DeployingIsSame(db, h);
    hide *;
    if HasSubstrate(b) && c > 0 {
      ApplyIsDispatch(db, b, o, c);
      SubstrateKept(db, b);
      PreparedIsDeploying(db, b, h);
      DispatchStays(World(Prepared(db, b), c - 1), b, o, h);
      SameAfterPrepared(db, b, Dispatch(World(Prepared(db, b), c - 1), b, o).0.db, h);
    } else {
      ApplyIsNothing(db, b, o, c);
    }
  }

  lemma DeployingIsSame(db: Db, h: PlanHash)
    requires Deploying(db, h)
    ensures SameDeploy(db, db, h)
  {
  }

  lemma PreparedIsDeploying(db: Db, b: Binary, h: PlanHash)
    requires HasSubstrate(b) && Deploying(db, h)
    ensures Deploying(Prepared(db, b), h)
  {
    hide Find;
  }

  lemma SameAfterPrepared(db: Db, b: Binary, db': Db, h: PlanHash)
    requires HasSubstrate(b) && SameDeploy(Prepared(db, b), db', h)
    ensures SameDeploy(db, db', h)
  {
    hide Find, InFlight, Completed;
  }

  // No boot touches a deploy in flight or complete.
  lemma BootStays(db: Db, b: Binary, decoupled: bool, refuseDrift: bool, c: nat, h: PlanHash)
    requires Inv(db) && ValidBinary(b) && Deploying(db, h)
    ensures Boot(World(db, c), b, decoupled, refuseDrift).0.db == db
  {
    if Completed(db) {
      CompleteBootAppliesNothing(db, b, decoupled, refuseDrift, c);
    } else {
      GateServesExactlyWhen(db, b, decoupled);
      hide Inv, Activation, ValidBinary, OwnerShortfall;
    }
  }

  // Without an abort a deploy keeps its plan and its origin, through any run by any binaries.
  lemma {:induction false} RunStays(db: Db, events: seq<Event>, h: PlanHash)
    requires Inv(db) && Deploying(db, h) && ValidEvents(db, events) && NoAborts(events)
    ensures Inv(Run(db, events)) && SameDeploy(db, Run(db, events), h)
    decreases |events|
  {
    if events == [] {
      DeployingIsSame(db, h);
    } else {
      var front, e := events[..|events| - 1], events[|events| - 1];
      assert NoAborts(front);
      RunStays(db, front, h);
      AfterStays(Run(db, front), e, h);
      hide Inv, After;
    }
  }

  lemma AfterStays(db: Db, e: Event, h: PlanHash)
    requires Inv(db) && Deploying(db, h) && ValidEvent(db, e) && (e.Deploy? ==> !e.o.abort)
    ensures Inv(After(db, e)) && SameDeploy(db, After(db, e), h)
  {
    TrueReadIsRead(db, e);
    hide Inv, Apply, Boot, ValidBinary, SameDeploy, ReadsTrue;
    match e.(readFails := false) {
      case Deploy(b, o, credit, _) =>
        ApplyKeepsInv(World(db, credit), b, o);
        ApplyStays(db, b, o, credit, h);
      case Start(b, decoupled, refuseDrift, credit, _) =>
        BootStays(db, b, decoupled, refuseDrift, credit, h);
        DeployingIsSame(db, h);
    }
  }

  // ---------------------------------------------------------------- a deploy that dies early

  // A deploy allowed exactly j step transactions stops before step next + j.
  lemma {:induction false} RunFromPartial(db: Db, b: Binary, p: Plan, next: nat, applied: seq<nat>, resumed: bool, j: nat)
    requires At(db, p, next) && TranscriptMatches(b, p.steps) && next + j <= |p.steps|
    ensures At(RunFrom(World(db, j), b, p, next, ChainAt(p, next), applied, resumed).0.db, p, next + j)
    decreases j
  {
    hide Inv, StepDone;
    TranscriptErrorIff(b, p.steps);
    if j > 0 {
      var s := p.steps[next];
      ResolvedName(b, s);
      var file := Resolve(b, s.role, s.id).value;
      StepKeepsInv(db, p, next, file);
      RunFromPartial(StepDone(db, p.hash, s, file, ChainAt(p, next)), b, p, next + 1, applied + [s.index], resumed, j - 1);
    }
  }

  // One transaction for the substrate, one for the plan, n for its first steps.
  lemma DeployDiesAfter(db: Db, b: Binary, n: nat)
    requires Inv(db) && ValidBinary(b) && HasSubstrate(b) && Startable(db) && n <= |FreshPlan(db, b).steps|
    ensures At(Apply(World(db, n + 2), b, GO).0.db, FreshPlan(db, b), n)
    ensures Apply(World(db, n + 2), b, GO).0.db.origin == db.migrations
  {
    hide *;
    GoNeitherTriesNorAborts();
    ApplyIsDispatch(db, b, GO, n + 2);
    PreparedFrame(db, b);
    SubstrateKept(db, b);
    PreparedPlansTheSame(db, b);
    DispatchDiesAfter(Prepared(db, b), b, n);
  }

  lemma PreparedPlansTheSame(db: Db, b: Binary)
    requires HasSubstrate(b)
    ensures FreshPlan(Prepared(db, b), b) == FreshPlan(db, b) && Prepared(db, b).migrations == db.migrations
  {
    hide PlanOf, Find;
  }

  lemma DispatchDiesAfter(db: Db, b: Binary, n: nat)
    requires Inv(db) && ValidBinary(b) && Startable(db) && n <= |FreshPlan(db, b).steps|
    ensures At(Dispatch(World(db, n + 1), b, GO).0.db, FreshPlan(db, b), n)
    ensures Dispatch(World(db, n + 1), b, GO).0.db.origin == db.migrations
  {
    hide Inv, PlanSteps, At, Dispatch, RunFrom, ValidBinary;
    CursorCases(db);
    var p := FreshPlan(db, b);
    DispatchOfStartable(World(db, n + 1), b, GO);
    MaterializedIsAtZero(db, b);
    OwnPlanMatches(b, MaxVersion(db.bundles.Keys), db.substrate);
    RunFromPartial(Materialized(db, p), b, p, 0, [], false, n);
    RunFromStays(World(Materialized(db, p), n), b, p, 0, NoDigest, [], false);
  }

  // ---------------------------------------------------------------- the false halt, exactly

  lemma PassesWhenStaleFree(db: Db, p: Plan)
    requires Inv(db) && InFlight(db) && p.hash == db.cursor.value.plan && p.hash in db.plans && db.plans[p.hash] == p
    requires StaleFree(db.origin, p)
    ensures StampsPass(db)
  {
    StampsPassIff(db);
    hide Inv, StampsPass, OwnOrAbsent;
  }

  // A stale step below the committed count fails the check.
  lemma FailsOnStaleStep(db: Db, p: Plan, n: nat, i: nat)
    requires At(db, p, n) && i < n && !OwnOrAbsent(db.origin, p.steps[i])
    ensures InFlight(db) && !StampsPass(db)
  {
    InFlightFacts(db);
    StampsPassIff(db);
    hide Inv, StampsPass, OwnOrAbsent, WellFormedPlan, Committed;
  }

  // A deploy in flight whose check fails is stuck: no run of deploys and boots by any binaries,
  // short of an abort, takes a step or clears the check.
  lemma {:induction false} FailedCheckSticks(db: Db, events: seq<Event>)
    requires Inv(db) && InFlight(db) && !StampsPass(db) && ValidEvents(db, events) && NoAborts(events)
    ensures var s := Run(db, events);
      Inv(s) && InFlight(s) && !StampsPass(s) && Core(s) == Core(db)
    decreases |events|
  {
    if events != [] {
      var front, e := events[..|events| - 1], events[|events| - 1];
      assert NoAborts(front);
      FailedCheckSticks(db, front);
      AfterSticks(Run(db, front), e);
      hide Inv, After, StampsPass, Core, InFlight;
    }
  }

  lemma AfterSticks(db: Db, e: Event)
    requires Inv(db) && InFlight(db) && !StampsPass(db) && ValidEvent(db, e) && (e.Deploy? ==> !e.o.abort)
    ensures var s := After(db, e);
      Inv(s) && InFlight(s) && !StampsPass(s) && Core(s) == Core(db)
  {
    TrueReadIsRead(db, e);
    hide Inv, Apply, Boot, ValidBinary, StampsPass, Core, ReadsTrue;
    match e.(readFails := false) {
      case Deploy(b, o, credit, _) =>
        ApplySticks(db, b, o, credit);
      case Start(b, decoupled, refuseDrift, credit, _) =>
        BootStays(db, b, decoupled, refuseDrift, credit, db.cursor.value.plan);
    }
  }

  // Such a deploy reports the first stale step, unless a differing step is reported before it.
  lemma ApplySticks(db: Db, b: Binary, o: Options, c: nat)
    requires Inv(db) && InFlight(db) && !StampsPass(db) && ValidBinary(b) && !o.abort
    ensures var (w, r) := Apply(World(db, c), b, o);
      && Inv(w.db) && InFlight(w.db) && !StampsPass(w.db) && Core(w.db) == Core(db)
      && r.Halted? && (HasSubstrate(b) && c > 0 && Agrees(db, b) ==> r.error.StampMismatch?)
  {
    hide *;
    if HasSubstrate(b) && c > 0 {
      ApplyIsDispatch(db, b, o, c);
      PreparedIsTheSame(db, b);
      DispatchSticks(Prepared(db, b), b, o, c - 1);
    } else {
      ApplyIsNothing(db, b, o, c);
    }
  }

  lemma DispatchSticks(db: Db, b: Binary, o: Options, c: nat)
    requires Inv(db) && InFlight(db) && !StampsPass(db) && !o.abort
    ensures var (w, r) := Dispatch(World(db, c), b, o);
      w == World(db, c) && r.Halted? && (Agrees(db, b) ==> r.error.StampMismatch?)
  {
    hide *;
    PlanInFlight(db);
    var p := db.plans[db.cursor.value.plan];
    StampErrorKind(db, p.steps, CommittedThrough(db.cursor.value));
    DispatchHalts(World(db, c), b, o);
    if Agrees(db, b) {
      AgreesInFlight(db, b);
    }
  }

  lemma DispatchHalts(w: World, b: Binary, o: Options)
    requires InFlight(w.db) && w.db.cursor.value.plan in w.db.plans && !o.abort
    requires StampError(w.db, w.db.plans[w.db.cursor.value.plan].steps, CommittedThrough(w.db.cursor.value)).Some?
    ensures var p := w.db.plans[w.db.cursor.value.plan]; var t := TranscriptError(b, p.steps);
      Dispatch(w, b, o) ==
        (w, Halted(if t.Some? then t.value else StampError(w.db, p.steps, CommittedThrough(w.db.cursor.value)).value))
  {
    hide RunFrom, Finalize, StampError, TranscriptError, LastReceipt, PlanOf;
  }

  lemma AgreesInFlight(db: Db, b: Binary)
    requires InFlight(db) && db.cursor.value.plan in db.plans && Agrees(db, b)
    ensures TranscriptError(b, db.plans[db.cursor.value.plan].steps).None?
  {
    TranscriptErrorIff(b, db.plans[db.cursor.value.plan].steps);
    hide TranscriptError, TranscriptMatches;
  }

  lemma {:induction false} StampErrorKind(db: Db, steps: seq<Step>, through: nat)
    ensures StampError(db, steps, through).Some? ==> StampError(db, steps, through).value.StampMismatch?
    decreases |steps|
  {
    if steps != [] {
      StampErrorKind(db, steps[1..], through);
    }
  }

  // The stamp check never halts a resume of a freshly materialized plan, over any run of deploys
  // and boots by any binaries short of an abort, if and only if no runtime step of the plan finds a
  // stamp of other bytes.
  lemma NeverHaltsIff(db: Db, b: Binary)
    requires Inv(db) && ValidBinary(b) && HasSubstrate(b) && Startable(db)
    ensures var p := FreshPlan(db, b);
      (forall events :: ValidEvents(Materialized(db, p), events) && NoAborts(events) && InFlight(Run(Materialized(db, p), events)) ==>
         ResumePasses(Run(Materialized(db, p), events), p))
      <==> StaleFree(db.migrations, p)
  {
    hide *;
    var p := FreshPlan(db, b);
    MaterializedStart(db, b);
    if StaleFree(db.migrations, p) {
      forall events | ValidEvents(Materialized(db, p), events) && NoAborts(events) && InFlight(Run(Materialized(db, p), events))
        ensures ResumePasses(Run(Materialized(db, p), events), p)
      {
        RunStays(Materialized(db, p), events, p.hash);
        SameDeployPasses(Materialized(db, p), Run(Materialized(db, p), events), p);
      }
    } else {
      var i := StaleStep(db.migrations, p);
      ResumeFalselyHalts(db, b, i);
      assert !ResumePasses(Run(Materialized(db, p), [Deploy(b, GO, i + 2)]), p);
    }
  }

  ghost predicate ResumePasses(db: Db, p: Plan) {
    db.cursor.Some? && StampError(db, p.steps, CommittedThrough(db.cursor.value)).None?
  }

  lemma MaterializedStart(db: Db, b: Binary)
    requires Inv(db) && ValidBinary(b) && Startable(db)
    ensures var p := FreshPlan(db, b); var m := Materialized(db, p);
      && At(m, p, 0) && Inv(m) && Deploying(m, p.hash) && m.origin == db.migrations
      && p.hash in m.plans && m.plans[p.hash] == p && TranscriptMatches(b, p.steps)
  {
    MaterializedIsAtZero(db, b);
    OwnPlanMatches(b, MaxVersion(db.bundles.Keys), db.substrate);
    hide Inv, PlanSteps, TranscriptMatches, Committed;
  }

  lemma SameDeployPasses(m: Db, s: Db, p: Plan)
    requires Inv(s) && InFlight(s) && SameDeploy(m, s, p.hash) && p.hash in m.plans && m.plans[p.hash] == p
    requires StaleFree(m.origin, p)
    ensures ResumePasses(s, p)
  {
    PassesWhenStaleFree(s, p);
    hide Inv, StampError, StaleFree;
  }

  ghost function StaleStep(stamps: map<nat, string>, p: Plan): (i: nat)
    requires !StaleFree(stamps, p)
    ensures i < |p.steps| && !OwnOrAbsent(stamps, p.steps[i])
  {
    var i :| 0 <= i < |p.steps| && !OwnOrAbsent(stamps, p.steps[i]);
    i
  }

  // The deploy dies right after its stale step has committed.
  lemma ResumeFalselyHalts(db: Db, b: Binary, i: nat)
    requires Inv(db) && ValidBinary(b) && HasSubstrate(b) && Startable(db) && i < |FreshPlan(db, b).steps|
    requires !OwnOrAbsent(db.migrations, FreshPlan(db, b).steps[i])
    ensures var p := FreshPlan(db, b); var events := [Deploy(b, GO, i + 2)];
      var s := Run(Materialized(db, p), events);
      ValidEvents(Materialized(db, p), events) && NoAborts(events) && InFlight(s) && !ResumePasses(s, p)
  {
    hide *;
    var p := FreshPlan(db, b);
    MaterializedStart(db, b);
    OneDeploy(Materialized(db, p), b, i + 2);
    ResumedDiesAfter(Materialized(db, p), b, p, i + 1);
    StaleStepBlocks(Run(Materialized(db, p), [Deploy(b, GO, i + 2)]), p, i + 1, i);
  }

  lemma StaleStepBlocks(s: Db, p: Plan, n: nat, i: nat)
    requires At(s, p, n) && i < n && !OwnOrAbsent(s.origin, p.steps[i])
    ensures InFlight(s) && !ResumePasses(s, p)
  {
    FailsOnStaleStep(s, p, n, i);
    hide Inv, StampError, OwnOrAbsent, Committed;
  }

  lemma OneDeploy(db: Db, b: Binary, c: nat)
    requires ValidBinary(b)
    ensures Run(db, [Deploy(b, GO, c)]) == Apply(World(db, c), b, GO).0.db
    ensures ValidEvents(db, [Deploy(b, GO, c)]) && NoAborts([Deploy(b, GO, c)])
  {
    var e := Deploy(b, GO, c);
    assert [e][..0] == [] && Run(db, []) == db;
    hide Apply, ValidBinary;
  }

  lemma ResumedDiesAfter(db: Db, b: Binary, p: Plan, n: nat)
    requires At(db, p, 0) && ValidBinary(b) && HasSubstrate(b) && TranscriptMatches(b, p.steps) && n <= |p.steps|
    ensures At(Apply(World(db, n + 1), b, GO).0.db, p, n) && Apply(World(db, n + 1), b, GO).0.db.origin == db.origin
  {
    AtPrepared(db, b, p);
    hide *;
    ApplyIsDispatch(db, b, GO, n + 1);
    DispatchResumesAt(Prepared(db, b), b, p, n);
  }

  lemma AtPrepared(db: Db, b: Binary, p: Plan)
    requires At(db, p, 0) && HasSubstrate(b)
    ensures At(Prepared(db, b), p, 0) && Prepared(db, b).origin == db.origin
  {
    SubstrateKeepsInv(db, SubstrateFile(b).value);
    hide Inv, Find, PlanLog;
  }

  lemma DispatchResumesAt(db: Db, b: Binary, p: Plan, n: nat)
    requires At(db, p, 0) && TranscriptMatches(b, p.steps) && n <= |p.steps|
    ensures At(Dispatch(World(db, n), b, GO).0.db, p, n) && Dispatch(World(db, n), b, GO).0.db.origin == db.origin
  {
    hide *;
    GoNeitherTriesNorAborts();
    AtIsInv(db, p, 0);
    AtZero(db, p);
    TranscriptErrorIff(b, p.steps);
    StampErrorIff(db, p.steps, 0);
    DispatchRuns(World(db, n), b, GO);
    FirstReceipt(db, p);
    RunFromPartial(db, b, p, 0, [], true, n);
    RunFromStays(World(db, n), b, p, 0, NoDigest, [], true);
    SameDeployOrigin(db, RunFrom(World(db, n), b, p, 0, NoDigest, [], true).0.db, p.hash);
  }

  lemma FirstReceipt(db: Db, p: Plan)
    ensures LastReceipt(db, p.hash, 0) == NoDigest && ChainAt(p, 0) == NoDigest
  {
  }

  lemma SameDeployOrigin(db: Db, db': Db, h: PlanHash)
    requires SameDeploy(db, db', h)
    ensures db'.origin == db.origin
  {
  }

  lemma AtZero(db: Db, p: Plan)
    requires At(db, p, 0)
    ensures InFlight(db) && CommittedThrough(db.cursor.value) == 0 && db.cursor.value.state.InProgress?
    ensures forall i :: 0 <= i < |p.steps| ==> p.steps[i].index == i && p.steps[i].sha != ""
  {
    InFlightFacts(db);
    StepsAreIndexed(p);
    hide PlanLog, ReceiptsOk, LogsOk, SeenOk, ProgressOk, PendingOk, OriginOk, FingerprintOk;
  }

  // The authoring binary halts on its own bytes, and stays halted: die right after a stale step i,
  // and every later deploy of the same binary reports a stamp mismatch and applies nothing.
  lemma {:induction false} FalseHalt(db: Db, b: Binary, i: nat, events: seq<Event>, o: Options, c: nat)
    requires Inv(db) && ValidBinary(b) && HasSubstrate(b) && Startable(db)
    requires i < |FreshPlan(db, b).steps| && !OwnOrAbsent(db.migrations, FreshPlan(db, b).steps[i])
    requires ValidEvents(Apply(World(db, i + 3), b, GO).0.db, events) && NoAborts(events) && !o.abort && c > 0
    ensures var dead := Apply(World(db, i + 3), b, GO).0.db;
      var s := Run(dead, events);
      && Core(s) == Core(dead) && InFlight(s)
      && var (w, r) := Apply(World(s, c), b, o);
         Core(w.db) == Core(dead) && r.Halted? && r.error.StampMismatch?
  {
    hide *;
    var p := FreshPlan(db, b);
    var dead := Apply(World(db, i + 3), b, GO).0.db;
    DeployDiesAfter(db, b, i + 1);
    AtIsInv(dead, p, i + 1);
    FailsOnStaleStep(dead, p, i + 1, i);
    FailedCheckSticks(dead, events);
    MaterializedStart(db, b);
    AgreesByCore(dead, Run(dead, events), b, p);
    ApplySticks(Run(dead, events), b, o, c);
  }

  lemma AtIsInv(db: Db, p: Plan, n: nat)
    requires At(db, p, n)
    ensures Inv(db) && db.cursor.Some? && db.cursor.value.plan == p.hash && p.hash in db.plans && db.plans[p.hash] == p
  {
    hide Inv, Committed;
  }

  lemma AgreesByCore(db: Db, e: Db, b: Binary, p: Plan)
    requires db.cursor.Some? && db.cursor.value.plan == p.hash && p.hash in db.plans && db.plans[p.hash] == p
    requires Core(db) == Core(e) && TranscriptMatches(b, p.steps)
    ensures Agrees(e, b)
  {
    hide TranscriptMatches, Numbered;
    assert e.cursor == Core(e).cursor && e.plans == Core(e).plans;
    assert db.cursor == Core(db).cursor && db.plans == Core(db).plans;
  }

  // ---------------------------------------------------------------- what complete leaves stamped

  // Once the plan is complete, after any such run, a planned runtime version carries the plan's own
  // hash exactly when it found none, or the same one, at materialization; so all of them do if and
  // only if no step found a stamp of other bytes.
  lemma {:induction false} CompleteStampsIff(db: Db, b: Binary, events: seq<Event>)
    requires Inv(db) && ValidBinary(b) && Startable(db)
    requires ValidEvents(Materialized(db, FreshPlan(db, b)), events) && NoAborts(events)
    requires Completed(Run(Materialized(db, FreshPlan(db, b)), events))
    ensures var p := FreshPlan(db, b); var s := Run(Materialized(db, p), events);
      && (forall i :: 0 <= i < |p.steps| ==> (StampOf(s, p.steps[i]) == p.steps[i].sha <==> OwnOrAbsent(db.migrations, p.steps[i])))
      && ((forall i :: 0 <= i < |p.steps| ==> StampOf(s, p.steps[i]) == p.steps[i].sha) <==> StaleFree(db.migrations, p))
  {
    hide *;
    var p := FreshPlan(db, b);
    var m := Materialized(db, p);
    MaterializedStart(db, b);
    RunStays(m, events, p.hash);
    SameCompleteStamps(m, Run(m, events), p);
  }

  lemma SameCompleteStamps(m: Db, s: Db, p: Plan)
    requires Inv(s) && Completed(s) && SameDeploy(m, s, p.hash) && p.hash in m.plans && m.plans[p.hash] == p
    ensures forall i :: 0 <= i < |p.steps| ==> (StampOf(s, p.steps[i]) == p.steps[i].sha <==> OwnOrAbsent(m.origin, p.steps[i]))
    ensures (forall i :: 0 <= i < |p.steps| ==> StampOf(s, p.steps[i]) == p.steps[i].sha) <==> StaleFree(m.origin, p)
  {
    CompleteCount(s);
    hide Inv, Committed, StampOf, OwnOrAbsent;
    forall i: nat | i < |p.steps|
      ensures StampOf(s, p.steps[i]) == p.steps[i].sha <==> OwnOrAbsent(m.origin, p.steps[i])
    {
      CommittedStamp(s, i);
    }
  }

  lemma CompleteCount(db: Db)
    requires Inv(db) && Completed(db)
    ensures db.cursor.value.plan in db.plans
    ensures Committed(db, db.cursor.value.plan) == |db.plans[db.cursor.value.plan].steps|
  {
  }
}
