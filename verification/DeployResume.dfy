/**
  A crashed deploy, resumed, ends where an uninterrupted one ends: when a resume gets past the two
  M1 checks, where it is headed, and that no crash moves it.
 */
module DeployResume {
  import opened Wrappers
  import opened DeployPlan
  import opened DeployDatabase
  import opened DeployApply
  import opened DeployInvariant
  import opened DeployRuns

  // ---------------------------------------------------------------- when the stamp check passes

  // The stamp check passes iff every step below the count is stamped with its own hash.
  lemma {:induction false} StampErrorIff(db: Db, steps: seq<Step>, through: nat)
    requires forall i :: 0 <= i < |steps| ==> steps[i].sha != ""
    ensures StampError(db, steps, through).None? <==>
              forall i :: 0 <= i < |steps| && steps[i].index < through ==> StampOf(db, steps[i]) == steps[i].sha
    decreases |steps|
  {
    if steps != [] {
      assert forall i :: 0 < i < |steps| ==> steps[i] == steps[1..][i - 1];
      StampErrorIff(db, steps[1..], through);
    }
  }

  // The step's own hash, or none yet, was stamped at its version.
  ghost predicate OwnOrAbsent(stamps: map<nat, string>, s: Step) {
    s.role.Runtime? && s.id.version in stamps ==> stamps[s.id.version] == s.sha
  }

  // No runtime step of the plan finds a stamp of other bytes at its version.
  ghost predicate StaleFree(stamps: map<nat, string>, p: Plan) {
    forall i :: 0 <= i < |p.steps| ==> OwnOrAbsent(stamps, p.steps[i])
  }

  // A committed step carries its own hash iff the stamps at materialization let it.
  lemma CommittedStamp(db: Db, i: nat)
    requires Inv(db) && (InFlight(db) || (db.cursor.Some? && db.cursor.value.state.Complete?))
    requires i < Committed(db, db.cursor.value.plan)
    ensures var s := db.plans[db.cursor.value.plan].steps[i];
      StampOf(db, s) == s.sha <==> OwnOrAbsent(db.origin, s)
  {
    hide ReceiptsOk, OnceOnly, ProgressOk, PendingOk, FingerprintOk;
    var p := db.plans[db.cursor.value.plan];
    var k, s := Committed(db, p.hash), p.steps[i];
    assert PlanLog(db.executed, p.hash)[i] == ExecutionOf(p, i);
    PlanLogIsPart(db.executed, p.hash, i);
    assert ExecutionOf(p, i) in db.executed;
    if s.role.Runtime? && s.id.version !in db.origin {
      var v := s.id.version;
      var j :| 0 <= j < k && AddedBy(p.steps[j], v, db.migrations[v]);
      SameVersionSameStep(p, i, j);
    }
  }

  lemma SameVersionSameStep(p: Plan, i: nat, j: nat)
    requires WellFormedPlan(p) && i < |p.steps| && j < |p.steps|
    requires p.steps[i].role == p.steps[j].role && p.steps[i].id.version == p.steps[j].id.version
    ensures i == j
  {
    if i < j {
      StepsAreDistinct(p, i, j);
    } else if j < i {
      StepsAreDistinct(p, j, i);
    }
  }

  ghost predicate StampsPass(db: Db)
    requires Inv(db)
  {
    InFlight(db) ==> StampError(db, db.plans[db.cursor.value.plan].steps, CommittedThrough(db.cursor.value)).None?
  }

  // In every reachable state, exactly: a resume gets past the stamp check iff no runtime step below
  // the committed count had a stamp of other bytes when the plan was materialized.
  lemma StampsPassIff(db: Db)
    requires Inv(db) && InFlight(db)
    ensures var p, through := db.plans[db.cursor.value.plan], CommittedThrough(db.cursor.value);
      && through <= |p.steps|
      && (StampsPass(db) <==> forall i :: 0 <= i < through ==> OwnOrAbsent(db.origin, p.steps[i]))
  {
    hide *;
    PlanInFlight(db);
    var p, through := db.plans[db.cursor.value.plan], CommittedThrough(db.cursor.value);
    StampErrorIff(db, p.steps, through);
    ThroughIsCommitted(db);
    forall i: nat | i < through
      ensures StampOf(db, p.steps[i]) == p.steps[i].sha <==> OwnOrAbsent(db.origin, p.steps[i])
    {
      CommittedStamp(db, i);
    }
  }

  lemma PlanInFlight(db: Db)
    requires Inv(db) && InFlight(db)
    ensures db.cursor.Some? && db.cursor.value.plan in db.plans
    ensures var p := db.plans[db.cursor.value.plan];
      && p.hash == db.cursor.value.plan && Committed(db, p.hash) <= |p.steps|
      && (forall i :: 0 <= i < |p.steps| ==> p.steps[i].index == i && p.steps[i].sha != "")
      && (StampsPass(db) <==> StampError(db, p.steps, CommittedThrough(db.cursor.value)).None?)
  {
    InFlightFacts(db);
    StepsAreIndexed(db.plans[db.cursor.value.plan]);
    hide StampError, PlanLog, ReceiptsOk, LogsOk, SeenOk, ProgressOk, PendingOk, OriginOk, FingerprintOk;
  }

  lemma ThroughIsCommitted(db: Db)
    requires Inv(db) && InFlight(db)
    ensures CommittedThrough(db.cursor.value) <= Committed(db, db.cursor.value.plan)
  {
    hide ReceiptsOk, OnceOnly, ProgressOk, PendingOk, FingerprintOk, OriginOk, SeenOk;
    var p := db.plans[db.cursor.value.plan];
    assert p.steps != [] ==> p.steps[|p.steps| - 1].index == |p.steps| - 1;
  }

  lemma StepsAreIndexed(p: Plan)
    requires WellFormedPlan(p)
    ensures forall i :: 0 <= i < |p.steps| ==> p.steps[i].index == i && p.steps[i].sha != ""
  {
  }

  // ---------------------------------------------------------------- the shapes of a dispatch

  lemma RecordedIsWith(w: World, f: Fingerprint)
    ensures RecordFingerprint(w, f).Some? ==> RecordFingerprint(w, f).value.db == WithFingerprint(w.db, f)
  {
  }

  ghost function AtFinalizing(db: Db, p: Plan): Db {
    WithCursor(db, p.hash, Finalizing, LastStepIndex(p), LastStepId(p))
  }

  ghost function AtComplete(db: Db, b: Binary, p: Plan): Db {
    WithCursor(WithFingerprint(AtFinalizing(db, p), ExpectedFingerprint(b)), p.hash, Complete, LastStepIndex(p), LastStepId(p))
  }

  // However far a finalizer gets.
  lemma FinalizeShapes(w: World, b: Binary, p: Plan)
    ensures var db := Finalize(w, b, p).0.db;
      || db == w.db
      || db == AtFinalizing(w.db, p)
      || db == WithFingerprint(AtFinalizing(w.db, p), ExpectedFingerprint(b))
      || db == AtComplete(w.db, b, p)
  {
    hide TranscriptError, ExpectedFingerprint, LastStepIndex, LastStepId, WithCursor, WithFingerprint, RecordFingerprint;
    if w.credit > 0 {
      RecordedIsWith(WriteCursor(w, p, Finalizing).value, ExpectedFingerprint(b));
    }
  }

  lemma CursorCases(db: Db)
    ensures Startable(db) || Completed(db) || InFlight(db)
    ensures !(Startable(db) && Completed(db)) && !(Startable(db) && InFlight(db)) && !(Completed(db) && InFlight(db))
  {
  }

  // What a dispatch comes to, branch by branch.
  lemma DispatchOfStartable(w: World, b: Binary, o: Options)
    requires Startable(w.db)
    ensures var p := FreshPlan(w.db, b);
      Dispatch(w, b, o) ==
        if o.dryRun then (w, Deployed(p.hash, ReportedNone, [], false, |p.steps|, true))
        else if w.credit == 0 then (w, Halted(Crashed))
        else RunFrom(World(Materialized(w.db, p), w.credit - 1), b, p, 0, NoDigest, [], false)
  {
    hide RunFrom, Materialized, PlanOf, MaxVersion;
  }

  lemma DispatchOfCompleted(w: World, b: Binary, o: Options)
    requires Completed(w.db)
    ensures Dispatch(w, b, o).0 == w
  {
    hide TranscriptError;
  }

  lemma DispatchInFlight(w: World, b: Binary, o: Options)
    requires InFlight(w.db) && w.db.cursor.value.plan in w.db.plans
    ensures var db', c := Dispatch(w, b, o).0.db, w.db.cursor.value; var p := w.db.plans[c.plan];
      || db' == w.db
      || (o.abort && db' == WithCursor(w.db, c.plan, Aborted, c.stepIndex, None))
      || (!o.abort && TranscriptError(b, p.steps).None? && c.state.Finalizing? && db' == Finalize(w, b, p).0.db)
      || (!o.abort && TranscriptError(b, p.steps).None? && !c.state.Finalizing?
          && db' == RunFrom(w, b, p, CommittedThrough(c), LastReceipt(w.db, p.hash, CommittedThrough(c)), [], true).0.db)
  {
    hide RunFrom, Finalize, StampError, TranscriptError, PlanOf, LastReceipt;
  }

  // A resume that passes both checks goes on with the steps.
  lemma DispatchRuns(w: World, b: Binary, o: Options)
    requires InFlight(w.db) && !w.db.cursor.value.state.Finalizing? && w.db.cursor.value.plan in w.db.plans && !o.abort
    requires var c := w.db.cursor.value; var p := w.db.plans[c.plan];
      TranscriptError(b, p.steps).None? && StampError(w.db, p.steps, CommittedThrough(c)).None?
    ensures var c := w.db.cursor.value; var p := w.db.plans[c.plan];
      Dispatch(w, b, o)
        == RunFrom(w, b, p, CommittedThrough(c), LastReceipt(w.db, p.hash, CommittedThrough(c)), [], true)
  {
    hide RunFrom, Finalize, StampError, TranscriptError, PlanOf, LastReceipt, MaxVersion;
  }

  // ---------------------------------------------------------------- where a deploy is headed

  lemma FinalizeCompletes(db: Db, b: Binary, p: Plan, c: nat)
    requires TranscriptMatches(b, p.steps) && c >= 3
    ensures Finalize(World(db, c), b, p).1.None?
    ensures Finalize(World(db, c), b, p).0.db
         == WithCursor(WithFingerprint(db, ExpectedFingerprint(b)), p.hash, Complete, LastStepIndex(p), LastStepId(p))
  {
    hide Inv, PlanLog, TranscriptMatches, StepDone, PlanOf, MaxVersion, ExpectedFingerprint;
    TranscriptErrorIff(b, p.steps);
  }

  // The database a plan ends in: its remaining steps, the fingerprint, the complete cursor.
  ghost function EndState(db: Db, b: Binary, p: Plan, next: nat): Db
    requires next <= |p.steps|
    decreases |p.steps| - next
  {
    if next == |p.steps| then
      WithCursor(WithFingerprint(db, ExpectedFingerprint(b)), p.hash, Complete, LastStepIndex(p), LastStepId(p))
    else
      var s := p.steps[next];
      EndState(StepDone(db, p.hash, s, SqlFile(s.id, s.sha), ChainAt(p, next)), b, p, next + 1)
  }

  // Remaining steps plus three transactions suffice, and then the outcome is `complete`.
  lemma {:induction false} RunFromCompletes(db: Db, b: Binary, p: Plan, next: nat, applied: seq<nat>, resumed: bool, c: nat)
    requires next <= |p.steps| && TranscriptMatches(b, p.steps) && c >= |p.steps| - next + 3
    ensures var r := RunFrom(World(db, c), b, p, next, ChainAt(p, next), applied, resumed);
      r.0.db == EndState(db, b, p, next) && r.1.Deployed? && r.1.state == ReportedComplete
    decreases |p.steps| - next
  {
    hide Finalize, StepDone, Resolve, WithFingerprint, WithCursor, ExpectedFingerprint, LastStepIndex, LastStepId;
    if next == |p.steps| {
      FinalizeCompletes(db, b, p, c);
    } else {
      var s := p.steps[next];
      ResolvedName(b, s);
      var file := Resolve(b, s.role, s.id).value;
      assert file == SqlFile(s.id, s.sha);
      RunFromCompletes(StepDone(db, p.hash, s, file, ChainAt(p, next)), b, p, next + 1, applied + [s.index], resumed, c - 1);
    }
  }

  const GO := Options(false, false)

  lemma GoNeitherTriesNorAborts()
    ensures !GO.dryRun && !GO.abort
  {
  }

  // Where a deploy is headed: the end state of the plan in flight, of a fresh plan, or itself.
  ghost function Destination(db: Db, b: Binary): Db
    requires Inv(db) && ValidBinary(b)
  {
    if InFlight(db) then
      var p := db.plans[db.cursor.value.plan];
      EndState(db, b, p, Committed(db, p.hash))
    else if LoadCursor(db).Some? && db.cursor.value.state.Complete? then db
    else
      var p := FreshPlan(db, b);
      EndState(Materialized(db, p), b, p, 0)
  }

  ghost function Remaining(db: Db, b: Binary): nat
    requires Inv(db)
  {
    if InFlight(db) then |db.plans[db.cursor.value.plan].steps| - Committed(db, db.cursor.value.plan)
    else |FreshPlan(db, b).steps| + 1
  }

  // The running binary agrees with the plan in flight, if there is one.
  ghost predicate Agrees(db: Db, b: Binary) {
    LoadCursor(db).Some? && !db.cursor.value.state.Aborted? && db.cursor.value.plan in db.plans ==>
      TranscriptMatches(b, db.plans[db.cursor.value.plan].steps)
  }

  // In every reachable state, given enough transactions, the dispatch of a binary that agrees with
  // the stored bytes, over stamps that pass, reaches the destination and reports `complete`.
  lemma DispatchCompletes(db: Db, b: Binary, c: nat)
    requires Inv(db) && ValidBinary(b) && Agrees(db, b) && StampsPass(db) && c >= Remaining(db, b) + 3
    ensures Dispatch(World(db, c), b, GO).0.db == Destination(db, b)
    ensures Dispatch(World(db, c), b, GO).1.Deployed? && Dispatch(World(db, c), b, GO).1.state == ReportedComplete
  {
    hide *;
    CursorCases(db);
    GoNeitherTriesNorAborts();
    if Startable(db) {
      StartCompletes(db, b, c);
    } else if InFlight(db) {
      ResumeCompletes(db, b, c);
    } else {
      CompletedCompletes(db, b, c);
    }
  }

  lemma StartCompletes(db: Db, b: Binary, c: nat)
    requires Inv(db) && ValidBinary(b) && Startable(db) && c >= Remaining(db, b) + 3
    ensures Dispatch(World(db, c), b, GO).0.db == Destination(db, b)
    ensures Dispatch(World(db, c), b, GO).1.Deployed? && Dispatch(World(db, c), b, GO).1.state == ReportedComplete
  {
    hide Inv, RunFrom, EndState, PlanSteps, ValidBinary, Dispatch, Materialized, TranscriptMatches, MaxVersion;
    var p := FreshPlan(db, b);
    CursorCases(db);
    DispatchOfStartable(World(db, c), b, GO);
    OwnPlanMatches(b, MaxVersion(db.bundles.Keys), db.substrate);
    RunFromCompletes(Materialized(db, p), b, p, 0, [], false, c - 1);
  }

  lemma ResumeCompletes(db: Db, b: Binary, c: nat)
    requires Inv(db) && ValidBinary(b) && Agrees(db, b) && StampsPass(db) && InFlight(db) && c >= Remaining(db, b) + 3
    ensures Dispatch(World(db, c), b, GO).0.db == Destination(db, b)
    ensures Dispatch(World(db, c), b, GO).1.Deployed? && Dispatch(World(db, c), b, GO).1.state == ReportedComplete
  {
    hide Inv, RunFrom, Finalize, ValidBinary, TranscriptError, TranscriptMatches, StampError, WithCursor, WithFingerprint, StepDone;
    InFlightFacts(db);
    var cur := db.cursor.value;
    var p := db.plans[cur.plan];
    TranscriptErrorIff(b, p.steps);
    if cur.state.Finalizing? {
      FinalizeCompletes(db, b, p, c);
    } else {
      ResumePoint(db);
      RunFromCompletes(db, b, p, CommittedThrough(cur), [], true, c);
    }
  }

  lemma CompletedCompletes(db: Db, b: Binary, c: nat)
    requires Inv(db) && ValidBinary(b) && Agrees(db, b) && Completed(db)
    ensures Dispatch(World(db, c), b, GO).0.db == Destination(db, b)
    ensures Dispatch(World(db, c), b, GO).1.Deployed? && Dispatch(World(db, c), b, GO).1.state == ReportedComplete
  {
    CompleteIsItsDestination(db, b);
    hide Inv, Destination, TranscriptError, TranscriptMatches, RunFrom, Finalize, ValidBinary;
    if db.cursor.value.plan in db.plans {
      TranscriptErrorIff(b, db.plans[db.cursor.value.plan].steps);
    }
  }

  // ---------------------------------------------------------------- up to the substrate

  // A database up to the executions of ensureDeploySubstrate: everything else of it.
  ghost function Core(db: Db): Db {
    db.(executed := Numbered(db.executed), deployTables := true)
  }

  lemma StepOfCore(db: Db, plan: PlanHash, s: Step, file: SqlFile, prev: Digest)
    ensures Core(StepDone(db, plan, s, file, prev)) == StepDone(Core(db), plan, s, file, prev)
  {
    hide Numbered, InsertNew, AfterDdl;
    NumberedSnoc(db.executed, Executed(ByPlan(plan), s.role, file.name.version, file.sha));
  }

  lemma {:induction false} EndStateOfCore(db: Db, b: Binary, p: Plan, next: nat)
    requires next <= |p.steps|
    ensures Core(EndState(db, b, p, next)) == EndState(Core(db), b, p, next)
    decreases |p.steps| - next
  {
    if next == |p.steps| {
      hide Numbered, ExpectedFingerprint;
    } else {
      var s := p.steps[next];
      StepOfCore(db, p.hash, s, SqlFile(s.id, s.sha), ChainAt(p, next));
      EndStateOfCore(StepDone(db, p.hash, s, SqlFile(s.id, s.sha), ChainAt(p, next)), b, p, next + 1);
      hide Core, StepDone;
    }
  }

  // Two databases with one core are headed for one core.
  lemma SameCoreSameDestination(db: Db, e: Db, b: Binary)
    requires Inv(db) && Inv(e) && ValidBinary(b) && Core(db) == Core(e)
    ensures Core(Destination(db, b)) == Core(Destination(e, b))
    ensures Remaining(db, b) == Remaining(e, b) && Agrees(db, b) == Agrees(e, b)
  {
    hide Inv, EndState, Numbered, PlanLog, PlanOf, TranscriptMatches;
    assert db.cursor == Core(db).cursor == e.cursor && db.plans == Core(db).plans == e.plans;
    assert db.substrate == Core(db).substrate == e.substrate && db.bundles == Core(db).bundles == e.bundles;
    if InFlight(db) {
      InFlightFacts(db);
      InFlightFacts(e);
      var p := db.plans[db.cursor.value.plan];
      PlanLogOfNumbered(db.executed, p.hash);
      PlanLogOfNumbered(e.executed, p.hash);
      EndStateOfCore(db, b, p, Committed(db, p.hash));
      EndStateOfCore(e, b, p, Committed(e, p.hash));
    } else {
      var p := FreshPlan(db, b);
      EndStateOfCore(Materialized(db, p), b, p, 0);
      EndStateOfCore(Materialized(e, p), b, p, 0);
      assert Core(Materialized(db, p)) == Core(Materialized(e, p));
    }
  }

  lemma PreparedFrame(db: Db, b: Binary)
    requires HasSubstrate(b)
    ensures var e := Prepared(db, b);
      && e == db.(executed := e.executed, deployTables := true) && Core(e) == Core(db)
      && InFlight(e) == InFlight(db) && LoadCursor(e) == LoadCursor(db) && Startable(e) == Startable(db)
  {
    hide Numbered, Find;
    NumberedSnoc(db.executed, Executed(BySubstrate, Runtime, SUBSTRATE_FILE.version, SubstrateFile(b).value.sha));
  }

  lemma PreparedStamps(db: Db, e: Db)
    requires Inv(db) && Inv(e) && e == db.(executed := e.executed, deployTables := true)
    ensures StampsPass(e) <==> StampsPass(db)
  {
    hide Inv, StampError;
    if InFlight(db) {
      InFlightFacts(db);
      SameStampError(db, e, db.plans[db.cursor.value.plan].steps, CommittedThrough(db.cursor.value));
    }
  }

  lemma PreparedIsTheSame(db: Db, b: Binary)
    requires Inv(db) && ValidBinary(b) && HasSubstrate(b)
    ensures var e := Prepared(db, b);
      && Inv(e) && e == db.(executed := e.executed, deployTables := true) && Core(e) == Core(db)
      && InFlight(e) == InFlight(db) && Startable(e) == Startable(db)
      && Agrees(e, b) == Agrees(db, b) && Remaining(e, b) == Remaining(db, b) && StampsPass(e) == StampsPass(db)
      && Core(Destination(e, b)) == Core(Destination(db, b))
  {
    SubstrateKept(db, b);
    hide *;
    PreparedFrame(db, b);
    PreparedStamps(db, Prepared(db, b));
    SameCoreSameDestination(Prepared(db, b), db, b);
  }

  lemma SubstrateKept(db: Db, b: Binary)
    requires Inv(db) && HasSubstrate(b)
    ensures Inv(Prepared(db, b))
  {
    hide Inv, Find;
    SubstrateKeepsInv(db, SubstrateFile(b).value);
  }

  lemma {:induction false} SameStampError(db: Db, db': Db, steps: seq<Step>, through: nat)
    requires forall i :: 0 <= i < |steps| && steps[i].index < through ==> StampOf(db, steps[i]) == StampOf(db', steps[i])
    ensures StampError(db, steps, through) == StampError(db', steps, through)
    decreases |steps|
  {
    if steps != [] {
      assert forall i :: 0 <= i < |steps[1..]| ==> steps[1..][i] == steps[i + 1];
      SameStampError(db, db', steps[1..], through);
    }
  }

  // In every reachable state, a deploy allowed enough transactions reports `complete` exactly when
  // the binary agrees with the stored bytes and the committed stamps pass, and then it has reached
  // the destination.
  lemma DeployCompletesIff(db: Db, b: Binary, c: nat)
    requires Inv(db) && ValidBinary(b) && HasSubstrate(b) && c >= Remaining(db, b) + 4
    ensures var (w, r) := Apply(World(db, c), b, GO);
      && (r.Deployed? && r.state == ReportedComplete <==> Agrees(db, b) && StampsPass(db))
      && (Agrees(db, b) && StampsPass(db) ==> Core(w.db) == Core(Destination(db, b)))
      && (!(Agrees(db, b) && StampsPass(db)) ==> r.Halted? && w.db == Prepared(db, b))
  {
    hide *;
    PreparedIsTheSame(db, b);
    ApplyIsDispatch(db, b, GO, c);
    if Agrees(db, b) && StampsPass(db) {
      DispatchCompletes(Prepared(db, b), b, c - 1);
    } else {
      DispatchRefuses(Prepared(db, b), b, c - 1);
    }
  }

  lemma ApplyIsDispatch(db: Db, b: Binary, o: Options, c: nat)
    requires HasSubstrate(b) && c > 0
    ensures Apply(World(db, c), b, o) == Dispatch(World(Prepared(db, b), c - 1), b, o)
  {
    hide Dispatch;
  }

  lemma DispatchRefuses(db: Db, b: Binary, c: nat)
    requires Inv(db) && !(Agrees(db, b) && StampsPass(db))
    ensures Dispatch(World(db, c), b, GO).0.db == db && Dispatch(World(db, c), b, GO).1.Halted?
  {
    hide *;
    CursorCases(db);
    GoNeitherTriesNorAborts();
    if InFlight(db) {
      PlanInFlight(db);
      var p := db.plans[db.cursor.value.plan];
      TranscriptErrorIff(b, p.steps);
      if Agrees(db, b) {
        AgreeingPlan(db, b);
        DispatchRefusesResume(World(db, c), b, GO);
      } else {
        DisagreeingPlan(db, b);
        DispatchRefusesResume(World(db, c), b, GO);
      }
    } else {
      StampsPassElsewhere(db);
      DisagreeingCompleted(db, b);
      TranscriptErrorIff(b, db.plans[db.cursor.value.plan].steps);
      DispatchRefusesNoOp(World(db, c), b, GO);
    }
  }

  lemma AgreeingPlan(db: Db, b: Binary)
    requires InFlight(db) && db.cursor.value.plan in db.plans && Agrees(db, b)
    ensures TranscriptMatches(b, db.plans[db.cursor.value.plan].steps)
  {
    hide TranscriptMatches;
  }

  lemma DisagreeingPlan(db: Db, b: Binary)
    requires InFlight(db) && !Agrees(db, b)
    ensures db.cursor.value.plan in db.plans && !TranscriptMatches(b, db.plans[db.cursor.value.plan].steps)
  {
    hide TranscriptMatches;
  }

  lemma DisagreeingCompleted(db: Db, b: Binary)
    requires !Agrees(db, b) && !InFlight(db)
    ensures Completed(db) && db.cursor.Some? && db.cursor.value.plan in db.plans
    ensures !TranscriptMatches(b, db.plans[db.cursor.value.plan].steps)
  {
    hide TranscriptMatches;
  }

  lemma StampsPassElsewhere(db: Db)
    requires Inv(db) && !InFlight(db)
    ensures StampsPass(db)
  {
    hide Inv, StampError;
  }

  lemma DispatchRefusesResume(w: World, b: Binary, o: Options)
    requires InFlight(w.db) && w.db.cursor.value.plan in w.db.plans && !o.abort
    requires var c := w.db.cursor.value; var p := w.db.plans[c.plan];
      TranscriptError(b, p.steps).Some? || StampError(w.db, p.steps, CommittedThrough(c)).Some?
    ensures Dispatch(w, b, o).0 == w && Dispatch(w, b, o).1.Halted?
  {
    hide RunFrom, Finalize, StampError, TranscriptError, PlanOf, LastReceipt, MaxVersion;
  }

  lemma DispatchRefusesNoOp(w: World, b: Binary, o: Options)
    requires Completed(w.db) && w.db.cursor.value.plan in w.db.plans
    requires TranscriptError(b, w.db.plans[w.db.cursor.value.plan].steps).Some?
    ensures Dispatch(w, b, o).0 == w && Dispatch(w, b, o).1.Halted?
  {
    hide RunFrom, Finalize, StampError, TranscriptError, PlanOf, LastReceipt, MaxVersion;
  }

  // ---------------------------------------------------------------- crash, resume, same end

  lemma FinalizeKeepsDestination(w: World, b: Binary, p: Plan)
    requires Inv(w.db) && ValidBinary(b) && p.hash in w.db.plans && w.db.plans[p.hash] == p && Committed(w.db, p.hash) == |p.steps|
    requires TranscriptMatches(b, p.steps) && InFlight(w.db) && w.db.cursor.value.plan == p.hash
    ensures var db' := Finalize(w, b, p).0.db;
      Inv(db') && Agrees(db', b) && Destination(db', b) == EndState(w.db, b, p, |p.steps|)
  {
    hide Inv, Destination, EndState, Agrees, TranscriptMatches, Finalize;
    FinalizeKeepsInv(w, b, p);
    FinalizeEndsThere(w, b, p);
  }

  // A deploy in flight with every step committed is headed for the same end, whatever its cursor
  // state and recorded fingerprint.
  lemma EndsFromHere(db: Db, db': Db, b: Binary, p: Plan)
    requires Inv(db') && ValidBinary(b) && InFlight(db')
    requires db'.cursor.value.plan == p.hash && p.hash in db'.plans && db'.plans[p.hash] == p && Committed(db', p.hash) == |p.steps|
    requires Finalized(db, db', b, p)
    requires TranscriptMatches(b, p.steps)
    ensures Agrees(db', b) && Destination(db', b) == EndState(db, b, p, |p.steps|)
  {
    hide Inv, PlanLog, TranscriptMatches, StepDone, PlanOf, MaxVersion, ExpectedFingerprint, Committed;
  }

  lemma FinalizeEndsThere(w: World, b: Binary, p: Plan)
    requires Inv(w.db) && Inv(Finalize(w, b, p).0.db)
    requires ValidBinary(b) && p.hash in w.db.plans && w.db.plans[p.hash] == p && Committed(w.db, p.hash) == |p.steps|
    requires TranscriptMatches(b, p.steps) && InFlight(w.db) && w.db.cursor.value.plan == p.hash
    ensures var db' := Finalize(w, b, p).0.db;
      Agrees(db', b) && Destination(db', b) == EndState(w.db, b, p, |p.steps|)
  {
    hide *;
    var db' := Finalize(w, b, p).0.db;
    FinalizeFrame(w, b, p);
    FinalizedKeeps(w.db, db', b, p);
    if InFlight(db') {
      EndsFromHere(w.db, db', b, p);
    } else {
      CompleteAgrees(db', b, p);
      CompleteIsThere(w.db, b, p);
    }
  }

  // Only the cursor and the fingerprint differ.
  ghost predicate Finalized(db: Db, db': Db, b: Binary, p: Plan) {
    && db' == db.(cursor := db'.cursor, schemaState := db'.schemaState)
    && (db'.schemaState == db.schemaState || db'.schemaState == WithFingerprint(db, ExpectedFingerprint(b)).schemaState)
    && db'.cursor.Some? && db'.cursor.value.plan == p.hash
  }

  lemma FinalizingIsFinalized(db: Db, b: Binary, p: Plan)
    ensures var e := AtFinalizing(db, p); Finalized(db, e, b, p) && InFlight(e)
    ensures var e := WithFingerprint(AtFinalizing(db, p), ExpectedFingerprint(b)); Finalized(db, e, b, p) && InFlight(e)
  {
    hide ExpectedFingerprint, LastStepIndex, LastStepId;
  }

  lemma CompleteIsFinalized(db: Db, b: Binary, p: Plan)
    ensures Finalized(db, AtComplete(db, b, p), b, p)
  {
    hide ExpectedFingerprint, LastStepIndex, LastStepId;
  }

  lemma FinalizeFrame(w: World, b: Binary, p: Plan)
    requires InFlight(w.db) && w.db.cursor.value.plan == p.hash
    ensures var db' := Finalize(w, b, p).0.db;
      Finalized(w.db, db', b, p) && (InFlight(db') || db' == AtComplete(w.db, b, p))
  {
    FinalizedItself(w.db, b, p);
    hide *;
    FinalizeShapes(w, b, p);
    FinalizingIsFinalized(w.db, b, p);
    CompleteIsFinalized(w.db, b, p);
  }

  lemma FinalizedItself(db: Db, b: Binary, p: Plan)
    requires InFlight(db) && db.cursor.value.plan == p.hash
    ensures Finalized(db, db, b, p)
  {
    hide WithFingerprint;
  }

  lemma FinalizedKeeps(db: Db, db': Db, b: Binary, p: Plan)
    requires Finalized(db, db', b, p)
    ensures db'.plans == db.plans && db'.origin == db.origin && Committed(db', p.hash) == Committed(db, p.hash)
    ensures db'.cursor.Some? && db'.cursor.value.plan == p.hash
  {
    hide PlanLog, WithFingerprint, ExpectedFingerprint;
  }

  lemma CompleteIsThere(db: Db, b: Binary, p: Plan)
    requires Inv(AtComplete(db, b, p)) && ValidBinary(b)
    ensures Destination(AtComplete(db, b, p), b) == EndState(db, b, p, |p.steps|)
  {
    hide *;
    EndStateOfNoSteps(db, b, p);
    CompleteIsItsDestination(AtComplete(db, b, p), b);
  }

  lemma EndStateOfNoSteps(db: Db, b: Binary, p: Plan)
    ensures EndState(db, b, p, |p.steps|) == AtComplete(db, b, p) && Completed(AtComplete(db, b, p))
  {
    hide WithCursor, WithFingerprint, AtComplete, Completed, AtFinalizing, ExpectedFingerprint, LastStepIndex,
         LastStepId, StepDone, ChainAt;
    AtCompleteIs(db, b, p);
  }

  lemma AtCompleteIs(db: Db, b: Binary, p: Plan)
    ensures AtComplete(db, b, p)
         == WithCursor(WithFingerprint(db, ExpectedFingerprint(b)), p.hash, Complete, LastStepIndex(p), LastStepId(p))
    ensures Completed(AtComplete(db, b, p))
  {
    hide WithFingerprint, ExpectedFingerprint, LastStepIndex, LastStepId;
    FingerprintOverCursor(db, ExpectedFingerprint(b), Some(CursorRow(p.hash, Finalizing, LastStepIndex(p), LastStepId(p))));
  }

  lemma FingerprintOverCursor(db: Db, f: Fingerprint, c: Option<CursorRow>)
    ensures WithFingerprint(db.(cursor := c), f) == WithFingerprint(db, f).(cursor := c)
  {
    if db.schemaState.NoTable? {
      assert WithFingerprint(db.(cursor := c), f) == db.(cursor := c);
    } else {
      assert WithFingerprint(db.(cursor := c), f) == db.(cursor := c, schemaState := Recorded(f));
    }
  }

  lemma CompleteIsItsDestination(db: Db, b: Binary)
    requires Inv(db) && ValidBinary(b) && Completed(db)
    ensures Destination(db, b) == db
  {
    hide Inv, ValidBinary, EndState, PlanOf, Materialized;
  }

  lemma CompleteAgrees(db: Db, b: Binary, p: Plan)
    requires TranscriptMatches(b, p.steps) && db.cursor.Some? && db.cursor.value.plan == p.hash
    requires p.hash in db.plans && db.plans[p.hash] == p
    ensures Agrees(db, b)
  {
    hide TranscriptMatches;
  }

  lemma DestinationOf(db: Db, b: Binary, p: Plan, next: nat)
    requires At(db, p, next) && ValidBinary(b) && TranscriptMatches(b, p.steps)
    ensures Agrees(db, b) && Destination(db, b) == EndState(db, b, p, next)
  {
    hide Inv, EndState;
  }

  lemma {:induction false} RunFromKeepsDestination(w: World, b: Binary, p: Plan, next: nat, applied: seq<nat>, resumed: bool)
    requires At(w.db, p, next) && ValidBinary(b) && TranscriptMatches(b, p.steps)
    ensures var db' := RunFrom(w, b, p, next, ChainAt(p, next), applied, resumed).0.db;
      Inv(db') && Agrees(db', b) && Destination(db', b) == EndState(w.db, b, p, next)
    decreases |p.steps| - next
  {
    hide Inv, StepDone, Destination, Agrees, Finalize;
    if next == |p.steps| {
      FinalizeKeepsDestination(w, b, p);
    } else {
      ResolvedName(b, p.steps[next]);
      if w.credit > 0 {
        var s := p.steps[next];
        var file := Resolve(b, s.role, s.id).value;
        assert file == SqlFile(s.id, s.sha);
        StepKeepsInv(w.db, p, next, file);
        RunFromKeepsDestination(World(StepDone(w.db, p.hash, s, file, ChainAt(p, next)), w.credit - 1), b, p, next + 1,
                                applied + [s.index], resumed);
      } else {
        DestinationOf(w.db, b, p, next);
      }
    }
  }

  // A dispatch that dies after any number of transactions has not moved its destination, whether
  // or not the stamps would let it finish.
  lemma DispatchKeepsDestination(db: Db, b: Binary, crashAfter: nat)
    requires Inv(db) && ValidBinary(b) && Agrees(db, b)
    ensures var db' := Dispatch(World(db, crashAfter), b, GO).0.db;
      Inv(db') && Agrees(db', b) && Destination(db', b) == Destination(db, b)
  {
    hide *;
    CursorCases(db);
    GoNeitherTriesNorAborts();
    if Startable(db) {
      DispatchOfStartable(World(db, crashAfter), b, GO);
      if crashAfter > 0 {
        StartKeepsDestination(db, b, crashAfter - 1);
      }
    } else if InFlight(db) {
      PlanInFlight(db);
      DispatchInFlight(World(db, crashAfter), b, GO);
      ResumeKeepsDestination(World(db, crashAfter), b);
    } else {
      DispatchOfCompleted(World(db, crashAfter), b, GO);
    }
  }

  lemma StartKeepsDestination(db: Db, b: Binary, c: nat)
    requires Inv(db) && ValidBinary(b) && Startable(db)
    ensures var p := FreshPlan(db, b); var db' := RunFrom(World(Materialized(db, p), c), b, p, 0, NoDigest, [], false).0.db;
      Inv(db') && Agrees(db', b) && Destination(db', b) == Destination(db, b)
  {
    hide Inv, RunFrom, EndState, PlanSteps, TranscriptMatches, Agrees, Materialized;
    var p := FreshPlan(db, b);
    MaterializedIsAtZero(db, b);
    OwnPlanMatches(b, MaxVersion(db.bundles.Keys), db.substrate);
    RunFromKeepsDestination(World(Materialized(db, p), c), b, p, 0, [], false);
  }

  lemma ResumeKeepsDestination(w: World, b: Binary)
    requires Inv(w.db) && ValidBinary(b) && Agrees(w.db, b) && InFlight(w.db)
    ensures var c := w.db.cursor.value;
      && c.plan in w.db.plans
      && var p := w.db.plans[c.plan];
         var db' := if c.state.Finalizing? then Finalize(w, b, p).0.db
                    else RunFrom(w, b, p, CommittedThrough(c), LastReceipt(w.db, p.hash, CommittedThrough(c)), [], true).0.db;
         Inv(db') && Agrees(db', b) && Destination(db', b) == Destination(w.db, b)
  {
    hide Inv, RunFrom, Finalize, EndState, TranscriptMatches;
    InFlightFacts(w.db);
    var c := w.db.cursor.value;
    if c.state.Finalizing? {
      FinalizeKeepsDestination(w, b, w.db.plans[c.plan]);
    } else {
      ResumePoint(w.db);
      RunFromKeepsDestination(w, b, w.db.plans[c.plan], CommittedThrough(c), [], true);
    }
  }

  // A deploy that dies after any number of transactions has not moved its destination.
  lemma CrashKeepsDestination(db: Db, b: Binary, crashAfter: nat)
    requires Inv(db) && ValidBinary(b) && Agrees(db, b)
    ensures var db' := Apply(World(db, crashAfter), b, GO).0.db;
      Inv(db') && Agrees(db', b) && Core(Destination(db', b)) == Core(Destination(db, b))
  {
    hide Inv, Dispatch, Destination, Agrees, Core, Prepared;
    if HasSubstrate(b) && crashAfter > 0 {
      PreparedIsTheSame(db, b);
      DispatchKeepsDestination(Prepared(db, b), b, crashAfter - 1);
      SameCoreSameDestination(Prepared(db, b), db, b);
    }
  }

  // ---------------------------------------------------------------- plans and origins persist

  // The same deploy, in flight or complete.
  ghost predicate SameDeploy(db: Db, db': Db, h: PlanHash) {
    && db'.origin == db.origin && db'.plans == db.plans
    && db'.cursor.Some? && db'.cursor.value.plan == h
    && (InFlight(db') || Completed(db'))
  }

  lemma FinalizeStays(w: World, b: Binary, p: Plan)
    requires InFlight(w.db) && w.db.cursor.value.plan == p.hash
    ensures SameDeploy(w.db, Finalize(w, b, p).0.db, p.hash)
  {
    FinalizeFrame(w, b, p);
    hide Finalize, ExpectedFingerprint;
  }

  lemma {:induction false} RunFromStays(w: World, b: Binary, p: Plan, next: nat, prev: Digest, applied: seq<nat>, resumed: bool)
    requires InFlight(w.db) && w.db.cursor.value.plan == p.hash
    ensures SameDeploy(w.db, RunFrom(w, b, p, next, prev, applied, resumed).0.db, p.hash)
    decreases |p.steps| - next
  {
    hide Finalize, Resolve, InsertNew, AfterDdl;
    if next >= |p.steps| {
      FinalizeStays(w, b, p);
    } else {
      var s := p.steps[next];
      var file := Resolve(b, s.role, s.id);
      if file.Some? && w.credit > 0 {
        RunFromStays(World(StepDone(w.db, p.hash, s, file.value, prev), w.credit - 1), b, p, next + 1,
                     LinkOf(prev, p.hash, s), applied + [s.index], resumed);
      }
    }
  }

  // A dispatch that writes goes on with the cursor's plan and its origin, or starts a fresh plan,
  // whose origin is the stamps it finds, or aborts.
  ghost predicate Continues(db: Db, db': Db) {
    InFlight(db) && SameDeploy(db, db', db.cursor.value.plan)
  }

  ghost predicate Starts(db: Db, db': Db, b: Binary) {
    Startable(db) && SameDeploy(Materialized(db, FreshPlan(db, b)), db', FreshPlan(db, b).hash)
  }

  ghost predicate Aborts(db: Db, db': Db) {
    && InFlight(db)
    && db' == WithCursor(db, db.cursor.value.plan, Aborted, db.cursor.value.stepIndex, None)
  }

  lemma StartableStarts(w: World, b: Binary, o: Options)
    requires Startable(w.db)
    ensures Dispatch(w, b, o).0.db == w.db || Starts(w.db, Dispatch(w, b, o).0.db, b)
  {
    DispatchOfStartable(w, b, o);
    hide Dispatch, RunFrom, PlanOf, InsertNew, MaxVersion, Startable, SameDeploy;
    if !o.dryRun && w.credit > 0 {
      var p := FreshPlan(w.db, b);
      RunFromStays(World(Materialized(w.db, p), w.credit - 1), b, p, 0, NoDigest, [], false);
    }
  }

  lemma InFlightContinues(w: World, b: Binary, o: Options)
    requires Inv(w.db) && InFlight(w.db)
    ensures var db' := Dispatch(w, b, o).0.db;
      db' == w.db || Continues(w.db, db') || (o.abort && Aborts(w.db, db'))
  {
    PlanInFlight(w.db);
    DispatchInFlight(w, b, o);
    hide Inv, Dispatch, RunFrom, Finalize, LastReceipt, CommittedThrough, SameDeploy, WithCursor;
    var c := w.db.cursor.value;
    var p := w.db.plans[c.plan];
    RunFromStays(w, b, p, CommittedThrough(c), LastReceipt(w.db, p.hash, CommittedThrough(c)), [], true);
    FinalizeStays(w, b, p);
  }

  lemma DispatchContinuesOrStarts(w: World, b: Binary, o: Options)
    requires Inv(w.db)
    ensures var db' := Dispatch(w, b, o).0.db;
      db' == w.db || Continues(w.db, db') || Starts(w.db, db', b) || (o.abort && Aborts(w.db, db'))
  {
    hide *;
    CursorCases(w.db);
    if Startable(w.db) {
      StartableStarts(w, b, o);
    } else if InFlight(w.db) {
      InFlightContinues(w, b, o);
    } else {
      DispatchOfCompleted(w, b, o);
    }
  }

  // ---------------------------------------------------------------- interrupted, uninterrupted

  // The plan a deploy would go on with, or build, finds no stamp of other bytes.
  ghost predicate Clear(db: Db, b: Binary)
    requires Inv(db)
  {
    if InFlight(db) then StaleFree(db.origin, db.plans[db.cursor.value.plan])
    else if Startable(db) then StaleFree(db.migrations, FreshPlan(db, b))
    else true
  }

  lemma ClearPasses(db: Db, b: Binary)
    requires Inv(db) && Clear(db, b)
    ensures StampsPass(db)
  {
    if InFlight(db) {
      StampsPassIff(db);
    }
  }

  lemma CrashKeepsClear(db: Db, b: Binary, crashAfter: nat)
    requires Inv(db) && ValidBinary(b) && Clear(db, b)
    ensures var db' := Apply(World(db, crashAfter), b, GO).0.db; Inv(db') && Clear(db', b)
  {
    hide *;
    ApplyKeepsInv(World(db, crashAfter), b, GO);
    if HasSubstrate(b) && crashAfter > 0 {
      ApplyIsDispatch(db, b, GO, crashAfter);
      PreparedIsTheSame(db, b);
      PreparedIsClear(db, b);
      DispatchKeepsInv(World(Prepared(db, b), crashAfter - 1), b, GO);
      DispatchKeepsClear(Prepared(db, b), b, crashAfter - 1);
    } else {
      ApplyIsNothing(db, b, GO, crashAfter);
    }
  }

  lemma ApplyIsNothing(db: Db, b: Binary, o: Options, c: nat)
    requires !(HasSubstrate(b) && c > 0)
    ensures Apply(World(db, c), b, o).0 == World(db, c)
    ensures Apply(World(db, c), b, o).1.Halted?
  {
    hide Dispatch, HasSubstrate;
  }

  lemma PreparedIsClear(db: Db, b: Binary)
    requires Inv(db) && HasSubstrate(b) && Inv(Prepared(db, b)) && Clear(db, b)
    ensures Clear(Prepared(db, b), b)
  {
    hide Inv, StaleFree, PlanOf;
  }

  lemma DispatchKeepsClear(db: Db, b: Binary, c: nat)
    requires Inv(db) && ValidBinary(b) && Clear(db, b) && Inv(Dispatch(World(db, c), b, GO).0.db)
    ensures Clear(Dispatch(World(db, c), b, GO).0.db, b)
  {
    hide *;
    var db' := Dispatch(World(db, c), b, GO).0.db;
    GoNeitherTriesNorAborts();
    DispatchContinuesOrStarts(World(db, c), b, GO);
    if Continues(db, db') {
      ContinuingKeepsClear(db, db', b);
    } else if Starts(db, db', b) {
      StartingKeepsClear(db, db', b);
    }
  }

  lemma ContinuingKeepsClear(db: Db, db': Db, b: Binary)
    requires Inv(db) && Inv(db') && Clear(db, b) && Continues(db, db')
    ensures Clear(db', b)
  {
    CursorCases(db');
    hide Inv, StaleFree, PlanOf, Startable;
  }

  lemma StartingKeepsClear(db: Db, db': Db, b: Binary)
    requires Inv(db) && Inv(db') && ValidBinary(b) && Clear(db, b) && Starts(db, db', b)
    ensures Clear(db', b)
  {
    FreshPlanIsUnstarted(db, b);
    CursorCases(db');
    CursorCases(db);
    hide Inv, StaleFree, PlanOf, Startable, WellFormedPlan, Committed;
  }

  // Each entry is the credit of one deploy process.
  ghost function DeployAttempts(db: Db, b: Binary, credits: seq<nat>): Db
    decreases |credits|
  {
    if credits == [] then db
    else DeployAttempts(Apply(World(db, credits[0]), b, GO).0.db, b, credits[1..])
  }

  // However often a deploy is interrupted, the attempt that is allowed to finish reports `complete`
  // and leaves the database (stamps, receipts, cursor, fingerprint and numbered history) exactly as
  // one uninterrupted deploy would have; only migration 44 has run once per attempt.
  lemma {:induction false} InterruptedEqualsUninterrupted(db: Db, b: Binary, credits: seq<nat>, c: nat, c': nat)
    requires Inv(db) && ValidBinary(b) && HasSubstrate(b) && Agrees(db, b) && Clear(db, b)
    requires c >= Remaining(db, b) + 4
    ensures var crashed := DeployAttempts(db, b, credits);
      && Inv(crashed)
      && (c' >= Remaining(crashed, b) + 4 ==>
            && Core(Apply(World(crashed, c'), b, GO).0.db) == Core(Apply(World(db, c), b, GO).0.db)
            && Apply(World(crashed, c'), b, GO).1.Deployed?
            && Apply(World(crashed, c'), b, GO).1.state == ReportedComplete)
    decreases |credits|
  {
    hide Inv, Apply, Agrees, Clear, Core, Destination, Remaining;
    CompletesAtDestination(db, b, c);
    if credits == [] {
      if c' >= Remaining(db, b) + 4 {
        CompletesAtDestination(db, b, c');
      }
    } else {
      CrashKeepsDestination(db, b, credits[0]);
      CrashKeepsClear(db, b, credits[0]);
      var db' := Apply(World(db, credits[0]), b, GO).0.db;
      var c1 := Remaining(db', b) + 4;
      CompletesAtDestination(db', b, c1);
      InterruptedEqualsUninterrupted(db', b, credits[1..], c1, c');
    }
  }

  lemma CompletesAtDestination(db: Db, b: Binary, c: nat)
    requires Inv(db) && ValidBinary(b) && HasSubstrate(b) && Agrees(db, b) && Clear(db, b) && c >= Remaining(db, b) + 4
    ensures var (w, r) := Apply(World(db, c), b, GO);
      Core(w.db) == Core(Destination(db, b)) && r.Deployed? && r.state == ReportedComplete
  {
    ClearPasses(db, b);
    DeployCompletesIff(db, b, c);
    PreparedIsTheSame(db, b);
    hide Inv, Apply, Agrees, Clear, Core, Destination, Remaining, Prepared;
    SameCoreSameDestination(Prepared(db, b), db, b);
  }
}
