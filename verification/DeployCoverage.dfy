/**
  Runs by one binary: deploys, crashes, aborts, redeploys and boots in any order. What lies between
  the original watermarks and the current ones has been executed, and a complete cursor means all of
  it has.
 */
module DeployCoverage {
  import opened Wrappers
  import opened DeployPlan
  import opened DeployDatabase
  import opened DeployApply
  import opened DeployInvariant
  import opened Migrations
  import opened BootGate
  import opened DeployRuns
  import opened DeployResume

  ghost predicate Ran(log: seq<Executed>, role: Role, f: SqlFile) {
    exists e :: e in log && !e.via.BySubstrate? && e.role == role && e.version == f.name.version && e.sha == f.sha
  }

  // Every process runs this binary and reads the true watermark.
  ghost predicate RunBy(base: Db, b: Binary, events: seq<Event>) {
    ValidEvents(base, events) && forall i :: 0 <= i < |events| ==> events[i].b == b
  }

  ghost predicate RuntimeCovered(base: Db, db: Db, b: Binary) {
    forall f :: f in b.migrations && base.substrate < f.name.version <= db.substrate ==> Ran(db.executed, Runtime, f)
  }

  ghost predicate OwnerCovered(base: Db, db: Db, b: Binary) {
    forall f ::
      f in b.bundles && IsNonRevoke(f.name.version) && MaxVersion(base.bundles.Keys) < f.name.version <= MaxVersion(db.bundles.Keys) ==>
      Ran(db.executed, Owner, f)
  }

  ghost predicate PlansBy(db: Db, b: Binary) {
    forall h :: h in db.plans ==> db.plans[h] == PlanOf(b, h.baseOwner, h.baseRuntime)
  }

  // The original stamps are never written again, and a new one lies above the original watermark
  // and is the hash of an execution.
  ghost predicate StampsKept(base: Db, db: Db) {
    && base.substrate <= db.substrate
    && (forall v :: v in base.migrations ==> v in db.migrations && db.migrations[v] == base.migrations[v])
    && (forall v :: v in db.migrations && v !in base.migrations ==>
          v > base.substrate && RanAs(db.executed, v, db.migrations[v]))
  }

  ghost predicate RanAs(log: seq<Executed>, v: nat, sha: string) {
    exists e :: e in log && !e.via.BySubstrate? && e.role == Runtime && e.version == v && e.sha == sha
  }

  ghost predicate Covered(base: Db, db: Db, b: Binary) {
    RuntimeCovered(base, db, b) && OwnerCovered(base, db, b) && PlansBy(db, b) && StampsKept(base, db)
  }

  lemma RanMonotone(log: seq<Executed>, e: Executed, role: Role, f: SqlFile)
    requires Ran(log, role, f)
    ensures Ran(log + [e], role, f)
  {
    var x :| x in log && !x.via.BySubstrate? && x.role == role && x.version == f.name.version && x.sha == f.sha;
    assert x in log + [e];
  }

  lemma RanAsMonotone(log: seq<Executed>, e: Executed, v: nat, sha: string)
    requires RanAs(log, v, sha)
    ensures RanAs(log + [e], v, sha)
  {
    var x :| x in log && !x.via.BySubstrate? && x.role == Runtime && x.version == v && x.sha == sha;
    assert x in log + [e];
  }

  // A planned file among the first k steps of a deploy at step k has run.
  lemma PrefixRan(db: Db, p: Plan, j: nat, f: SqlFile)
    requires LogsOk(db) && p.hash in db.plans && db.plans[p.hash] == p
    requires j < Committed(db, p.hash)
    requires p.steps[j].id == f.name && p.steps[j].sha == f.sha
    ensures Ran(db.executed, p.steps[j].role, f)
  {
    assert PlanLog(db.executed, p.hash)[j] == ExecutionOf(p, j);
    PlanLogIsPart(db.executed, p.hash, j);
  }

  lemma RuntimeStepCovers(base: Db, db: Db, b: Binary, p: Plan, k: nat, f: SqlFile)
    requires ValidBinary(b) && At(db, p, k) && k < |p.steps| && p.steps[k].role.Runtime?
    requires p == PlanOf(b, p.baseOwner, p.baseRuntime) && RuntimeCovered(base, db, b)
    requires f in b.migrations && base.substrate < f.name.version <= p.steps[k].id.version
    ensures Ran(db.executed + [ExecutionOf(p, k)], Runtime, f)
  {
    hide PlanSteps, ReceiptsOk, OnceOnly, SeenOk, OriginOk, FingerprintOk;
    var e := ExecutionOf(p, k);
    if f.name.version <= db.substrate {
      RanMonotone(db.executed, e, Runtime, f);
    } else {
      RuntimeFileIsPlanned(b, p.baseOwner, p.baseRuntime, f);
      var j :| 0 <= j < |p.steps| && p.steps[j].role == Runtime && p.steps[j].id == f.name && p.steps[j].sha == f.sha;
      if j < k {
        PrefixRan(db, p, j, f);
        RanMonotone(db.executed, e, Runtime, f);
      } else {
        assert j == k by {
          if j > k {
            RuntimeStepsAscend(p, k, j);
          }
        }
        assert e in db.executed + [e];
      }
    }
  }

  lemma RuntimeStepsAscend(p: Plan, i: nat, j: nat)
    requires WellFormedPlan(p) && i < j < |p.steps| && p.steps[i].role.Runtime? && p.steps[j].role.Runtime?
    ensures p.steps[i].id.version < p.steps[j].id.version
  {
  }

  lemma OwnerStepsAscend(p: Plan, i: nat, j: nat)
    requires WellFormedPlan(p) && i < |p.steps| && j < |p.steps| && p.steps[i].role.Owner? && p.steps[j].role.Owner?
    requires IsNonRevoke(p.steps[j].id.version)
    ensures i < j ==> p.steps[i].id.version < p.steps[j].id.version
  {
  }

  lemma OwnerStepCovers(base: Db, db: Db, b: Binary, p: Plan, k: nat, f: SqlFile)
    requires ValidBinary(b) && At(db, p, k) && k < |p.steps| && p.steps[k].role.Owner?
    requires p == PlanOf(b, p.baseOwner, p.baseRuntime) && OwnerCovered(base, db, b)
    requires f in b.bundles && IsNonRevoke(f.name.version) && MaxVersion(base.bundles.Keys) < f.name.version
    requires f.name.version <= MaxVersion(db.bundles.Keys) || f.name.version <= p.steps[k].id.version
    ensures Ran(db.executed + [ExecutionOf(p, k)], Owner, f)
  {
    hide PlanSteps, ReceiptsOk, OnceOnly, SeenOk, OriginOk, FingerprintOk;
    var e := ExecutionOf(p, k);
    if f.name.version <= MaxVersion(db.bundles.Keys) {
      RanMonotone(db.executed, e, Owner, f);
    } else {
      OwnerFileIsPlanned(b, p.baseOwner, p.baseRuntime, f);
      var j :| 0 <= j < |p.steps| && p.steps[j].role == Owner && p.steps[j].id == f.name && p.steps[j].sha == f.sha;
      if j < k {
        PrefixRan(db, p, j, f);
        RanMonotone(db.executed, e, Owner, f);
      } else {
        OwnerStepsAscend(p, k, j);
        assert j == k;
        assert e in db.executed + [e];
      }
    }
  }

  lemma RuntimeCoveredAfter(base: Db, db: Db, db': Db, b: Binary, p: Plan, k: nat)
    requires ValidBinary(b) && At(db, p, k) && k < |p.steps| && p == PlanOf(b, p.baseOwner, p.baseRuntime)
    requires RuntimeCovered(base, db, b)
    requires db'.executed == db.executed + [ExecutionOf(p, k)]
    requires db'.substrate == if p.steps[k].role.Runtime? then p.steps[k].id.version else db.substrate
    ensures RuntimeCovered(base, db', b)
  {
    hide Inv, WellFormedPlan, PlanOf;
    forall f | f in b.migrations && base.substrate < f.name.version <= db'.substrate
      ensures Ran(db'.executed, Runtime, f)
    {
      if p.steps[k].role.Runtime? {
        RuntimeStepCovers(base, db, b, p, k, f);
      } else {
        RanMonotone(db.executed, ExecutionOf(p, k), Runtime, f);
      }
    }
  }

  lemma OwnerCoveredAfter(base: Db, db: Db, db': Db, b: Binary, p: Plan, k: nat)
    requires ValidBinary(b) && At(db, p, k) && k < |p.steps| && p == PlanOf(b, p.baseOwner, p.baseRuntime)
    requires OwnerCovered(base, db, b)
    requires db'.executed == db.executed + [ExecutionOf(p, k)]
    requires db'.bundles == if p.steps[k].role.Owner? then InsertNew(db.bundles, p.steps[k].id.version, p.steps[k].sha) else db.bundles
    ensures OwnerCovered(base, db', b)
  {
    hide Inv, WellFormedPlan, PlanOf;
    var s := p.steps[k];
    MaxOfInsert(db.bundles, s.id.version, s.sha);
    forall f | f in b.bundles && IsNonRevoke(f.name.version)
        && MaxVersion(base.bundles.Keys) < f.name.version <= MaxVersion(db'.bundles.Keys)
      ensures Ran(db'.executed, Owner, f)
    {
      if s.role.Owner? {
        OwnerStepCovers(base, db, b, p, k, f);
      } else {
        RanMonotone(db.executed, ExecutionOf(p, k), Owner, f);
      }
    }
  }

  lemma StampsKeptAfter(base: Db, db: Db, db': Db, e: Executed)
    requires StampsKept(base, db) && !e.via.BySubstrate? && (e.role.Runtime? ==> e.version > db.substrate)
    requires db'.executed == db.executed + [e]
    requires e.role.Runtime? ==> db'.substrate == e.version && db'.migrations == InsertNew(db.migrations, e.version, e.sha)
    requires e.role.Owner? ==> db'.substrate == db.substrate && db'.migrations == db.migrations
    ensures StampsKept(base, db')
  {
    hide RanAs;
    forall v | v in db'.migrations && v !in base.migrations
      ensures v > base.substrate && RanAs(db'.executed, v, db'.migrations[v])
    {
      if v in db.migrations {
        RanAsMonotone(db.executed, e, v, db.migrations[v]);
      } else {
        assert v == e.version;
        LastRan(db.executed, e);
      }
    }
  }

  lemma LastRan(log: seq<Executed>, e: Executed)
    requires !e.via.BySubstrate? && e.role.Runtime?
    ensures RanAs(log + [e], e.version, e.sha)
  {
    assert e in log + [e];
  }

  lemma StepKeepsCovered(base: Db, db: Db, b: Binary, p: Plan, k: nat, file: SqlFile)
    requires ValidBinary(b) && At(db, p, k) && k < |p.steps| && Covered(base, db, b)
    requires file.name == p.steps[k].id && file.sha == p.steps[k].sha
    ensures Covered(base, StepDone(db, p.hash, p.steps[k], file, ChainAt(p, k)), b)
  {
    hide *;
    StepIsAhead(db, p, k);
    StepIsPending(db, p, k);
    StepIsStepped(db, p, k, file);
    SteppedKeepsCovered(base, db, StepDone(db, p.hash, p.steps[k], file, ChainAt(p, k)), b, p, k);
  }

  lemma SteppedKeepsCovered(base: Db, db: Db, db': Db, b: Binary, p: Plan, k: nat)
    requires ValidBinary(b) && At(db, p, k) && k < |p.steps| && Covered(base, db, b) && Stepped(db, db', p, k)
    requires Ahead(db, p.steps[k]) && p.hash.baseOwner == p.baseOwner && p.hash.baseRuntime == p.baseRuntime
    ensures Covered(base, db', b)
  {
    hide Inv, WellFormedPlan, PlanOf, RuntimeCovered, OwnerCovered, StampsKept, InsertNew, ChainAt, Committed, ValidBinary;
    RuntimeCoveredAfter(base, db, db', b, p, k);
    OwnerCoveredAfter(base, db, db', b, p, k);
    StampsKeptAfter(base, db, db', ExecutionOf(p, k));
  }

  lemma StepIsAhead(db: Db, p: Plan, k: nat)
    requires At(db, p, k) && k < |p.steps|
    ensures Ahead(db, p.steps[k]) && p.hash.baseOwner == p.baseOwner && p.hash.baseRuntime == p.baseRuntime
  {
    assert InFlight(db);
  }

  lemma FinalizeKeepsCovered(base: Db, w: World, b: Binary, p: Plan)
    requires Covered(base, w.db, b) && InFlight(w.db) && w.db.cursor.value.plan == p.hash
    ensures Covered(base, Finalize(w, b, p).0.db, b)
  {
    hide *;
    FinalizeFrame(w, b, p);
    FinalizedFields(w.db, Finalize(w, b, p).0.db, b, p);
    CoveredIgnoresCursor(base, w.db, Finalize(w, b, p).0.db, b);
  }

  lemma FinalizedFields(db: Db, db': Db, b: Binary, p: Plan)
    requires Finalized(db, db', b, p)
    ensures db'.plans == db.plans && db'.executed == db.executed && db'.substrate == db.substrate
    ensures db'.bundles == db.bundles && db'.migrations == db.migrations
  {
    hide WithFingerprint, ExpectedFingerprint;
  }

  lemma CoveredIgnoresCursor(base: Db, db: Db, db': Db, b: Binary)
    requires Covered(base, db, b)
    requires db'.plans == db.plans && db'.executed == db.executed && db'.substrate == db.substrate && db'.bundles == db.bundles
    requires db'.migrations == db.migrations
    ensures Covered(base, db', b)
  {
  }

  lemma {:induction false} RunFromKeepsCovered(base: Db, w: World, b: Binary, p: Plan, next: nat, applied: seq<nat>, resumed: bool)
    requires ValidBinary(b) && At(w.db, p, next) && TranscriptMatches(b, p.steps) && Covered(base, w.db, b)
    ensures Covered(base, RunFrom(w, b, p, next, ChainAt(p, next), applied, resumed).0.db, b)
    decreases |p.steps| - next
  {
    hide Inv, StepDone, Finalize, Covered;
    if next == |p.steps| {
      FinalizeKeepsCovered(base, w, b, p);
    } else {
      ResolvedName(b, p.steps[next]);
      if w.credit > 0 {
        var s := p.steps[next];
        var file := Resolve(b, s.role, s.id).value;
        StepKeepsInv(w.db, p, next, file);
        StepKeepsCovered(base, w.db, b, p, next, file);
        RunFromKeepsCovered(base, World(StepDone(w.db, p.hash, s, file, ChainAt(p, next)), w.credit - 1), b, p, next + 1,
                            applied + [s.index], resumed);
      }
    }
  }

  lemma MaterializedKeepsCovered(base: Db, db: Db, b: Binary)
    requires ValidBinary(b) && Covered(base, db, b)
    ensures Covered(base, Materialized(db, FreshPlan(db, b)), b)
  {
    hide PlanSteps;
  }

  lemma ApplyKeepsCovered(base: Db, w: World, b: Binary, o: Options)
    requires ValidBinary(b) && Inv(w.db) && Covered(base, w.db, b)
    ensures Covered(base, Apply(w, b, o).0.db, b)
  {
    hide *;
    if HasSubstrate(b) && w.credit > 0 {
      ApplyIsDispatch(w.db, b, o, w.credit);
      SubstrateKept(w.db, b);
      PreparedKeepsCovered(base, w.db, b);
      DispatchKeepsCovered(base, World(Prepared(w.db, b), w.credit - 1), b, o);
    } else {
      ApplyIsNothing(w.db, b, o, w.credit);
    }
  }

  lemma PreparedKeepsCovered(base: Db, db: Db, b: Binary)
    requires HasSubstrate(b) && Covered(base, db, b)
    ensures Covered(base, Prepared(db, b), b)
  {
    hide Find, MaxVersion, PlanOf, Ran, RanAs;
    var e := Executed(BySubstrate, Runtime, SUBSTRATE_FILE.version, SubstrateFile(b).value.sha);
    forall role, f | Ran(db.executed, role, f) ensures Ran(db.executed + [e], role, f) {
      RanMonotone(db.executed, e, role, f);
    }
    forall v, sha | RanAs(db.executed, v, sha) ensures RanAs(db.executed + [e], v, sha) {
      RanAsMonotone(db.executed, e, v, sha);
    }
  }

  lemma DispatchKeepsCovered(base: Db, w: World, b: Binary, o: Options)
    requires ValidBinary(b) && Inv(w.db) && Covered(base, w.db, b)
    ensures Covered(base, Dispatch(w, b, o).0.db, b)
  {
    hide *;
    CursorCases(w.db);
    if Startable(w.db) {
      DispatchOfStartable(w, b, o);
      if !o.dryRun && w.credit > 0 {
        StartKeepsCovered(base, w.db, b, w.credit - 1);
      }
    } else if InFlight(w.db) {
      PlanInFlight(w.db);
      DispatchInFlight(w, b, o);
      if TranscriptError(b, w.db.plans[w.db.cursor.value.plan].steps).None? {
        ResumeKeepsCovered(base, w, b);
      }
      AbortKeepsCovered(base, w.db, b);
    } else {
      DispatchOfCompleted(w, b, o);
    }
  }

  lemma StartKeepsCovered(base: Db, db: Db, b: Binary, c: nat)
    requires ValidBinary(b) && Inv(db) && Startable(db) && Covered(base, db, b)
    ensures var p := FreshPlan(db, b); Covered(base, RunFrom(World(Materialized(db, p), c), b, p, 0, NoDigest, [], false).0.db, b)
  {
    hide Inv, RunFrom, PlanSteps, Covered, TranscriptMatches, Materialized;
    var p := FreshPlan(db, b);
    MaterializedIsAtZero(db, b);
    MaterializedKeepsCovered(base, db, b);
    OwnPlanMatches(b, MaxVersion(db.bundles.Keys), db.substrate);
    RunFromKeepsCovered(base, World(Materialized(db, p), c), b, p, 0, [], false);
  }

  lemma ResumeKeepsCovered(base: Db, w: World, b: Binary)
    requires ValidBinary(b) && Inv(w.db) && Covered(base, w.db, b) && InFlight(w.db) && w.db.cursor.value.plan in w.db.plans
    requires TranscriptError(b, w.db.plans[w.db.cursor.value.plan].steps).None?
    ensures var c := w.db.cursor.value; var p := w.db.plans[c.plan];
      Covered(base, if c.state.Finalizing? then Finalize(w, b, p).0.db
                    else RunFrom(w, b, p, CommittedThrough(c), LastReceipt(w.db, p.hash, CommittedThrough(c)), [], true).0.db, b)
  {
    hide Inv, RunFrom, Finalize, TranscriptMatches, TranscriptError, Covered;
    InFlightFacts(w.db);
    var c := w.db.cursor.value;
    var p := w.db.plans[c.plan];
    TranscriptErrorIff(b, p.steps);
    if c.state.Finalizing? {
      FinalizeKeepsCovered(base, w, b, p);
    } else {
      ResumePoint(w.db);
      RunFromKeepsCovered(base, w, b, p, CommittedThrough(c), [], true);
    }
  }

  lemma AbortKeepsCovered(base: Db, db: Db, b: Binary)
    requires InFlight(db) && Covered(base, db, b)
    ensures Covered(base, WithCursor(db, db.cursor.value.plan, Aborted, db.cursor.value.stepIndex, None), b)
  {
    var c := db.cursor.value;
    CoveredIgnoresCursor(base, db, WithCursor(db, c.plan, Aborted, c.stepIndex, None), b);
    hide Covered;
  }

  lemma MigrationKeepsCovered(base: Db, db: Db, b: Binary, k: nat)
    requires ValidBinary(b) && Covered(base, db, b) && k < |b.migrations|
    requires forall i :: 0 <= i < k ==> b.migrations[i].name.version <= db.substrate
    requires b.migrations[k].name.version > db.substrate
    ensures Covered(base, MigrationDone(db, b.migrations[k]), b)
  {
    hide PlanOf, RanAs, StampsKept;
    var m := b.migrations[k];
    var db' := MigrationDone(db, m);
    var e := Executed(ByBoot, Runtime, m.name.version, m.sha);
    StampsKeptAfter(base, db, db', e);
    forall f | f in b.migrations && base.substrate < f.name.version <= db'.substrate
      ensures Ran(db'.executed, Runtime, f)
    {
      if f.name.version <= db.substrate {
        RanMonotone(db.executed, e, Runtime, f);
      } else {
        var j :| 0 <= j < |b.migrations| && b.migrations[j] == f;
        assert j == k;
        assert e in db'.executed;
      }
    }
    forall f | f in b.bundles && Ran(db.executed, Owner, f) ensures Ran(db'.executed, Owner, f) {
      RanMonotone(db.executed, e, Owner, f);
    }
  }

  lemma {:induction false} PendingKeepsCovered(base: Db, w: World, b: Binary, k: nat)
    requires ValidBinary(b) && Covered(base, w.db, b) && k <= |b.migrations|
    requires forall i :: 0 <= i < k ==> b.migrations[i].name.version <= w.db.substrate
    ensures Covered(base, ApplyPending(w, b.migrations[k..], w.db.substrate).0.db, b)
    decreases |b.migrations| - k
  {
    hide Covered;
    if k < |b.migrations| {
      var m := b.migrations[k];
      assert b.migrations[k..][1..] == b.migrations[k + 1..];
      if m.name.version <= w.db.substrate {
        if RecordedHashAgrees(w.db.migrations, m) {
          PendingKeepsCovered(base, w, b, k + 1);
        }
      } else if w.credit > 0 && RecordedHashAgrees(InsertNew(w.db.migrations, m.name.version, m.sha), m) {
        MigrationKeepsCovered(base, w.db, b, k);
        PendingKeepsCovered(base, World(MigrationDone(w.db, m), w.credit - 1), b, k + 1);
      }
    }
  }

  lemma BootKeepsCovered(base: Db, w: World, b: Binary, decoupled: bool, refuseDrift: bool)
    requires ValidBinary(b) && Covered(base, w.db, b)
    ensures Covered(base, Boot(w, b, decoupled, refuseDrift).0.db, b)
  {
    hide ApplyPending, Activation, PlanOf;
    assert b.migrations[0..] == b.migrations;
    PendingKeepsCovered(base, w, b, 0);
  }

  lemma {:induction false} RunKeepsCovered(base: Db, b: Binary, events: seq<Event>)
    requires Undeployed(base) && ValidBinary(b) && RunBy(base, b, events)
    ensures Inv(Run(base, events)) && Covered(base, Run(base, events), b)
    decreases |events|
  {
    RunKeepsInv(base, events);
    UndeployedIsInv(base);
    hide Inv, After;
    if events != [] {
      var front := events[..|events| - 1];
      assert RunBy(base, b, front);
      RunKeepsInv(base, front);
      RunKeepsCovered(base, b, front);
      AfterKeepsCovered(base, Run(base, front), events[|events| - 1], b);
    } else {
      UndeployedIsCovered(base, b);
    }
  }

  lemma UndeployedIsCovered(base: Db, b: Binary)
    requires Undeployed(base)
    ensures Covered(base, base, b)
  {
  }

  lemma AfterKeepsCovered(base: Db, db: Db, e: Event, b: Binary)
    requires Inv(db) && ValidEvent(db, e) && e.b == b && Covered(base, db, b)
    ensures Covered(base, After(db, e), b)
  {
    TrueReadIsRead(db, e);
    hide Inv, Apply, Boot, ValidBinary, Covered, ReadsTrue;
    match e.(readFails := false) {
      case Deploy(_, o, credit, _) => ApplyKeepsCovered(base, World(db, credit), b, o);
      case Start(_, decoupled, refuseDrift, credit, _) => BootKeepsCovered(base, World(db, credit), b, decoupled, refuseDrift);
    }
  }

  // ---------------------------------------------------------------- what complete means

  // Over any run by one binary: every embedded migration and every non-revoke bundle between the
  // original watermark and the current one has executed.
  lemma {:induction false} CoveredBetweenWatermarks(base: Db, b: Binary, events: seq<Event>)
    requires Undeployed(base) && ValidBinary(b) && RunBy(base, b, events)
    ensures RuntimeCovered(base, Run(base, events), b) && OwnerCovered(base, Run(base, events), b)
  {
    RunKeepsCovered(base, b, events);
  }

  lemma CompleteHasExecuted(base: Db, db: Db, b: Binary, role: Role, f: SqlFile)
    requires ValidBinary(b) && Inv(db) && Covered(base, db, b)
    requires db.cursor.Some? && db.cursor.value.state.Complete?
    requires role.Runtime? ==> f in b.migrations && f.name.version > base.substrate
    requires role.Owner? ==> f in b.bundles && IsNonRevoke(f.name.version) && f.name.version > MaxVersion(base.bundles.Keys)
    ensures Ran(db.executed, role, f)
  {
    hide PlanSteps, ReceiptsOk, OnceOnly, SeenOk, OriginOk, FingerprintOk;
    var p := db.plans[db.cursor.value.plan];
    if role.Runtime? && f.name.version > p.baseRuntime {
      RuntimeFileIsPlanned(b, p.baseOwner, p.baseRuntime, f);
    } else if role.Owner? && f.name.version > p.baseOwner {
      OwnerFileIsPlanned(b, p.baseOwner, p.baseRuntime, f);
    } else {
      return;
    }
    var j :| 0 <= j < |p.steps| && p.steps[j].role == role && p.steps[j].id == f.name && p.steps[j].sha == f.sha;
    PrefixRan(db, p, j, f);
  }

  // Abort and redeploy: over any run by one binary, a complete cursor means that every embedded
  // migration, and every embedded non-revoke bundle, above the original watermark has executed,
  // once. Each bundle carries its own hash as its stamp; a migration does exactly when the base had
  // no stamp of other bytes there.
  lemma {:induction false} CompleteCoversEverything(base: Db, b: Binary, events: seq<Event>)
    requires Undeployed(base) && ValidBinary(b) && RunBy(base, b, events)
    requires var c := Run(base, events).cursor; c.Some? && c.value.state.Complete?
    ensures var s := Run(base, events);
      && OnceOnly(s.executed)
      && (forall f :: f in b.migrations && f.name.version > base.substrate ==>
            && Ran(s.executed, Runtime, f)
            && (OwnStamp(s.migrations, f) <==> f.name.version !in base.migrations || base.migrations[f.name.version] == f.sha))
      && (forall f :: f in b.bundles && IsNonRevoke(f.name.version) && f.name.version > MaxVersion(base.bundles.Keys) ==>
            Ran(s.executed, Owner, f) && OwnStamp(s.bundles, f))
  {
    RunKeepsInv(base, events);
    RunKeepsCovered(base, b, events);
    var s := Run(base, events);
    hide Run, Ran, OwnStamp, Inv, Covered;
    forall f | f in b.migrations && f.name.version > base.substrate
      ensures Ran(s.executed, Runtime, f)
      ensures OwnStamp(s.migrations, f) <==> f.name.version !in base.migrations || base.migrations[f.name.version] == f.sha
    {
      CompleteHasExecuted(base, s, b, Runtime, f);
      RanIsStamped(base, s, b, f);
    }
    forall f | f in b.bundles && IsNonRevoke(f.name.version) && f.name.version > MaxVersion(base.bundles.Keys)
      ensures Ran(s.executed, Owner, f) && OwnStamp(s.bundles, f)
    {
      CompleteHasExecuted(base, s, b, Owner, f);
      RanBundleIsStamped(s, f);
    }
    InvIsOnceOnly(s);
  }

  lemma InvIsOnceOnly(db: Db)
    requires Inv(db)
    ensures OnceOnly(db.executed) && SeenOk(db)
  {
  }

  ghost predicate OwnStamp(stamps: map<nat, string>, f: SqlFile) {
    f.name.version in stamps && stamps[f.name.version] == f.sha
  }

  lemma RanIsStamped(base: Db, db: Db, b: Binary, f: SqlFile)
    requires Inv(db) && Covered(base, db, b) && Ran(db.executed, Runtime, f)
    ensures OwnStamp(db.migrations, f) <==> f.name.version !in base.migrations || base.migrations[f.name.version] == f.sha
  {
    InvIsOnceOnly(db);
    hide Inv, RuntimeCovered, OwnerCovered, PlansBy;
    var x :| x in db.executed && !x.via.BySubstrate? && x.role == Runtime && x.version == f.name.version && x.sha == f.sha;
    var v := f.name.version;
    assert v in db.migrations;
    if v !in base.migrations {
      var y :| y in db.executed && !y.via.BySubstrate? && y.role == Runtime && y.version == v && y.sha == db.migrations[v];
      OnlyExecution(db.executed, x, y);
    }
  }

  lemma OnlyExecution(log: seq<Executed>, x: Executed, y: Executed)
    requires OnceOnly(log) && x in log && y in log && !x.via.BySubstrate? && !y.via.BySubstrate?
    requires x.role == y.role && x.version == y.version
    ensures x == y
  {
    var i :| 0 <= i < |log| && log[i] == x;
    var j :| 0 <= j < |log| && log[j] == y;
    assert !(i < j) && !(j < i);
  }

  lemma RanBundleIsStamped(db: Db, f: SqlFile)
    requires Inv(db) && Ran(db.executed, Owner, f)
    ensures OwnStamp(db.bundles, f)
  {
    InvIsOnceOnly(db);
    hide Inv, OnceOnly;
  }
}
