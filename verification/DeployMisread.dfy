/**
  The failed watermark read. ReadSchemaVersion takes a read that fails for version 0, so a deploy
  plans, and a legacy boot migrates, from the very beginning: when that executes a file again.
 */
module DeployMisread {
  import opened DeployPlan
  import opened DeployDatabase
  import opened DeployApply
  import opened DeployInvariant
  import opened Migrations
  import opened BootGate
  import opened DeployRuns
  import opened DeployResume
  import opened DeployStamps
  import opened DeployOutcome
  import opened DeployCoverage
  import opened DeployServe

  // The file was executed as a step or a boot migration.
  ghost predicate RanNumber(log: seq<Executed>, role: Role, version: nat) {
    exists e :: e in log && !e.via.BySubstrate? && e.role == role && e.version == version
  }

  // ---------------------------------------------------------------- what a plan adds to the history

  lemma {:induction false} EndStateLog(db: Db, b: Binary, p: Plan, next: nat)
    requires next <= |p.steps|
    ensures EndState(db, b, p, next).executed == db.executed + Executions(p, |p.steps|)[next..]
    decreases |p.steps| - next
  {
    hide WithFingerprint, ExpectedFingerprint, InsertNew, AfterDdl, CreatesTables;
    if next == |p.steps| {
      FingerprintKeepsLog(db, ExpectedFingerprint(b));
    } else {
      var s := p.steps[next];
      EndStateLog(StepDone(db, p.hash, s, SqlFile(s.id, s.sha), ChainAt(p, next)), b, p, next + 1);
      assert Executions(p, |p.steps|)[next..] == [Executions(p, |p.steps|)[next]] + Executions(p, |p.steps|)[next + 1..];
    }
  }

  lemma FingerprintKeepsLog(db: Db, f: Fingerprint)
    ensures WithFingerprint(db, f).executed == db.executed
  {
  }

  // However far a plan gets, it has added the executions of its next steps, in order.
  lemma {:induction false} RunFromLog(w: World, b: Binary, p: Plan, next: nat, prev: Digest, applied: seq<nat>) returns (k: nat)
    requires next <= |p.steps| && TranscriptMatches(b, p.steps) && InFlight(w.db) && w.db.cursor.value.plan == p.hash
    ensures next <= k <= |p.steps|
    ensures RunFrom(w, b, p, next, prev, applied, false).0.db.executed == w.db.executed + Executions(p, k)[next..]
    decreases |p.steps| - next
  {
    hide TranscriptMatches, Finalize, Resolve, InsertNew, AfterDdl, CreatesTables, LinkOf, Executions;
    k := next;
    ExecutionsTail(p, next);
    if next == |p.steps| {
      FinalizeKeepsLog(w, b, p);
    } else {
      var s := p.steps[next];
      assert StepMatches(b, s) by {
        MatchesAt(b, p.steps, next);
      }
      ResolvedName(b, s);
      if w.credit > 0 {
        var file := Resolve(b, s.role, s.id).value;
        k := RunFromLog(World(StepDone(w.db, p.hash, s, file, prev), w.credit - 1), b, p, next + 1, LinkOf(prev, p.hash, s),
                        applied + [s.index]);
      }
    }
  }

  lemma ExecutionsTail(p: Plan, next: nat)
    requires next <= |p.steps|
    ensures Executions(p, next)[next..] == []
    ensures next < |p.steps| ==> forall k :: next < k <= |p.steps| ==>
              Executions(p, k)[next..]
                == [Executed(ByPlan(p.hash), p.steps[next].role, p.steps[next].id.version, p.steps[next].sha)] + Executions(p, k)[next + 1..]
  {
    if next < |p.steps| {
      forall k | next < k <= |p.steps|
        ensures Executions(p, k)[next..]
             == [Executed(ByPlan(p.hash), p.steps[next].role, p.steps[next].id.version, p.steps[next].sha)] + Executions(p, k)[next + 1..]
      {
        assert Executions(p, k)[next..] == [Executions(p, k)[next]] + Executions(p, k)[next + 1..];
      }
    }
  }

  lemma MatchesAt(b: Binary, steps: seq<Step>, i: nat)
    requires TranscriptMatches(b, steps) && i < |steps|
    ensures StepMatches(b, steps[i])
  {
  }

  lemma FinalizeKeepsLog(w: World, b: Binary, p: Plan)
    requires InFlight(w.db) && w.db.cursor.value.plan == p.hash
    ensures Finalize(w, b, p).0.db.executed == w.db.executed
  {
    hide *;
    FinalizeFrame(w, b, p);
    FinalizedFields(w.db, Finalize(w, b, p).0.db, b, p);
  }

  // A prefix of a plan keeps the history free of repetitions iff it repeats none of it.
  lemma OnceAfterPrefix(log: seq<Executed>, p: Plan, k: nat)
    requires OnceOnly(log) && WellFormedPlan(p) && k <= |p.steps|
    ensures OnceOnly(log + Executions(p, k)) <==>
              forall i :: 0 <= i < k ==> !RanNumber(log, p.steps[i].role, p.steps[i].id.version)
  {
    var more := Executions(p, k);
    var all := log + more;
    if i :| 0 <= i < k && RanNumber(log, p.steps[i].role, p.steps[i].id.version) {
      RepeatsOnce(log, more, i);
    } else {
      forall i, j | 0 <= i < j < k ensures more[i].role != more[j].role || more[i].version != more[j].version {
        if p.steps[i].role == p.steps[j].role {
          StepsAreDistinct(p, i, j);
        }
      }
      NothingRepeats(log, more);
    }
  }

  lemma RepeatsOnce(log: seq<Executed>, more: seq<Executed>, i: nat)
    requires i < |more| && !more[i].via.BySubstrate? && RanNumber(log, more[i].role, more[i].version)
    ensures !OnceOnly(log + more)
  {
    var e :| e in log && !e.via.BySubstrate? && e.role == more[i].role && e.version == more[i].version;
    var j :| 0 <= j < |log| && log[j] == e;
    assert (log + more)[j] == e && (log + more)[|log| + i] == more[i];
  }

  lemma NothingRepeats(log: seq<Executed>, more: seq<Executed>)
    requires OnceOnly(log) && forall i :: 0 <= i < |more| ==> !RanNumber(log, more[i].role, more[i].version)
    requires forall i, j :: 0 <= i < j < |more| ==> more[i].role != more[j].role || more[i].version != more[j].version
    ensures OnceOnly(log + more)
  {
    var all := log + more;
    forall i, j | 0 <= i < j < |all| && !all[i].via.BySubstrate? && !all[j].via.BySubstrate?
      ensures all[i].role != all[j].role || all[i].version != all[j].version
    {
      if i < |log| <= j {
        assert log[i] in log;
        assert !RanNumber(log, more[j - |log|].role, more[j - |log|].version);
      }
    }
  }

  // ---------------------------------------------------------------- a deploy that misreads

  // A plan built on 0: every embedded migration is a runtime step, and no owner step has run.
  lemma MisreadPlan(db: Db, b: Binary)
    requires ValidBinary(b) && SeenOk(db)
    ensures var p := PlanAsRead(db, b, true);
      && WellFormedPlan(p) && TranscriptMatches(b, p.steps)
      && ((exists i :: 0 <= i < |p.steps| && RanNumber(db.executed, p.steps[i].role, p.steps[i].id.version))
          <==> exists f :: f in b.migrations && RanNumber(db.executed, Runtime, f.name.version))
  {
    var bo := MaxVersion(db.bundles.Keys);
    var p := PlanAsRead(db, b, true);
    BuiltPlanIsWellFormed(b, bo, 0);
    OwnPlanMatches(b, bo, 0);
    if i :| 0 <= i < |p.steps| && RanNumber(db.executed, p.steps[i].role, p.steps[i].id.version) {
      StepHasOrigin(b, bo, 0, i);
      OwnerStepIsNew(db, p.steps[i], bo);
    }
    if f :| f in b.migrations && RanNumber(db.executed, Runtime, f.name.version) {
      assert f.name.version > 0;
      RuntimeFileIsPlanned(b, bo, 0, f);
      var i :| 0 <= i < |p.steps| && p.steps[i].role == Runtime && p.steps[i].id == f.name && p.steps[i].sha == f.sha;
      assert RanNumber(db.executed, p.steps[i].role, p.steps[i].id.version);
    }
    hide PlanSteps, ValidBinary, RanNumber, TranscriptMatches;
  }

  lemma OwnerStepIsNew(db: Db, s: Step, bo: nat)
    requires SeenOk(db) && bo == MaxVersion(db.bundles.Keys) && RanNumber(db.executed, s.role, s.id.version)
    ensures s.role.Runtime? || s.id.version <= bo
  {
  }

  lemma PreparedHistory(db: Db, b: Binary)
    requires Inv(db) && HasSubstrate(b) && ValidBinary(b)
    ensures var e := Prepared(db, b);
      && SeenOk(e) && OnceOnly(e.executed) && SeenOk(db) && OnceOnly(db.executed) && Startable(e) == Startable(db)
      && PlanAsRead(e, b, true) == PlanAsRead(db, b, true)
      && (forall role, v :: RanNumber(e.executed, role, v) <==> RanNumber(db.executed, role, v))
  {
    var e := Prepared(db, b);
    SubstrateKept(db, b);
    PreparedFrame(db, b);
    InvIsOnceOnly(db);
    InvIsOnceOnly(e);
    hide Inv, Find, PlanOf, Core, SeenOk, OnceOnly, ValidBinary;
    var x := Executed(BySubstrate, Runtime, SUBSTRATE_FILE.version, SubstrateFile(b).value.sha);
    assert forall y :: y in e.executed <==> y in db.executed || y == x;
  }

  // What a deploy with c further transactions adds, from a database that is already prepared.
  lemma MisreadDispatchLog(db: Db, b: Binary, c: nat) returns (k: nat)
    requires Startable(db) && TranscriptMatches(b, PlanAsRead(db, b, true).steps)
    ensures k <= |PlanAsRead(db, b, true).steps|
    ensures Dispatch(World(db, c), b, GO, true).0.db.executed == db.executed + Executions(PlanAsRead(db, b, true), k)
    ensures c >= |PlanAsRead(db, b, true).steps| + 4 ==> k == |PlanAsRead(db, b, true).steps|
  {
    hide *;
    var p := PlanAsRead(db, b, true);
    k := 0;
    MisreadDispatchIs(db, b, c);
    MaterializedInFlight(db, p);
    ExecutionsBounds(p);
    if c >= |p.steps| + 4 {
      k := |p.steps|;
      NoChain(p);
      RunFromCompletes(Materialized(db, p), b, p, 0, [], false, c - 1);
      EndStateLog(Materialized(db, p), b, p, 0);
    } else if c > 0 {
      k := RunFromLog(World(Materialized(db, p), c - 1), b, p, 0, NoDigest, []);
    } else {
      assert db.executed + [] == db.executed;
    }
  }

  lemma MisreadDispatchIs(db: Db, b: Binary, c: nat)
    requires Startable(db)
    ensures var p := PlanAsRead(db, b, true);
      Dispatch(World(db, c), b, GO, true).0.db ==
        if c == 0 then db else RunFrom(World(Materialized(db, p), c - 1), b, p, 0, NoDigest, [], false).0.db
  {
    hide RunFrom, PlanAsRead, Materialized, InsertNew;
  }

  lemma MaterializedInFlight(db: Db, p: Plan)
    ensures var m := Materialized(db, p); m.executed == db.executed && InFlight(m) && m.cursor.value.plan == p.hash
  {
  }

  lemma ExecutionsBounds(p: Plan)
    ensures Executions(p, 0) == [] && forall k :: 0 <= k <= |p.steps| ==> Executions(p, k)[0..] == Executions(p, k)
  {
  }

  lemma NoChain(p: Plan)
    ensures ChainAt(p, 0) == NoDigest
  {
  }

  lemma MisreadDeployIs(db: Db, b: Binary, c: nat)
    requires HasSubstrate(b)
    ensures After(db, Deploy(b, GO, c, true)) ==
      if c == 0 then db else Dispatch(World(Prepared(db, b), c - 1), b, GO, true).0.db
  {
    hide Dispatch, HasSubstrate, Prepared;
  }

  // Where it dies decides how much of the plan is added.
  lemma MisreadDeployOnce(db: Db, b: Binary, c: nat)
    requires Inv(db) && ValidBinary(b) && HasSubstrate(b) && Startable(db)
    ensures (exists i :: 0 <= i < |PlanAsRead(db, b, true).steps| && RanNumber(db.executed, PlanAsRead(db, b, true).steps[i].role,
                                                                                PlanAsRead(db, b, true).steps[i].id.version))
            || OnceOnly(After(db, Deploy(b, GO, c, true)).executed)
    ensures c >= |PlanAsRead(db, b, true).steps| + 5 && OnceOnly(After(db, Deploy(b, GO, c, true)).executed) ==>
      forall i :: 0 <= i < |PlanAsRead(db, b, true).steps| ==>
        !RanNumber(db.executed, PlanAsRead(db, b, true).steps[i].role, PlanAsRead(db, b, true).steps[i].id.version)
  {
    hide *;
    var p, e := PlanAsRead(db, b, true), Prepared(db, b);
    PreparedHistory(db, b);
    MisreadPlan(db, b);
    MisreadDeployIs(db, b, c);
    if c > 0 {
      var k := MisreadDispatchLog(e, b, c - 1);
      OnceAfterPrefix(e.executed, p, k);
    }
  }

  // From any reachable state, a deploy whose watermark read fails keeps exactly-once, wherever it
  // dies, if and only if none of the binary's migrations is in the history.
  lemma MisreadDeployOnceIff(db: Db, b: Binary)
    requires Inv(db) && ValidBinary(b) && HasSubstrate(b) && Startable(db)
    ensures (forall c: nat :: OnceOnly(After(db, Deploy(b, GO, c, true)).executed)) <==>
            forall f :: f in b.migrations ==> !RanNumber(db.executed, Runtime, f.name.version)
  {
    hide *;
    PreparedHistory(db, b);
    MisreadPlan(db, b);
    forall c: nat {
      MisreadDeployOnce(db, b, c);
    }
    MisreadDeployOnce(db, b, |PlanAsRead(db, b, true).steps| + 5);
  }

  // ---------------------------------------------------------------- a boot that misreads

  ghost function BootExecutions(files: seq<SqlFile>, k: nat): seq<Executed>
    requires k <= |files|
  {
    seq(k, i requires 0 <= i < k => Executed(ByBoot, Runtime, files[i].name.version, files[i].sha))
  }

  // No recorded hash differs up to and including file i.
  ghost predicate Agreeing(stamps: map<nat, string>, files: seq<SqlFile>, i: nat) {
    forall j :: 0 <= j <= i && j < |files| ==> RecordedHashAgrees(stamps, files[j])
  }

  // Stamping the first file with its own hash settles nothing about the others.
  lemma AgreesAfterStamp(stamps: map<nat, string>, m: SqlFile, f: SqlFile)
    requires f.name.version > m.name.version
    ensures RecordedHashAgrees(InsertNew(stamps, m.name.version, m.sha), f) <==> RecordedHashAgrees(stamps, f)
  {
  }

  // Migrating from below every file: it goes as far as credit and recorded stamps let it.
  lemma {:induction false} ReplayLog(w: World, files: seq<SqlFile>, current: nat) returns (k: nat)
    requires Ascending(files) && forall i :: 0 <= i < |files| ==> files[i].name.version > current
    ensures k <= |files| && k <= w.credit && forall i :: 0 <= i < k ==> Agreeing(w.db.migrations, files, i)
    ensures ApplyPending(w, files, current).0.db.executed == w.db.executed + BootExecutions(files, k)
    ensures k == |files| || k == w.credit || !Agreeing(w.db.migrations, files, k)
    decreases |files|
  {
    hide BootExecutions, AfterDdl, CreatesTables;
    k := 0;
    NoBootExecutions(files);
    if files != [] && w.credit > 0 {
      var m, rest := files[0], files[1..];
      if RecordedHashAgrees(w.db.migrations, m) {
        var next := World(MigrationDone(w.db, m), w.credit - 1);
        var j := ReplayLog(next, rest, m.name.version);
        k := j + 1;
        FirstAgrees(w.db.migrations, files);
        forall i | 0 < i <= k ensures Agreeing(w.db.migrations, files, i) <==> Agreeing(next.db.migrations, rest, i - 1) {
          AgreeingTail(w.db.migrations, files, i - 1);
        }
        BootExecutionsCons(files, j);
        hide Agreeing, RecordedHashAgrees, InsertNew;
      }
    }
  }

  lemma FirstAgrees(stamps: map<nat, string>, files: seq<SqlFile>)
    requires files != [] && RecordedHashAgrees(stamps, files[0])
    ensures Agreeing(stamps, files, 0)
  {
  }

  lemma NoBootExecutions(files: seq<SqlFile>)
    ensures BootExecutions(files, 0) == []
  {
  }

  lemma BootExecutionsCons(files: seq<SqlFile>, j: nat)
    requires j < |files|
    ensures BootExecutions(files, j + 1)
         == [Executed(ByBoot, Runtime, files[0].name.version, files[0].sha)] + BootExecutions(files[1..], j)
  {
  }

  lemma AgreeingTail(stamps: map<nat, string>, files: seq<SqlFile>, i: nat)
    requires Ascending(files) && files != [] && RecordedHashAgrees(stamps, files[0])
    ensures Agreeing(stamps, files, i + 1) <==> Agreeing(InsertNew(stamps, files[0].name.version, files[0].sha), files[1..], i)
  {
    hide RecordedHashAgrees, InsertNew;
    var rest := files[1..];
    forall j | 0 <= j < |rest|
      ensures RecordedHashAgrees(InsertNew(stamps, files[0].name.version, files[0].sha), rest[j]) <==>
          RecordedHashAgrees(stamps, files[j + 1])
    {
      AgreesAfterStamp(stamps, files[0], files[j + 1]);
    }
    assert forall j :: 0 < j < |files| ==> files[j] == rest[j - 1];
  }

  lemma OnceAfterReplay(log: seq<Executed>, files: seq<SqlFile>, k: nat)
    requires OnceOnly(log) && Ascending(files) && k <= |files|
    ensures OnceOnly(log + BootExecutions(files, k)) <==>
              forall i :: 0 <= i < k ==> !RanNumber(log, Runtime, files[i].name.version)
  {
    var more := BootExecutions(files, k);
    if i :| 0 <= i < k && RanNumber(log, Runtime, files[i].name.version) {
      RepeatsOnce(log, more, i);
    } else {
      NothingRepeats(log, more);
    }
  }

  lemma MisreadBootLog(db: Db, b: Binary, decoupled: bool, refuseDrift: bool, c: nat) returns (k: nat)
    requires ValidBinary(b) && b.preflightOk && UsesWatermark(db, Start(b, decoupled, refuseDrift, c, true))
    ensures k <= |b.migrations| && k <= c && forall i :: 0 <= i < k ==> Agreeing(db.migrations, b.migrations, i)
    ensures After(db, Start(b, decoupled, refuseDrift, c, true)).executed == db.executed + BootExecutions(b.migrations, k)
    ensures k == |b.migrations| || k == c || !Agreeing(db.migrations, b.migrations, k)
  {
    k := ReplayLog(World(db, c), b.migrations, 0);
    hide ApplyPending, Activation, OwnerShortfall, RevokeEmbedded, Agreeing, BootExecutions, ExpectedFingerprint;
  }

  // From any reachable state, a legacy boot whose watermark read fails keeps exactly-once, wherever
  // it dies, if and only if no file of the history comes before the first recorded hash that differs:
  // the check inside the transaction is all that stops it.
  lemma MisreadBootOnceIff(db: Db, b: Binary, decoupled: bool, refuseDrift: bool)
    requires Inv(db) && ValidBinary(b) && UsesWatermark(db, Start(b, decoupled, refuseDrift, 0, true))
    ensures (forall c: nat :: OnceOnly(After(db, Start(b, decoupled, refuseDrift, c, true)).executed)) <==>
            (b.preflightOk ==> forall i :: 0 <= i < |b.migrations| && Agreeing(db.migrations, b.migrations, i) ==>
               !RanNumber(db.executed, Runtime, b.migrations[i].name.version))
  {
    InvIsOnceOnly(db);
    if b.preflightOk {
      MisreadBootOnce(db, b, decoupled, refuseDrift);
    } else {
      forall c: nat ensures OnceOnly(After(db, Start(b, decoupled, refuseDrift, c, true)).executed) {
        RefusedBootKeeps(db, b, decoupled, refuseDrift, c);
      }
    }
  }

  lemma RefusedBootKeeps(db: Db, b: Binary, decoupled: bool, refuseDrift: bool, c: nat)
    requires !b.preflightOk && UsesWatermark(db, Start(b, decoupled, refuseDrift, c, true))
    ensures After(db, Start(b, decoupled, refuseDrift, c, true)) == db
  {
    hide ApplyPending, Activation, OwnerShortfall, RevokeEmbedded, ExpectedFingerprint;
  }

  lemma AgreeingReaches(stamps: map<nat, string>, files: seq<SqlFile>, k: nat, i: nat)
    requires Agreeing(stamps, files, i) && !Agreeing(stamps, files, k)
    ensures k > i
  {
  }

  lemma MisreadBootOnce(db: Db, b: Binary, decoupled: bool, refuseDrift: bool)
    requires OnceOnly(db.executed) && ValidBinary(b) && b.preflightOk && UsesWatermark(db, Start(b, decoupled, refuseDrift, 0, true))
    ensures (forall c: nat :: OnceOnly(After(db, Start(b, decoupled, refuseDrift, c, true)).executed)) <==>
            forall i :: 0 <= i < |b.migrations| && Agreeing(db.migrations, b.migrations, i) ==>
               !RanNumber(db.executed, Runtime, b.migrations[i].name.version)
  {
    hide After, Agreeing, RanNumber, OnceOnly, OwnerShortfall, RevokeEmbedded, Activation;
    forall c: nat
      ensures OnceOnly(After(db, Start(b, decoupled, refuseDrift, c, true)).executed)
        || exists i :: 0 <= i < |b.migrations| && Agreeing(db.migrations, b.migrations, i)
             && RanNumber(db.executed, Runtime, b.migrations[i].name.version)
    {
      var k := MisreadBootLog(db, b, decoupled, refuseDrift, c);
      OnceAfterReplay(db.executed, b.migrations, k);
    }
    if i :|
      0 <= i < |b.migrations| && Agreeing(db.migrations, b.migrations, i) && RanNumber(db.executed, Runtime, b.migrations[i].name.version)
    {
      var c := |b.migrations|;
      var k := MisreadBootLog(db, b, decoupled, refuseDrift, c);
      OnceAfterReplay(db.executed, b.migrations, k);
      if !Agreeing(db.migrations, b.migrations, k) {
        AgreeingReaches(db.migrations, b.migrations, k, i);
      }
      assert k > i;
      assert !OnceOnly(After(db, Start(b, decoupled, refuseDrift, c, true)).executed);
    }
  }

  // ---------------------------------------------------------------- the failing run

  lemma {:induction false} NumberedTimesConcat(log: seq<Executed>, more: seq<Executed>, role: Role, version: nat)
    ensures NumberedTimes(log + more, role, version) == NumberedTimes(log, role, version) + NumberedTimes(more, role, version)
    decreases |more|
  {
    if more == [] {
      assert log + more == log;
    } else {
      var front := more[..|more| - 1];
      NumberedTimesConcat(log, front, role, version);
      assert (log + more)[..|log + more| - 1] == log + front;
    }
  }

  // One binary, two boots, the second one's read lost: its migration 44 is executed twice. A deploy
  // in place of the second boot does the same.
  lemma MisreadRunsTwice()
    ensures Undeployed(LEGACY_BASE) && ValidBinary(OLD_BINARY)
    ensures var first := Start(OLD_BINARY, false, false, 9);
      && NumberedTimes(Run(LEGACY_BASE, [first, Start(OLD_BINARY, false, false, 9, true)]).executed, Runtime, 44) == 2
      && exists c: nat :: !OnceOnly(Run(LEGACY_BASE, [first, Deploy(OLD_BINARY, GO, c, true)]).executed)
  {
    hide *;
    OldBootApplies44();
    var first := Start(OLD_BINARY, false, false, 9);
    var d := Run(LEGACY_BASE, [first]);
    RunKeepsInv(LEGACY_BASE, [first]);
    SecondBootRuns44(d);
    RunOfTwo(LEGACY_BASE, first, Start(OLD_BINARY, false, false, 9, true));
    SecondDeployRuns44(d);
    forall c: nat ensures Run(LEGACY_BASE, [first, Deploy(OLD_BINARY, GO, c, true)]) == After(d, Deploy(OLD_BINARY, GO, c, true)) {
      RunOfTwo(LEGACY_BASE, first, Deploy(OLD_BINARY, GO, c, true));
    }
  }

  lemma RunOfTwo(db: Db, e: Event, e': Event)
    ensures Run(db, [e, e']) == After(Run(db, [e]), e')
  {
    assert [e, e'][..1] == [e];
    hide After;
  }

  lemma SecondBootRuns44(d: Db)
    requires Startable(d) && LoadCursor(d).None? && d.bundles == map[] && ValidBinary(OLD_BINARY)
    requires d.migrations == map[44 := "x"] && d.executed == [Executed(ByBoot, Runtime, 44, "x")]
    ensures NumberedTimes(After(d, Start(OLD_BINARY, false, false, 9, true)).executed, Runtime, 44) == 2
  {
    OldBootUsesWatermark(d);
    var k := MisreadBootLog(d, OLD_BINARY, false, false, 9);
    var m := OLD_BINARY.migrations[0];
    assert RecordedHashAgrees(d.migrations, m) && Agreeing(d.migrations, OLD_BINARY.migrations, 0);
    assert BootExecutions(OLD_BINARY.migrations, 1) == [Executed(ByBoot, Runtime, 44, "x")];
    NumberedTimesConcat(d.executed, d.executed, Runtime, 44);
    TimesOfOne();
    hide After, NumberedTimes, UsesWatermark, BootExecutions, Agreeing;
  }

  lemma SecondDeployRuns44(d: Db)
    requires Inv(d) && Startable(d) && ValidBinary(OLD_BINARY) && HasSubstrate(OLD_BINARY)
    requires d.executed == [Executed(ByBoot, Runtime, 44, "x")]
    ensures exists c: nat :: !OnceOnly(After(d, Deploy(OLD_BINARY, GO, c, true)).executed)
  {
    MisreadDeployOnceIff(d, OLD_BINARY);
    assert d.executed[0] in d.executed && RanNumber(d.executed, Runtime, 44);
    assert OLD_BINARY.migrations[0] in OLD_BINARY.migrations && OLD_BINARY.migrations[0].name.version == 44;
    hide Inv, After, OnceOnly, RanNumber, HasSubstrate, ValidBinary;
  }

  lemma TimesOfOne()
    ensures NumberedTimes([Executed(ByBoot, Runtime, 44, "x")], Runtime, 44) == 1
  {
    assert [Executed(ByBoot, Runtime, 44, "x")][..0] == [];
  }

  lemma OldBootUsesWatermark(d: Db)
    requires Startable(d) && LoadCursor(d).None? && d.bundles == map[]
    ensures UsesWatermark(d, Start(OLD_BINARY, false, false, 9, true))
  {
    assert MaxVersion({}) == 0;
    GateServesExactlyWhen(d, OLD_BINARY, false);
  }
}
