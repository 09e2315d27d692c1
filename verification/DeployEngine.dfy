/**
  The deploy engine over a live connection: the verifier loops, the step loop, the finalizer and
  `Deployer.Apply`, each proved to do what DeployApply says, at every crash point.
 */
module DeployEngine {
  import opened Wrappers
  import opened DeployPlan
  import opened DeployDatabase
  import opened Spec = DeployApply

  method FindFile(files: seq<SqlFile>, id: FileName) returns (r: Option<SqlFile>)
    ensures r == Find(files, id)
  {
    for i := 0 to |files|
      invariant Find(files, id) == Find(files[i..], id)
    {
      if files[i].name == id {
        return Some(files[i]);
      }
      assert files[i..][1..] == files[i + 1..];
    }
    return None;
  }

  method ResolveFile(b: Binary, role: Role, id: FileName) returns (r: Option<SqlFile>)
    ensures r == Resolve(b, role, id)
  {
    match role {
      case Runtime =>
        r := FindFile(b.migrations, id);
      case Owner =>
        r := FindFile(b.bundles, id);
        if r.None? && b.staged.Some? && b.staged.value.name == id {
          r := b.staged;
        }
    }
  }

  method VerifyStoredTranscript(b: Binary, steps: seq<Step>) returns (e: Option<DeployError>)
    ensures e == TranscriptError(b, steps)
    ensures e.None? <==> forall i :: 0 <= i < |steps| ==> StepMatches(b, steps[i])
  {
    for i := 0 to |steps|
      invariant TranscriptError(b, steps) == TranscriptError(b, steps[i..])
      invariant forall j :: 0 <= j < i ==> StepMatches(b, steps[j])
    {
      var file := ResolveFile(b, steps[i].role, steps[i].id);
      if file.None? || file.value.sha != steps[i].sha {
        assert !StepMatches(b, steps[i]);
        return Some(BinaryMismatch(steps[i].index));
      }
      assert steps[i..][1..] == steps[i + 1..];
    }
    return None;
  }

  method VerifyAppliedDBStamps(runner: Runner, steps: seq<Step>, through: nat) returns (e: Option<DeployError>)
    ensures e == StampError(runner.Value(), steps, through)
  {
    for i := 0 to |steps|
      invariant StampError(runner.Value(), steps, through) == StampError(runner.Value(), steps[i..], through)
    {
      var s := steps[i];
      assert steps[i..][1..] == steps[i + 1..];
      if s.index >= through {
        continue;
      }
      var stamps := if s.role.Runtime? then runner.migrations else runner.bundles;
      var stamp := if s.id.version in stamps then stamps[s.id.version] else "";
      if stamp == "" || stamp != s.sha {
        return Some(StampMismatch(s.index));
      }
    }
    return None;
  }

  class Deployer {
    const dryRun: bool
    const abort: bool

    constructor (dryRun: bool, abort: bool)
      ensures this.dryRun == dryRun && this.abort == abort
    {
      this.dryRun := dryRun;
      this.abort := abort;
    }

    function Opts(): Options {
      Options(dryRun, abort)
    }

    method Finalize(runner: Runner, b: Binary, plan: Plan) returns (e: Option<DeployError>)
      modifies runner
      ensures (runner.State(), e) == Spec.Finalize(old(runner.State()), b, plan)
    {
      e := VerifyStoredTranscript(b, plan.steps);
      if e.Some? {
        return;
      }
      var ok := runner.WriteCursor(plan.hash, Finalizing, LastStepIndex(plan), LastStepId(plan));
      if !ok {
        return Some(Crashed);
      }
      ok := runner.RecordFingerprint(ExpectedFingerprint(b));
      if !ok {
        return Some(Crashed);
      }
      ok := runner.WriteCursor(plan.hash, Complete, LastStepIndex(plan), LastStepId(plan));
      if !ok {
        return Some(Crashed);
      }
    }

    method RunFrom(runner: Runner, b: Binary, plan: Plan, next: nat, first: Digest, resumed: bool) returns (r: Outcome)
      modifies runner
      ensures (runner.State(), r) == Spec.RunFrom(old(runner.State()), b, plan, next, first, [], resumed)
    {
      hide StepDone, Resolve, Spec.Finalize, LinkOf;
      var prevHash := first;
      var applied: seq<nat> := [];
      var i := next;
      while i < |plan.steps|
        invariant next <= i
        invariant Spec.RunFrom(old(runner.State()), b, plan, next, first, [], resumed)
               == Spec.RunFrom(runner.State(), b, plan, i, prevHash, applied, resumed)
      {
        var step := plan.steps[i];
        var file := ResolveFile(b, step.role, step.id);
        if file.None? {
          return Halted(NotEmbedded(step.index));
        }
        var ok, rowHash := runner.CommitStep(plan.hash, step, file.value, prevHash);
        if !ok {
          return Halted(Crashed);
        }
        prevHash := rowHash;
        applied := applied + [step.index];
        i := i + 1;
      }
      var e := Finalize(runner, b, plan);
      if e.Some? {
        return Halted(e.value);
      }
      return Deployed(plan.hash, ReportedComplete, applied, resumed, |plan.steps|, false);
    }

    method MaterializeAndRun(runner: Runner, b: Binary) returns (r: Outcome)
      requires ValidBinary(b)
      modifies runner
      ensures (runner.State(), r) == Spec.MaterializeAndRun(old(runner.State()), b, Opts(), runner.readFails)
    {
      var baseOwner := runner.OwnerBundleVersion();
      var baseRuntime := runner.ReadSchemaVersion();
      var plan := BuildPlan(b, baseOwner, baseRuntime);
      if dryRun {
        return Deployed(plan.hash, ReportedNone, [], false, |plan.steps|, true);
      }
      var ok := runner.MaterializePlan(plan);
      if !ok {
        return Halted(Crashed);
      }
      r := RunFrom(runner, b, plan, 0, NoDigest, false);
    }

    method Resume(runner: Runner, b: Binary, c: CursorRow) returns (r: Outcome)
      modifies runner
      ensures (runner.State(), r) == Spec.Resume(old(runner.State()), b, Opts(), c)
    {
      if c.plan !in runner.plans {
        return Halted(TranscriptMissing(c.stepIndex));
      }
      var stored := runner.plans[c.plan];
      if abort {
        var ok := runner.WriteCursor(c.plan, Aborted, c.stepIndex, c.stepId);
        if !ok {
          return Halted(Crashed);
        }
        return Deployed(c.plan, ReportedAborted, [], true, |stored.steps|, false);
      }
      var e := VerifyStoredTranscript(b, stored.steps);
      if e.Some? {
        return Halted(e.value);
      }
      var committed := CommittedThrough(c);
      e := VerifyAppliedDBStamps(runner, stored.steps, committed);
      if e.Some? {
        return Halted(e.value);
      }
      if c.state.Finalizing? {
        e := Finalize(runner, b, stored);
        if e.Some? {
          return Halted(e.value);
        }
        return Deployed(stored.hash, ReportedComplete, [], true, |stored.steps|, false);
      }
      var prevHash := if committed > 0 && (stored.hash, committed - 1) in runner.receipts
        then runner.receipts[(stored.hash, committed - 1)].row else NoDigest;
      r := RunFrom(runner, b, stored, committed, prevHash, true);
    }

    method EnsureDeploySubstrate(runner: Runner, b: Binary) returns (e: Option<DeployError>)
      modifies runner
      ensures e == if !HasSubstrate(b) then Some(SubstrateMissing) else if old(runner.credit) == 0 then Some(Crashed) else None
      ensures runner.State() ==
        if e.Some? then old(runner.State()) else World(Prepared(old(runner.Value()), b), old(runner.credit) - 1)
    {
      var file := FindFile(b.migrations, SUBSTRATE_FILE);
      if file.None? {
        return Some(SubstrateMissing);
      }
      var ok := runner.CreateDeployTables(file.value);
      if !ok {
        return Some(Crashed);
      }
      return None;
    }

    method Apply(runner: Runner, b: Binary) returns (r: Outcome)
      requires ValidBinary(b)
      modifies runner
      ensures (runner.State(), r) == Spec.Apply(old(runner.State()), b, Opts(), runner.readFails)
    {
      var failed := EnsureDeploySubstrate(runner, b);
      if failed.Some? {
        return Halted(failed.value);
      }
      r := Dispatch(runner, b);
    }

    method Dispatch(runner: Runner, b: Binary) returns (r: Outcome)
      requires ValidBinary(b)
      modifies runner
      ensures (runner.State(), r) == Spec.Dispatch(old(runner.State()), b, Opts(), runner.readFails)
    {
      if runner.cursor.None? || runner.cursor.value.state.Idle? {
        r := MaterializeAndRun(runner, b);
        return;
      }
      var c := runner.cursor.value.(stepId := None);
      if c.state.Complete? {
        if c.plan !in runner.plans {
          return Deployed(c.plan, ReportedComplete, [], false, 0, dryRun);
        }
        var stored := runner.plans[c.plan];
        var e := VerifyStoredTranscript(b, stored.steps);
        if e.Some? {
          return Halted(e.value);
        }
        return Deployed(c.plan, ReportedComplete, [], false, |stored.steps|, dryRun);
      } else if c.state.Aborted? {
        r := MaterializeAndRun(runner, b);
      } else {
        r := Resume(runner, b, c);
      }
    }
  }
}
