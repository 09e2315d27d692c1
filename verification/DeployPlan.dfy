/**
  The immutable deploy transcript of `striatum daemon deploy`: what a binary embeds, how
  BuildPlan turns the applied watermarks into an ordered plan, and what that plan is
  guaranteed to contain.

  SHA-256 is modelled as a free constructor (PlanHash, Digest), so distinct preimages have
  distinct digests; SQL text is opaque and identified by its content hash.
 */
module DeployPlan {
  import opened Wrappers

  // The deploy-plan-terminal DDL-revoke bundle.
  const DDL_REVOKE_VERSION: nat := 21

  datatype Role = Runtime | Owner

  // An embedded file name `<version>_<rest>.sql`; the version is its leading number.
  datatype FileName = FileName(version: nat, rest: string)

  datatype SqlFile = SqlFile(name: FileName, sha: string)

  // What one build of the daemon embeds. `latest` and `latestOwner` are its two frontier constants.
  datatype Binary = Binary(
    migrations: seq<SqlFile>,
    bundles: seq<SqlFile>,
    staged: Option<SqlFile>,
    latest: nat,
    latestOwner: nat,
    preflightOk: bool)

  datatype Step = Step(index: nat, id: FileName, role: Role, sha: string)

  datatype PlanHash = PlanHash(baseOwner: nat, baseRuntime: nat, targetOwner: nat, targetRuntime: nat, lines: seq<Step>)

  datatype Plan = Plan(
    hash: PlanHash,
    steps: seq<Step>,
    revokeStepIndex: int,
    baseOwner: nat,
    baseRuntime: nat,
    targetOwner: nat,
    targetRuntime: nat)

  ghost predicate Ascending(files: seq<SqlFile>) {
    forall i, j :: 0 <= i < j < |files| ==> files[i].name.version < files[j].name.version
  }

  ghost predicate WellFormedFiles(files: seq<SqlFile>) {
    && Ascending(files)
    && forall i :: 0 <= i < |files| ==> files[i].name.version > 0 && files[i].sha != ""
  }

  // The sets are sorted by a positive leading version, the frontier constants name their last
  // members (the repository's own tests pin both), and a content hash is never empty.
  ghost predicate ValidBinary(b: Binary) {
    && WellFormedFiles(b.migrations)
    && WellFormedFiles(b.bundles)
    && b.latest == (if b.migrations == [] then 0 else b.migrations[|b.migrations| - 1].name.version)
    && b.latestOwner == (if b.bundles == [] then 0 else b.bundles[|b.bundles| - 1].name.version)
    && (b.staged.Some? ==> b.staged.value.name.version == DDL_REVOKE_VERSION && b.staged.value.sha != "")
  }

  predicate IsNonRevoke(version: nat) {
    version != DDL_REVOKE_VERSION
  }

  ghost predicate RevokeEmbedded(b: Binary) {
    exists i :: 0 <= i < |b.bundles| && b.bundles[i].name.version == DDL_REVOKE_VERSION
  }

  // ---------------------------------------------------------------- specification of BuildPlan

  ghost function OwnerPending(files: seq<SqlFile>, base: nat): seq<SqlFile> {
    if files == [] then []
    else
      var last := files[|files| - 1];
      OwnerPending(files[..|files| - 1], base)
      + (if IsNonRevoke(last.name.version) && last.name.version > base then [last] else [])
  }

  ghost function RuntimePending(files: seq<SqlFile>, base: nat): seq<SqlFile> {
    if files == [] then []
    else
      var last := files[|files| - 1];
      RuntimePending(files[..|files| - 1], base) + (if last.name.version > base then [last] else [])
  }

  ghost function RevokeOf(files: seq<SqlFile>): Option<SqlFile> {
    if files == [] then None
    else if files[|files| - 1].name.version == DDL_REVOKE_VERSION then Some(files[|files| - 1])
    else RevokeOf(files[..|files| - 1])
  }

  ghost function Number(files: seq<SqlFile>, role: Role, start: nat): seq<Step> {
    seq(|files|, i requires 0 <= i < |files| => Step(start + i, files[i].name, role, files[i].sha))
  }

  ghost predicate RevokePlanned(b: Binary, baseOwner: nat) {
    RevokeOf(b.bundles).Some? && baseOwner < DDL_REVOKE_VERSION
  }

  ghost function PlanSteps(b: Binary, baseOwner: nat, baseRuntime: nat): seq<Step> {
    var owner := OwnerPending(b.bundles, baseOwner);
    var runtime := RuntimePending(b.migrations, baseRuntime);
    Number(owner, Owner, 0) + Number(runtime, Runtime, |owner|)
    + if RevokePlanned(b, baseOwner) then Number([RevokeOf(b.bundles).value], Owner, |owner| + |runtime|) else []
  }

  ghost function PlanOf(b: Binary, baseOwner: nat, baseRuntime: nat): Plan {
    var steps := PlanSteps(b, baseOwner, baseRuntime);
    Plan(PlanHash(baseOwner, baseRuntime, b.latestOwner, b.latest, steps), steps,
         if RevokePlanned(b, baseOwner) then |steps| - 1 else -1,
         baseOwner, baseRuntime, b.latestOwner, b.latest)
  }

  // ---------------------------------------------------------------- BuildPlan

  method MaxEmbeddedOwnerVersion(bundles: seq<SqlFile>) returns (max: nat)
    ensures forall i :: 0 <= i < |bundles| ==> bundles[i].name.version <= max
    ensures max == 0 || exists i :: 0 <= i < |bundles| && bundles[i].name.version == max
  {
    max := 0;
    for i := 0 to |bundles|
      invariant forall j :: 0 <= j < i ==> bundles[j].name.version <= max
      invariant max == 0 || exists j :: 0 <= j < i && bundles[j].name.version == max
    {
      if bundles[i].name.version > max {
        max := bundles[i].name.version;
      }
    }
  }

  lemma NumberSnoc(files: seq<SqlFile>, f: SqlFile, role: Role, start: nat)
    ensures Number(files + [f], role, start) == Number(files, role, start) + [Step(start + |files|, f.name, role, f.sha)]
  {
  }

  // The owner loop of BuildPlan: the pending bundles in order, the revoke set aside.
  method PlanOwnerSteps(bundles: seq<SqlFile>, baseOwner: nat) returns (steps: seq<Step>, revoke: Option<SqlFile>)
    ensures |steps| == |OwnerPending(bundles, baseOwner)|
    ensures steps == Number(OwnerPending(bundles, baseOwner), Owner, 0)
    ensures revoke == RevokeOf(bundles)
  {
    steps, revoke := [], None;
    var idx := 0;
    for i := 0 to |bundles|
      invariant idx == |steps| == |OwnerPending(bundles[..i], baseOwner)|
      invariant steps == Number(OwnerPending(bundles[..i], baseOwner), Owner, 0)
      invariant revoke == RevokeOf(bundles[..i])
    {
      var bundle := bundles[i];
      assert bundles[..i + 1][..i] == bundles[..i];
      NumberSnoc(OwnerPending(bundles[..i], baseOwner), bundle, Owner, 0);
      if !IsNonRevoke(bundle.name.version) {
        if bundle.name.version >= DDL_REVOKE_VERSION {
          revoke := Some(bundle);
        }
        continue;
      }
      if bundle.name.version <= baseOwner {
        continue;
      }
      steps := steps + [Step(idx, bundle.name, Owner, bundle.sha)];
      idx := idx + 1;
    }
    assert bundles[..|bundles|] == bundles;
  }

  // The runtime loop, numbering on from idx.
  method PlanRuntimeSteps(migrations: seq<SqlFile>, baseRuntime: nat, idx: nat) returns (steps: seq<Step>)
    ensures |steps| == |RuntimePending(migrations, baseRuntime)|
    ensures steps == Number(RuntimePending(migrations, baseRuntime), Runtime, idx)
  {
    steps := [];
    for i := 0 to |migrations|
      invariant |steps| == |RuntimePending(migrations[..i], baseRuntime)|
      invariant steps == Number(RuntimePending(migrations[..i], baseRuntime), Runtime, idx)
    {
      var m := migrations[i];
      assert migrations[..i + 1][..i] == migrations[..i];
      NumberSnoc(RuntimePending(migrations[..i], baseRuntime), m, Runtime, idx);
      if m.name.version <= baseRuntime {
        continue;
      }
      steps := steps + [Step(idx + |steps|, m.name, Runtime, m.sha)];
    }
    assert migrations[..|migrations|] == migrations;
  }

  method BuildPlan(b: Binary, baseOwner: nat, baseRuntime: nat) returns (plan: Plan)
    requires ValidBinary(b)
    ensures plan == PlanOf(b, baseOwner, baseRuntime)
  {
    hide ValidBinary, OwnerPending, RuntimePending, RevokeOf;
    var steps, revoke := PlanOwnerSteps(b.bundles, baseOwner);
    var runtimeSteps := PlanRuntimeSteps(b.migrations, baseRuntime, |steps|);
    steps := steps + runtimeSteps;
    var revokeStepIndex := -1;
    if revoke.Some? && baseOwner < DDL_REVOKE_VERSION {
      NumberSnoc([], revoke.value, Owner, |steps|);
      assert [] + [revoke.value] == [revoke.value];
      revokeStepIndex := |steps|;
      steps := steps + [Step(|steps|, revoke.value.name, Owner, revoke.value.sha)];
    }
    assert steps == PlanSteps(b, baseOwner, baseRuntime);
    var targetOwner := MaxEmbeddedOwnerVersion(b.bundles);
    LatestOwnerIsMax(b, targetOwner);
    plan := Plan(PlanHash(baseOwner, baseRuntime, targetOwner, b.latest, steps), steps, revokeStepIndex,
                 baseOwner, baseRuntime, targetOwner, b.latest);
  }

  lemma LatestOwnerIsMax(b: Binary, max: int)
    requires ValidBinary(b)
    requires forall i :: 0 <= i < |b.bundles| ==> b.bundles[i].name.version <= max
    requires max == 0 || exists i :: 0 <= i < |b.bundles| && b.bundles[i].name.version == max
    ensures max == b.latestOwner
  {
    if b.bundles != [] {
      assert b.bundles[|b.bundles| - 1].name.version <= max;
    }
  }

  // ---------------------------------------------------------------- what a plan contains

  lemma {:induction false} OwnerPendingCharacterised(files: seq<SqlFile>, base: nat)
    requires Ascending(files)
    ensures Ascending(OwnerPending(files, base))
    ensures forall f :: f in OwnerPending(files, base) <==> f in files && IsNonRevoke(f.name.version) && f.name.version > base
  {
    if files != [] {
      var front := files[..|files| - 1];
      OwnerPendingCharacterised(front, base);
      assert files == front + [files[|files| - 1]];
    }
  }

  lemma {:induction false} RuntimePendingCharacterised(files: seq<SqlFile>, base: nat)
    requires Ascending(files)
    ensures Ascending(RuntimePending(files, base))
    ensures forall f :: f in RuntimePending(files, base) <==> f in files && f.name.version > base
  {
    if files != [] {
      var front := files[..|files| - 1];
      RuntimePendingCharacterised(front, base);
      assert files == front + [files[|files| - 1]];
    }
  }

  lemma {:induction false} RevokeOfCharacterised(files: seq<SqlFile>)
    ensures RevokeOf(files).Some? <==> exists f :: f in files && f.name.version == DDL_REVOKE_VERSION
    ensures RevokeOf(files).Some? ==> RevokeOf(files).value in files && RevokeOf(files).value.name.version == DDL_REVOKE_VERSION
  {
    if files != [] {
      var front := files[..|files| - 1];
      RevokeOfCharacterised(front);
      assert files == front + [files[|files| - 1]];
    }
  }

  // Each step sits at its own index and carries a positive version and a content hash.
  ghost predicate Dense(steps: seq<Step>) {
    forall i :: 0 <= i < |steps| ==> steps[i].index == i && steps[i].id.version > 0 && steps[i].sha != ""
  }

  ghost predicate AboveBase(steps: seq<Step>, baseOwner: nat, baseRuntime: nat) {
    forall i :: 0 <= i < |steps| ==> steps[i].id.version > (if steps[i].role.Owner? then baseOwner else baseRuntime)
  }

  // Non-revoke owner bundles, ascending, then runtime migrations, ascending, then the revoke.
  ghost predicate Ordered(steps: seq<Step>, revokeStepIndex: int) {
    && (forall i, j :: 0 <= i < j < |steps| && steps[i].role == steps[j].role && j != revokeStepIndex ==>
          steps[i].id.version < steps[j].id.version)
    && (forall i, j :: 0 <= i < j < |steps| && steps[i].role.Runtime? && steps[j].role.Owner? ==> j == revokeStepIndex)
  }

  // The revoke is a step iff revokeStepIndex says so, and then it is the last one.
  ghost predicate RevokeTerminal(steps: seq<Step>, revokeStepIndex: int) {
    && (forall i :: 0 <= i < |steps| ==> (IsRevokeStep(steps[i]) <==> i == revokeStepIndex))
    && (revokeStepIndex == -1 || (steps != [] && revokeStepIndex == |steps| - 1))
  }

  predicate IsRevokeStep(s: Step) {
    s.role.Owner? && s.id.version == DDL_REVOKE_VERSION
  }

  // The runtime frontier is either already applied or among the steps.
  ghost predicate ReachesFrontier(p: Plan) {
    || p.targetRuntime <= p.baseRuntime
    || exists i :: 0 <= i < |p.steps| && p.steps[i].role.Runtime? && p.steps[i].id.version == p.targetRuntime
  }

  // A stored plan's structural promise.
  ghost predicate WellFormedPlan(p: Plan) {
    && p.hash == PlanHash(p.baseOwner, p.baseRuntime, p.targetOwner, p.targetRuntime, p.steps)
    && Dense(p.steps)
    && AboveBase(p.steps, p.baseOwner, p.baseRuntime)
    && Ordered(p.steps, p.revokeStepIndex)
    && RevokeTerminal(p.steps, p.revokeStepIndex)
    && ReachesFrontier(p)
  }

  // No two steps of a plan name the same file set and version.
  lemma StepsAreDistinct(p: Plan, i: nat, j: nat)
    requires WellFormedPlan(p) && i < j < |p.steps| && p.steps[i].role == p.steps[j].role
    ensures p.steps[i].id.version != p.steps[j].id.version
  {
    if j == p.revokeStepIndex {
      assert IsRevokeStep(p.steps[j]) && !IsRevokeStep(p.steps[i]);
    }
  }

  ghost predicate Planned(steps: seq<Step>, role: Role, f: SqlFile) {
    exists i :: 0 <= i < |steps| && steps[i].role == role && steps[i].id == f.name && steps[i].sha == f.sha
  }

  // The three segments of a fresh plan, position by position.
  ghost predicate Shaped(steps: seq<Step>, owner: seq<SqlFile>, runtime: seq<SqlFile>, revoke: Option<SqlFile>) {
    && |steps| == |owner| + |runtime| + (if revoke.Some? then 1 else 0)
    && (forall i :: 0 <= i < |owner| ==> steps[i] == Step(i, owner[i].name, Owner, owner[i].sha))
    && (forall i :: |owner| <= i < |owner| + |runtime| ==>
         steps[i] == Step(i, runtime[i - |owner|].name, Runtime, runtime[i - |owner|].sha))
    && (revoke.Some? ==> steps[|owner| + |runtime|] == Step(|owner| + |runtime|, revoke.value.name, Owner, revoke.value.sha))
  }

  ghost function PlannedRevoke(b: Binary, baseOwner: nat): Option<SqlFile> {
    if RevokePlanned(b, baseOwner) then RevokeOf(b.bundles) else None
  }

  lemma PlanShape(b: Binary, baseOwner: nat, baseRuntime: nat, owner: seq<SqlFile>, runtime: seq<SqlFile>, steps: seq<Step>)
    requires owner == OwnerPending(b.bundles, baseOwner) && runtime == RuntimePending(b.migrations, baseRuntime)
    requires steps == PlanSteps(b, baseOwner, baseRuntime)
    ensures Shaped(steps, owner, runtime, PlannedRevoke(b, baseOwner))
  {
  }

  ghost predicate OwnerFiles(files: seq<SqlFile>, base: nat) {
    && Ascending(files)
    && forall i :: 0 <= i < |files| ==>
         IsNonRevoke(files[i].name.version) && files[i].name.version > base && files[i].name.version > 0 && files[i].sha != ""
  }

  ghost predicate RuntimeFiles(files: seq<SqlFile>, base: nat) {
    && Ascending(files)
    && forall i :: 0 <= i < |files| ==> files[i].name.version > base && files[i].name.version > 0 && files[i].sha != ""
  }

  ghost predicate RevokeFile(revoke: Option<SqlFile>, base: nat) {
    revoke.Some? ==> revoke.value.name.version == DDL_REVOKE_VERSION > base && revoke.value.sha != ""
  }

  // Any list of that shape over well-formed files is a well-formed transcript.
  lemma ShapedIsDense(steps: seq<Step>, owner: seq<SqlFile>, runtime: seq<SqlFile>, revoke: Option<SqlFile>, bo: nat, br: nat)
    requires Shaped(steps, owner, runtime, revoke) && OwnerFiles(owner, bo) && RuntimeFiles(runtime, br) && RevokeFile(revoke, bo)
    ensures Dense(steps) && AboveBase(steps, bo, br)
  {
  }

  lemma ShapedIsOrdered(steps: seq<Step>, owner: seq<SqlFile>, runtime: seq<SqlFile>, revoke: Option<SqlFile>, bo: nat, br: nat)
    requires Shaped(steps, owner, runtime, revoke) && OwnerFiles(owner, bo) && RuntimeFiles(runtime, br) && RevokeFile(revoke, bo)
    ensures Ordered(steps, if revoke.Some? then |steps| - 1 else -1)
  {
  }

  lemma ShapedIsRevokeTerminal(steps: seq<Step>, owner: seq<SqlFile>, runtime: seq<SqlFile>, revoke: Option<SqlFile>, bo: nat, br: nat)
    requires Shaped(steps, owner, runtime, revoke) && OwnerFiles(owner, bo) && RuntimeFiles(runtime, br) && RevokeFile(revoke, bo)
    ensures RevokeTerminal(steps, if revoke.Some? then |steps| - 1 else -1)
  {
  }

  // The files a fresh plan draws on: above base, from the right set, in order.
  lemma PendingFiles(b: Binary, baseOwner: nat, baseRuntime: nat)
    requires ValidBinary(b)
    ensures OwnerFiles(OwnerPending(b.bundles, baseOwner), baseOwner)
    ensures RuntimeFiles(RuntimePending(b.migrations, baseRuntime), baseRuntime)
    ensures RevokeFile(PlannedRevoke(b, baseOwner), baseOwner)
  {
    var owner, runtime := OwnerPending(b.bundles, baseOwner), RuntimePending(b.migrations, baseRuntime);
    OwnerPendingCharacterised(b.bundles, baseOwner);
    RuntimePendingCharacterised(b.migrations, baseRuntime);
    RevokeOfCharacterised(b.bundles);
    forall i | 0 <= i < |owner| ensures owner[i] in b.bundles && owner[i].name.version > baseOwner && IsNonRevoke(owner[i].name.version) {
      assert owner[i] in owner;
    }
    forall i | 0 <= i < |runtime| ensures runtime[i] in b.migrations && runtime[i].name.version > baseRuntime {
      assert runtime[i] in runtime;
    }
  }

  lemma FrontierPlanned(b: Binary, baseOwner: nat, baseRuntime: nat)
    requires ValidBinary(b) && b.latest > baseRuntime
    requires b.migrations != []
    ensures Planned(PlanSteps(b, baseOwner, baseRuntime), Runtime, b.migrations[|b.migrations| - 1])
  {
    RuntimeFileIsPlanned(b, baseOwner, baseRuntime, b.migrations[|b.migrations| - 1]);
  }

  lemma RuntimeFileIsPlanned(b: Binary, baseOwner: nat, baseRuntime: nat, f: SqlFile)
    requires ValidBinary(b)
    requires f in b.migrations && f.name.version > baseRuntime
    ensures Planned(PlanSteps(b, baseOwner, baseRuntime), Runtime, f)
  {
    var owner, runtime := OwnerPending(b.bundles, baseOwner), RuntimePending(b.migrations, baseRuntime);
    var steps := PlanSteps(b, baseOwner, baseRuntime);
    PlanShape(b, baseOwner, baseRuntime, owner, runtime, steps);
    RuntimePendingCharacterised(b.migrations, baseRuntime);
    assert f in runtime;
    var k :| 0 <= k < |runtime| && runtime[k] == f;
    assert steps[|owner| + k] == Step(|owner| + k, f.name, Runtime, f.sha);
  }

  lemma OwnerFileIsPlanned(b: Binary, baseOwner: nat, baseRuntime: nat, f: SqlFile)
    requires ValidBinary(b)
    requires f in b.bundles && f.name.version > baseOwner
    ensures Planned(PlanSteps(b, baseOwner, baseRuntime), Owner, f)
  {
    var owner, runtime := OwnerPending(b.bundles, baseOwner), RuntimePending(b.migrations, baseRuntime);
    var steps := PlanSteps(b, baseOwner, baseRuntime);
    PlanShape(b, baseOwner, baseRuntime, owner, runtime, steps);
    if IsNonRevoke(f.name.version) {
      OwnerPendingCharacterised(b.bundles, baseOwner);
      assert f in owner;
      var k :| 0 <= k < |owner| && owner[k] == f;
      assert steps[k] == Step(k, f.name, Owner, f.sha);
    } else {
      RevokeOfCharacterised(b.bundles);
      var r := RevokeOf(b.bundles).value;
      SameVersionSameFile(b.bundles, r, f);
      assert steps[|owner| + |runtime|] == Step(|owner| + |runtime|, f.name, Owner, f.sha);
    }
  }

  lemma SameVersionSameFile(files: seq<SqlFile>, f: SqlFile, g: SqlFile)
    requires Ascending(files) && f in files && g in files && f.name.version == g.name.version
    ensures f == g
  {
    var i :| 0 <= i < |files| && files[i] == f;
    var j :| 0 <= j < |files| && files[j] == g;
    assert !(i < j) && !(j < i);
  }

  // Every plan a valid binary builds is dense, ordered owner -> runtime -> revoke, and free of
  // duplicates, from any pair of base watermarks.
  lemma BuiltPlanIsWellFormed(b: Binary, baseOwner: nat, baseRuntime: nat)
    requires ValidBinary(b)
    ensures WellFormedPlan(PlanOf(b, baseOwner, baseRuntime))
  {
    var p := PlanOf(b, baseOwner, baseRuntime);
    var owner, runtime := OwnerPending(b.bundles, baseOwner), RuntimePending(b.migrations, baseRuntime);
    var revoke := PlannedRevoke(b, baseOwner);
    PlanShape(b, baseOwner, baseRuntime, owner, runtime, p.steps);
    PendingFiles(b, baseOwner, baseRuntime);
    ShapedIsDense(p.steps, owner, runtime, revoke, baseOwner, baseRuntime);
    ShapedIsOrdered(p.steps, owner, runtime, revoke, baseOwner, baseRuntime);
    ShapedIsRevokeTerminal(p.steps, owner, runtime, revoke, baseOwner, baseRuntime);
    if b.latest > baseRuntime {
      FrontierPlanned(b, baseOwner, baseRuntime);
    }
  }

  // Coverage, exactly: an embedded file is a step of the fresh plan iff it lies above the base
  // watermark of its role. For the revoke bundle that reads 21 > MAX(owner watermark), so once a
  // bundle above 21 is applied an unapplied revoke is never planned again.
  lemma PlanCoverage(b: Binary, baseOwner: nat, baseRuntime: nat)
    requires ValidBinary(b)
    ensures forall f :: f in b.migrations ==>
      (Planned(PlanSteps(b, baseOwner, baseRuntime), Runtime, f) <==> f.name.version > baseRuntime)
    ensures forall f :: f in b.bundles ==>
      (Planned(PlanSteps(b, baseOwner, baseRuntime), Owner, f) <==> f.name.version > baseOwner)
  {
    BuiltPlanIsWellFormed(b, baseOwner, baseRuntime);
    forall f | f in b.migrations && f.name.version > baseRuntime
      ensures Planned(PlanSteps(b, baseOwner, baseRuntime), Runtime, f)
    {
      RuntimeFileIsPlanned(b, baseOwner, baseRuntime, f);
    }
    forall f | f in b.bundles && f.name.version > baseOwner
      ensures Planned(PlanSteps(b, baseOwner, baseRuntime), Owner, f)
    {
      OwnerFileIsPlanned(b, baseOwner, baseRuntime, f);
    }
  }
}
