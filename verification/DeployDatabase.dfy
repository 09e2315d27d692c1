/**
  The PostgreSQL state the deploy engine and the boot path touch, one atomic operation per
  transaction. `Db` is its value, `Runner` the connection that owns it.

  A process may die, or a statement that writes fail, between any two transactions. `Runner.credit`
  is the number of transactions that still commit: at zero every further one fails and changes
  nothing. A failing read ends the process too, except the read of the runtime watermark.
 */
module DeployDatabase {
  import opened Wrappers
  import opened DeployPlan

  // Runtime migration 44 creates the deploy tables. Every deploy also executes its file up front.
  const SUBSTRATE_FILE: FileName := FileName(44, "deploy_cursor.sql")

  // Runtime migration 43 creates the schema_state table the fingerprint is recorded in.
  const SCHEMA_STATE_MIGRATION: nat := 43

  datatype CursorState = Idle | InProgress | StepCommitted | Finalizing | Complete | Aborted

  datatype CursorRow = CursorRow(plan: PlanHash, state: CursorState, stepIndex: nat, stepId: Option<FileName>)

  // Row hashes of deploy_receipt; NoDigest is the empty string before step 0.
  datatype Digest = NoDigest | Link(prev: Digest, plan: PlanHash, index: nat, id: FileName, sha: string)

  datatype Receipt = Receipt(id: FileName, sha: string, prev: Digest, row: Digest)

  // The content-addressed digest of everything a binary embeds.
  datatype Fingerprint = Fingerprint(migrations: set<SqlFile>, bundles: set<(nat, string)>)

  datatype SchemaState = NoTable | NoRow | Recorded(fingerprint: Fingerprint)

  // Who ran a file: a plan's step, the legacy apply-on-boot path, or ensureDeploySubstrate.
  datatype Via = ByPlan(plan: PlanHash) | ByBoot | BySubstrate

  // One committed execution of a file's DDL.
  datatype Executed = Executed(via: Via, role: Role, version: nat, sha: string)

  // `executed` and `origin` are history variables that no table records: the executions so far, and
  // the runtime stamps as they were when the cursor's plan was materialized. `cursor`, `plans` and
  // `receipts` are empty while `deployTables` is false.
  datatype Db = Db(
    cursor: Option<CursorRow>,
    plans: map<PlanHash, Plan>,
    receipts: map<(PlanHash, nat), Receipt>,
    migrations: map<nat, string>,
    substrate: nat,
    bundles: map<nat, string>,
    schemaState: SchemaState,
    deployTables: bool,
    origin: map<nat, string>,
    executed: seq<Executed>)

  datatype World = World(db: Db, credit: nat)

  // INSERT ... ON CONFLICT DO NOTHING
  function InsertNew<K, V>(m: map<K, V>, k: K, v: V): map<K, V> {
    if k in m then m else m[k := v]
  }

  // COALESCE(MAX(version), 0)
  ghost function MaxVersion(versions: set<nat>): (r: nat)
    ensures forall v :: v in versions ==> v <= r
    ensures r == 0 || r in versions
  {
    if !exists v :: v in versions then 0
    else
      var v :| v in versions;
      var rest := MaxVersion(versions - {v});
      assert versions == (versions - {v}) + {v};
      if v > rest then v else rest
  }

  // What ReadSchemaVersion returns: a read that fails is taken for version 0.
  function ReadVersion(substrate: nat, readFails: bool): nat {
    if readFails then 0 else substrate
  }

  function LinkOf(prev: Digest, plan: PlanHash, step: Step): Digest {
    Link(prev, plan, step.index, step.id, step.sha)
  }

  function ExpectedFingerprint(b: Binary): Fingerprint {
    Fingerprint(set f | f in b.migrations, set f | f in b.bundles :: (f.name.version, f.sha))
  }

  // ---------------------------------------------------------------- transactions as functions

  // The body of migration 44, executed at the start of every deploy: CREATE TABLE IF NOT EXISTS,
  // and no stamp.
  function WithDeployTables(db: Db, file: SqlFile): Db {
    db.(deployTables := true,
        executed := db.executed + [Executed(BySubstrate, Runtime, SUBSTRATE_FILE.version, file.sha)])
  }

  ghost function Materialized(db: Db, plan: Plan): Db {
    db.(plans := InsertNew(db.plans, plan.hash, plan),
        cursor := Some(CursorRow(plan.hash, InProgress, 0, None)),
        origin := db.migrations)
  }

  predicate CreatesTables(role: Role, version: nat) {
    role.Runtime? && version == SUBSTRATE_FILE.version
  }

  function AfterDdl(s: SchemaState, role: Role, version: nat): SchemaState {
    if s.NoTable? && role.Runtime? && version == SCHEMA_STATE_MIGRATION then NoRow else s
  }

  // The step transaction: DDL, version stamp, cursor advance and receipt, all or nothing.
  ghost function StepDone(db: Db, plan: PlanHash, step: Step, file: SqlFile, prev: Digest): Db {
    var version := file.name.version;
    var stamped := match step.role
      case Runtime => db.(migrations := InsertNew(db.migrations, version, step.sha), substrate := version)
      case Owner => db.(bundles := InsertNew(db.bundles, version, step.sha));
    stamped.(
      schemaState := AfterDdl(db.schemaState, step.role, version),
      deployTables := db.deployTables || CreatesTables(step.role, version),
      cursor := Some(CursorRow(plan, StepCommitted, step.index, Some(step.id))),
      receipts := InsertNew(db.receipts, (plan, step.index), Receipt(step.id, step.sha, prev, LinkOf(prev, plan, step))),
      executed := db.executed + [Executed(ByPlan(plan), step.role, version, file.sha)])
  }

  // The same, column by column.
  lemma StepColumns(db: Db, plan: PlanHash, step: Step, file: SqlFile, prev: Digest)
    ensures var version, runtime := file.name.version, step.role.Runtime?;
            StepDone(db, plan, step, file, prev) == Db(
              Some(CursorRow(plan, StepCommitted, step.index, Some(step.id))),
              db.plans,
              InsertNew(db.receipts, (plan, step.index), Receipt(step.id, step.sha, prev, LinkOf(prev, plan, step))),
              if runtime then InsertNew(db.migrations, version, step.sha) else db.migrations,
              if runtime then version else db.substrate,
              if runtime then db.bundles else InsertNew(db.bundles, version, step.sha),
              AfterDdl(db.schemaState, step.role, version),
              db.deployTables || CreatesTables(step.role, version),
              db.origin,
              db.executed + [Executed(ByPlan(plan), step.role, version, file.sha)])
  {
    hide InsertNew, AfterDdl, CreatesTables, LinkOf, MaxVersion;
  }

  function WithCursor(db: Db, plan: PlanHash, state: CursorState, stepIndex: nat, stepId: Option<FileName>): Db {
    db.(cursor := Some(CursorRow(plan, state, stepIndex, stepId)))
  }

  function WithFingerprint(db: Db, f: Fingerprint): Db {
    if db.schemaState.NoTable? then db else db.(schemaState := Recorded(f))
  }

  // applyOne: DDL and both stamps, rolled back when the recorded hash disagrees.
  ghost function MigrationDone(db: Db, m: SqlFile): Db {
    db.(migrations := InsertNew(db.migrations, m.name.version, m.sha),
        substrate := m.name.version,
        schemaState := AfterDdl(db.schemaState, Runtime, m.name.version),
        deployTables := db.deployTables || CreatesTables(Runtime, m.name.version),
        executed := db.executed + [Executed(ByBoot, Runtime, m.name.version, m.sha)])
  }

  predicate RecordedHashAgrees(migrations: map<nat, string>, m: SqlFile) {
    m.name.version in migrations && migrations[m.name.version] != "" ==> migrations[m.name.version] == m.sha
  }

  // ---------------------------------------------------------------- the connection

  class Runner {
    var cursor: Option<CursorRow>
    var plans: map<PlanHash, Plan>
    var receipts: map<(PlanHash, nat), Receipt>
    var migrations: map<nat, string>
    var substrate: nat
    var bundles: map<nat, string>
    var schemaState: SchemaState
    var deployTables: bool
    ghost var origin: map<nat, string>
    ghost var executed: seq<Executed>
    var credit: nat

    // Whether the read of the watermark fails on this connection.
    const readFails: bool

    ghost function Value(): Db
      reads this
    {
      Db(cursor, plans, receipts, migrations, substrate, bundles, schemaState, deployTables, origin, executed)
    }

    ghost function State(): World
      reads this
    {
      World(Value(), credit)
    }

    // Begin, or an autocommit statement: false once the connection is dead.
    method Begin() returns (ok: bool)
      modifies this`credit
      ensures ok == (old(credit) > 0)
      ensures credit == if ok then old(credit) - 1 else old(credit)
    {
      ok := credit > 0;
      if ok {
        credit := credit - 1;
      }
    }

    method OwnerBundleVersion() returns (v: nat)
      ensures v == MaxVersion(bundles.Keys)
    {
      v := 0;
      var rest := bundles.Keys;
      while exists k :: k in rest
        invariant rest <= bundles.Keys
        invariant forall k :: k in bundles.Keys && k !in rest ==> k <= v
        invariant v == 0 || v in bundles.Keys
        decreases |rest|
      {
        var k :| k in rest;
        if k > v {
          v := k;
        }
        rest := rest - {k};
      }
    }

    method ReadSchemaVersion() returns (v: nat)
      ensures v == ReadVersion(substrate, readFails)
    {
      if readFails {
        return 0;
      }
      return substrate;
    }

    // ensureDeploySubstrate's one write.
    method CreateDeployTables(file: SqlFile) returns (ok: bool)
      modifies this
      ensures ok == (old(credit) > 0)
      ensures State() == if ok then World(WithDeployTables(old(Value()), file), old(credit) - 1) else old(State())
    {
      ok := Begin();
      if ok {
        deployTables := true;
        executed := executed + [Executed(BySubstrate, Runtime, SUBSTRATE_FILE.version, file.sha)];
      }
    }

    method MaterializePlan(plan: Plan) returns (ok: bool)
      modifies this
      ensures ok == (old(credit) > 0)
      ensures State() == if ok then World(Materialized(old(Value()), plan), old(credit) - 1) else old(State())
    {
      ok := Begin();
      if !ok {
        return;
      }
      plans := InsertNew(plans, plan.hash, plan);
      cursor := Some(CursorRow(plan.hash, InProgress, 0, None));
      origin := migrations;
    }

    // The version stamp of one role: schema_migrations with the watermark, or owner_bundle_meta.
    method Stamp(role: Role, version: nat, sha: string)
      modifies this`migrations, this`substrate, this`bundles
      ensures migrations == if role.Runtime? then InsertNew(old(migrations), version, sha) else old(migrations)
      ensures substrate == if role.Runtime? then version else old(substrate)
      ensures bundles == if role.Owner? then InsertNew(old(bundles), version, sha) else old(bundles)
    {
      match role {
        case Runtime =>
          migrations := InsertNew(migrations, version, sha);
          substrate := version;
        case Owner =>
          bundles := InsertNew(bundles, version, sha);
      }
    }

    method CommitStep(plan: PlanHash, step: Step, file: SqlFile, prev: Digest) returns (ok: bool, row: Digest)
      modifies this
      ensures ok == (old(credit) > 0)
      ensures row == LinkOf(prev, plan, step)
      ensures State() == if ok then World(StepDone(old(Value()), plan, step, file, prev), old(credit) - 1) else old(State())
    {
      hide StepDone, InsertNew, AfterDdl, CreatesTables, LinkOf, MaxVersion;
      StepColumns(Value(), plan, step, file, prev);
      row := LinkOf(prev, plan, step);
      ok := Begin();
      if !ok {
        return;
      }
      var version := file.name.version;
      Stamp(step.role, version, step.sha);
      executed := executed + [Executed(ByPlan(plan), step.role, version, file.sha)];
      schemaState := AfterDdl(schemaState, step.role, version);
      deployTables := deployTables || CreatesTables(step.role, version);
      cursor := Some(CursorRow(plan, StepCommitted, step.index, Some(step.id)));
      receipts := InsertNew(receipts, (plan, step.index), Receipt(step.id, step.sha, prev, row));
    }

    method WriteCursor(plan: PlanHash, state: CursorState, stepIndex: nat, stepId: Option<FileName>) returns (ok: bool)
      modifies this
      ensures ok == (old(credit) > 0)
      ensures State() == if ok then World(WithCursor(old(Value()), plan, state, stepIndex, stepId), old(credit) - 1) else old(State())
    {
      ok := Begin();
      if ok {
        cursor := Some(CursorRow(plan, state, stepIndex, stepId));
      }
    }

    // RecordSchemaFingerprint writes nothing, and needs no statement, while the table is absent.
    method RecordFingerprint(f: Fingerprint) returns (ok: bool)
      modifies this
      ensures ok == (old(schemaState).NoTable? || old(credit) > 0)
      ensures State() ==
        if old(schemaState).NoTable? || old(credit) == 0 then old(State())
        else World(WithFingerprint(old(Value()), f), old(credit) - 1)
    {
      if schemaState.NoTable? {
        return true;
      }
      ok := Begin();
      if ok {
        schemaState := Recorded(f);
      }
    }

    // applyOne; `drifted` reports the in-transaction hash check that rolls everything back.
    method ApplyOne(m: SqlFile) returns (ok: bool, drifted: bool)
      modifies this
      ensures ok == (old(credit) > 0 && RecordedHashAgrees(InsertNew(old(migrations), m.name.version, m.sha), m))
      ensures drifted == (old(credit) > 0 && !ok)
      ensures State() ==
        if ok then World(MigrationDone(old(Value()), m), old(credit) - 1)
        else if drifted then World(old(Value()), old(credit) - 1)
        else old(State())
    {
      drifted := false;
      ok := Begin();
      if !ok {
        return;
      }
      var stamped := InsertNew(migrations, m.name.version, m.sha);
      if !RecordedHashAgrees(stamped, m) {
        return false, true;
      }
      executed := executed + [Executed(ByBoot, Runtime, m.name.version, m.sha)];
      schemaState := AfterDdl(schemaState, Runtime, m.name.version);
      deployTables := deployTables || CreatesTables(Runtime, m.name.version);
      migrations := stamped;
      substrate := m.name.version;
    }
  }
}
