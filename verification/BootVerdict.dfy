/**
  What a boot answers, for every database and every binary: the interlock, the revoke barrier, the
  gate and the legacy path, read off the tables and the embedded files.
 */
module BootVerdict {
  import opened Wrappers
  import opened DeployPlan
  import opened DeployDatabase
  import opened Migrations
  import opened BootGate

  // ---------------------------------------------------------------- the owner-bundle interlock

  lemma GreatestIsMax(versions: set<nat>, v: nat)
    requires v in versions && forall u :: u in versions ==> u <= v
    ensures MaxVersion(versions) == v
  {
    assert v <= MaxVersion(versions);
  }

  lemma GreaterEmbeddedIff(b: Binary, v: nat)
    requires ValidBinary(b)
    ensures (exists f :: f in b.bundles && f.name.version > v) <==> v < b.latestOwner
  {
    if b.bundles != [] {
      var last := b.bundles[|b.bundles| - 1];
      assert last in b.bundles;
      if f :| f in b.bundles && f.name.version > v {
        var i :| 0 <= i < |b.bundles| && b.bundles[i] == f;
      }
    }
  }

  // The boot waits for owner DDL at version v, and leaves the database alone, iff v is the greatest
  // applied bundle and some embedded bundle is greater.
  lemma AwaitsOwnerDdlIff(w: World, b: Binary, decoupled: bool, refuseDrift: bool, readFails: bool, v: nat)
    requires ValidBinary(b)
    ensures Boot(w, b, decoupled, refuseDrift, readFails) == (w, AwaitingOwnerDdl(v)) <==>
              && v > 0 && v in w.db.bundles && (forall u :: u in w.db.bundles ==> u <= v)
              && exists f :: f in b.bundles && f.name.version > v
    ensures Boot(w, b, decoupled, refuseDrift, readFails).1 == AwaitingOwnerDdl(v) ==>
              Boot(w, b, decoupled, refuseDrift, readFails).0 == w
  {
    hide MaxVersion, LegacyServe, Activation, RevokeEmbedded, ValidBinary;
    GreaterEmbeddedIff(b, v);
    if v in w.db.bundles && forall u :: u in w.db.bundles ==> u <= v {
      GreatestIsMax(w.db.bundles.Keys, v);
    }
    LegacyNeverAwaits(w, b, refuseDrift, readFails);
  }

  lemma LegacyNeverAwaits(w: World, b: Binary, refuseDrift: bool, readFails: bool)
    ensures !LegacyServe(w, b, refuseDrift, readFails).1.AwaitingOwnerDdl?
    ensures LegacyServe(w, b, refuseDrift, readFails).1 !in {RevokeAlreadyApplied, AwaitingDeploy, AwaitingDeployConfig}
  {
    hide ApplyMigrations, ExpectedFingerprint;
  }

  // ---------------------------------------------------------------- the gate

  // The fingerprint of exactly this binary's migrations and bundles.
  ghost predicate OwnFingerprint(b: Binary, fp: Fingerprint) {
    && (forall f :: f in fp.migrations <==> f in b.migrations)
    && (forall version: nat, sha: string ::
          (version, sha) in fp.bundles <==> exists f :: f in b.bundles && f.name.version == version && f.sha == sha)
  }

  lemma OwnFingerprintIff(b: Binary, fp: Fingerprint)
    ensures OwnFingerprint(b, fp) <==> fp == ExpectedFingerprint(b)
  {
    var own := ExpectedFingerprint(b);
    forall version: nat, sha: string
      ensures (version, sha) in own.bundles <==> exists f :: f in b.bundles && f.name.version == version && f.sha == sha
    {
    }
    if OwnFingerprint(b, fp) {
      forall p: (nat, string)
        ensures p in fp.bundles <==> p in own.bundles
      {
        assert p == (p.0, p.1);
      }
      assert fp.migrations == own.migrations && fp.bundles == own.bundles;
    }
  }

  // The greatest version among the files, 0 for none.
  ghost predicate IsLatest(files: seq<SqlFile>, v: nat) {
    && (forall f :: f in files ==> f.name.version <= v)
    && (v == 0 || exists f :: f in files && f.name.version == v)
  }

  lemma LatestIff(files: seq<SqlFile>, v: nat)
    requires WellFormedFiles(files)
    ensures IsLatest(files, v) <==> v == if files == [] then 0 else files[|files| - 1].name.version
  {
    if files != [] {
      var last := files[|files| - 1];
      assert last in files && last.name.version > 0;
      forall f | f in files
        ensures f.name.version <= last.name.version
      {
        var i :| 0 <= i < |files| && files[i] == f;
      }
    }
  }

  ghost predicate Embeds21(b: Binary) {
    exists f :: f in b.bundles && f.name.version == 21
  }

  // A deploy is finished, of this binary's frontier, and the recorded fingerprint is this binary's.
  ghost predicate Synchronised(db: Db, b: Binary) {
    && db.cursor.Some? && db.cursor.value.state.Complete?
    && db.schemaState.Recorded? && OwnFingerprint(b, db.schemaState.fingerprint)
    && db.cursor.value.plan in db.plans
    && IsLatest(b.migrations, db.plans[db.cursor.value.plan].targetRuntime)
    && IsLatest(b.bundles, db.plans[db.cursor.value.plan].targetOwner)
  }

  ghost predicate NoDeploy(db: Db) {
    db.cursor.None? || db.cursor.value.state.Idle?
  }

  // A boot that passes the interlock: refused over an applied revoke this binary does not embed, and
  // by a binary that embeds the revoke and is not decoupled; otherwise it serves iff decoupled over
  // a synchronised deploy, or legacy over none or such a one. The decoupled boot writes nothing.
  lemma GateVerdict(w: World, b: Binary, decoupled: bool, refuseDrift: bool, readFails: bool)
    requires ValidBinary(b) && !Boot(w, b, decoupled, refuseDrift, readFails).1.AwaitingOwnerDdl?
    ensures Boot(w, b, decoupled, refuseDrift, readFails) ==
      if !Embeds21(b) && 21 in w.db.bundles then (w, RevokeAlreadyApplied)
      else if Embeds21(b) && !decoupled then (w, AwaitingDeployConfig)
      else if decoupled && Synchronised(w.db, b) then (w, Served(if readFails then 0 else w.db.substrate))
      else if !decoupled && (NoDeploy(w.db) || Synchronised(w.db, b)) then LegacyServe(w, b, refuseDrift, readFails)
      else (w, AwaitingDeploy)
  {
    hide LegacyServe, MaxVersion, ExpectedFingerprint, OwnFingerprint, IsLatest, WellFormedFiles;
    EmbedsIff(b);
    if w.db.schemaState.Recorded? {
      OwnFingerprintIff(b, w.db.schemaState.fingerprint);
    }
    if w.db.cursor.Some? && w.db.cursor.value.plan in w.db.plans {
      LatestIff(b.migrations, w.db.plans[w.db.cursor.value.plan].targetRuntime);
      LatestIff(b.bundles, w.db.plans[w.db.cursor.value.plan].targetOwner);
    }
  }

  lemma EmbedsIff(b: Binary)
    ensures Embeds21(b) <==> RevokeEmbedded(b)
  {
  }

  // ---------------------------------------------------------------- the legacy path

  // The recorded hash of this file's version is some other hash; an empty one is not looked at.
  ghost predicate Disagrees(stamps: map<nat, string>, f: SqlFile) {
    f.name.version in stamps && stamps[f.name.version] != "" && stamps[f.name.version] != f.sha
  }

  ghost predicate FirstDisagreeing(stamps: map<nat, string>, files: seq<SqlFile>, i: nat) {
    i < |files| && Disagrees(stamps, files[i]) && forall j :: 0 <= j < i ==> !Disagrees(stamps, files[j])
  }

  // The files above the watermark, in order.
  ghost function Above(files: seq<SqlFile>, current: nat): seq<SqlFile> {
    if files == [] then []
    else (if files[0].name.version > current then [files[0]] else []) + Above(files[1..], current)
  }

  ghost function BootRuns(files: seq<SqlFile>): seq<Executed> {
    seq(|files|, i requires 0 <= i < |files| => Executed(ByBoot, Runtime, files[i].name.version, files[i].sha))
  }

  // The two refusals before anything is read from the files: a database newer than every embedded
  // migration, and then a failed preflight.
  lemma MigrateRefusedIff(w: World, b: Binary, readFails: bool)
    requires ValidBinary(b)
    ensures var current := if readFails then 0 else w.db.substrate;
            var newer := current > 0 && forall f :: f in b.migrations ==> f.name.version < current;
            && (newer ==> ApplyMigrations(w, b, readFails) == (w, Err(NewerThanSupported(current))))
            && (!newer && !b.preflightOk ==> ApplyMigrations(w, b, readFails) == (w, Err(PreflightRefused)))
            && (!newer && b.preflightOk ==> ApplyMigrations(w, b, readFails) == ApplyPending(w, b.migrations, current))
            && var r := ApplyPending(w, b.migrations, current).1;
               r.Err? ==> r.error.HashMismatch? || r.error.MigrateCrashed?
  {
    hide ApplyPending;
    var current := if readFails then 0 else w.db.substrate;
    LatestIff(b.migrations, b.latest);
    PendingErrors(w, b.migrations, current);
    if exists f :: f in b.migrations && f.name.version >= current {
      assert b.latest >= current;
    }
  }

  lemma {:induction false} PendingErrors(w: World, files: seq<SqlFile>, current: nat)
    ensures ApplyPending(w, files, current).1.Err? ==>
              ApplyPending(w, files, current).1.error.HashMismatch? || ApplyPending(w, files, current).1.error.MigrateCrashed?
    decreases |files|
  {
    if files != [] {
      var m := files[0];
      if m.name.version <= current {
        PendingErrors(w, files[1..], current);
      } else if w.credit > 0 {
        PendingErrors(World(MigrationDone(w.db, m), w.credit - 1), files[1..], m.name.version);
      }
    }
  }

  // The outcome over the stamps there were: success iff no file disagrees with its recorded hash,
  // and otherwise the first that does.
  ghost predicate StopsAtFirst(stamps: map<nat, string>, files: seq<SqlFile>, r: Result<nat, MigrateError>) {
    if r.Ok? then forall i :: 0 <= i < |files| ==> !Disagrees(stamps, files[i])
    else exists i: nat :: FirstDisagreeing(stamps, files, i) && r.error == HashMismatch(files[i].name.version)
  }

  lemma NothingStops(stamps: map<nat, string>, current: nat)
    ensures StopsAtFirst(stamps, [], Ok(current))
  {
  }

  lemma StopsHere(stamps: map<nat, string>, files: seq<SqlFile>)
    requires files != [] && Disagrees(stamps, files[0])
    ensures StopsAtFirst(stamps, files, Err(HashMismatch(files[0].name.version)))
  {
    assert FirstDisagreeing(stamps, files, 0);
  }

  // A stamp added for the first file is not looked at by the later ones.
  lemma StopsLater(stamps: map<nat, string>, later: map<nat, string>, files: seq<SqlFile>, r: Result<nat, MigrateError>)
    requires Ascending(files) && files != [] && !Disagrees(stamps, files[0])
    requires later == stamps || later == InsertNew(stamps, files[0].name.version, files[0].sha)
    requires StopsAtFirst(later, files[1..], r)
    ensures StopsAtFirst(stamps, files, r)
  {
    assert forall i :: 0 < i < |files| ==> files[i] == files[1..][i - 1] && files[i].name.version != files[0].name.version;
    assert forall i :: 0 < i < |files| ==> (Disagrees(later, files[1..][i - 1]) <==> Disagrees(stamps, files[i]));
    if r.Err? {
      var i: nat :| FirstDisagreeing(later, files[1..], i) && r.error == HashMismatch(files[1..][i].name.version);
      assert FirstDisagreeing(stamps, files, i + 1);
    }
  }

  // Past those two refusals, with enough transactions, the outcome is that one: a file below the
  // watermark is only compared, and one above it is run and then compared.
  lemma {:induction false} PendingVerdict(w: World, files: seq<SqlFile>, current: nat)
    requires Ascending(files) && w.credit >= |files|
    ensures StopsAtFirst(w.db.migrations, files, ApplyPending(w, files, current).1)
    decreases |files|
  {
    hide StopsAtFirst;
    if files == [] {
      NothingStops(w.db.migrations, current);
      return;
    }
    var m, rest, stamps := files[0], files[1..], w.db.migrations;
    assert Ascending(rest);
    if Disagrees(stamps, m) {
      StopsHere(stamps, files);
    } else if m.name.version <= current {
      PendingVerdict(w, rest, current);
      StopsLater(stamps, stamps, files, ApplyPending(w, files, current).1);
    } else {
      var done := MigrationDone(w.db, m);
      PendingVerdict(World(done, w.credit - 1), rest, m.name.version);
      StopsLater(stamps, done.migrations, files, ApplyPending(w, files, current).1);
    }
  }

  // A successful run ends at the greatest of the watermark it read and the embedded versions, and
  // has run exactly the files above that watermark, once each and in order.
  lemma {:induction false} PendingRuns(w: World, files: seq<SqlFile>, current: nat)
    requires Ascending(files) && ApplyPending(w, files, current).1.Ok?
    ensures var (n, r) := ApplyPending(w, files, current);
            && n.db.executed == w.db.executed + BootRuns(Above(files, current))
            && r.value == if files == [] || files[|files| - 1].name.version <= current then current else files[|files| - 1].name.version
    decreases |files|
  {
    if files != [] {
      hide BootRuns, AfterDdl, Above;
      var m, rest := files[0], files[1..];
      assert Ascending(rest);
      AboveFirst(files, current);
      if m.name.version <= current {
        PendingRuns(w, rest, current);
      } else {
        var done := MigrationDone(w.db, m);
        PendingRuns(World(done, w.credit - 1), rest, m.name.version);
        RunsFirst(w.db.executed, m, Above(rest, m.name.version));
      }
    } else {
      assert w.db.executed + [] == w.db.executed;
    }
  }

  lemma RunsFirst(executed: seq<Executed>, m: SqlFile, rest: seq<SqlFile>)
    ensures executed + BootRuns([m] + rest) == executed + [Executed(ByBoot, Runtime, m.name.version, m.sha)] + BootRuns(rest)
  {
  }

  lemma {:induction false} AllAbove(files: seq<SqlFile>, current: nat)
    requires forall i :: 0 <= i < |files| ==> files[i].name.version > current
    ensures Above(files, current) == files
    decreases |files|
  {
    if files != [] {
      AllAbove(files[1..], current);
    }
  }

  lemma AboveFirst(files: seq<SqlFile>, current: nat)
    requires Ascending(files) && files != []
    ensures files[0].name.version > current ==> Above(files, current) == [files[0]] + Above(files[1..], files[0].name.version)
    ensures files[0].name.version <= current ==> Above(files, current) == Above(files[1..], current)
  {
    if files[0].name.version > current {
      AllAbove(files[1..], current);
      AllAbove(files[1..], files[0].name.version);
    }
  }

  // The legacy boot: a failed run is reported; after a successful one another fingerprint refuses it
  // iff drift is enforced; and it serves at the version the run ended at, with its own fingerprint
  // recorded where there is a table for it, unless the process dies at that write.
  lemma LegacyVerdict(w: World, b: Binary, refuseDrift: bool, readFails: bool)
    ensures var (n, r) := ApplyMigrations(w, b, readFails);
            var foreign := n.db.schemaState.Recorded? && !OwnFingerprint(b, n.db.schemaState.fingerprint);
            var (end, answer) := LegacyServe(w, b, refuseDrift, readFails);
            if r.Err? then end == n && answer == MigrateFailed(r.error)
            else if foreign && refuseDrift then end == n && answer == SchemaDrift
            else if n.db.schemaState.NoTable? then end == n && answer == Served(r.value)
            else if n.credit == 0 then end == n && answer == BootCrashed
            else
              && answer == Served(r.value) && end.credit == n.credit - 1
              && end.db == n.db.(schemaState := end.db.schemaState)
              && end.db.schemaState.Recorded? && OwnFingerprint(b, end.db.schemaState.fingerprint)
  {
    hide ApplyMigrations, ExpectedFingerprint, OwnFingerprint;
    var n := ApplyMigrations(w, b, readFails).0;
    if n.db.schemaState.Recorded? {
      OwnFingerprintIff(b, n.db.schemaState.fingerprint);
    }
    OwnFingerprintIff(b, ExpectedFingerprint(b));
  }

  // The migrations of a run leave a recorded fingerprint alone, so it is the one from before the boot.
  lemma {:induction false} PendingKeepsFingerprint(w: World, files: seq<SqlFile>, current: nat)
    ensures var n := ApplyPending(w, files, current).0;
            && (w.db.schemaState.Recorded? ==> n.db.schemaState == w.db.schemaState)
            && (!w.db.schemaState.Recorded? ==> !n.db.schemaState.Recorded?)
    decreases |files|
  {
    if files != [] {
      var m := files[0];
      if m.name.version <= current {
        PendingKeepsFingerprint(w, files[1..], current);
      } else if w.credit > 0 {
        PendingKeepsFingerprint(World(MigrationDone(w.db, m), w.credit - 1), files[1..], m.name.version);
      }
    }
  }
}
