/**
  ApplyMigrations, the legacy apply-on-boot path: one transaction per pending migration, a hash
  check of every applied one. Interrupted anywhere and rerun, it ends where one uninterrupted run
  ends.
 */
module Migrations {
  import opened Wrappers
  import opened DeployPlan
  import opened DeployDatabase

  datatype MigrateError = NewerThanSupported(current: nat) | PreflightRefused | HashMismatch(version: nat) | MigrateCrashed

  ghost function ApplyPending(w: World, files: seq<SqlFile>, current: nat): (World, Result<nat, MigrateError>)
    decreases |files|
  {
    if files == [] then (w, Ok(current))
    else
      var m := files[0];
      if m.name.version <= current then
        if RecordedHashAgrees(w.db.migrations, m) then ApplyPending(w, files[1..], current)
        else (w, Err(HashMismatch(m.name.version)))
      else if w.credit == 0 then (w, Err(MigrateCrashed))
      else if !RecordedHashAgrees(InsertNew(w.db.migrations, m.name.version, m.sha), m) then
        (World(w.db, w.credit - 1), Err(HashMismatch(m.name.version)))
      else ApplyPending(World(MigrationDone(w.db, m), w.credit - 1), files[1..], m.name.version)
  }

  ghost function ApplyMigrations(w: World, b: Binary, readFails: bool := false): (World, Result<nat, MigrateError>) {
    var current := ReadVersion(w.db.substrate, readFails);
    if current > b.latest then (w, Err(NewerThanSupported(current)))
    else if !b.preflightOk then (w, Err(PreflightRefused))
    else ApplyPending(w, b.migrations, current)
  }

  method Migrate(runner: Runner, b: Binary) returns (r: Result<nat, MigrateError>)
    modifies runner
    ensures (runner.State(), r) == ApplyMigrations(old(runner.State()), b, runner.readFails)
  {
    var current: nat := runner.ReadSchemaVersion();
    ghost var read := current;
    if current > b.latest {
      return Err(NewerThanSupported(current));
    }
    if !b.preflightOk {
      return Err(PreflightRefused);
    }
    for i := 0 to |b.migrations|
      invariant ApplyPending(old(runner.State()), b.migrations, read)
             == ApplyPending(runner.State(), b.migrations[i..], current)
    {
      var m := b.migrations[i];
      assert b.migrations[i..][1..] == b.migrations[i + 1..];
      if m.name.version <= current {
        if !RecordedHashAgrees(runner.migrations, m) {
          return Err(HashMismatch(m.name.version));
        }
        continue;
      }
      var ok, drifted := runner.ApplyOne(m);
      if drifted {
        return Err(HashMismatch(m.name.version));
      }
      if !ok {
        return Err(MigrateCrashed);
      }
      current := m.name.version;
    }
    return Ok(current);
  }

  // ---------------------------------------------------------------- restart equivalence

  // Credit beyond one transaction per file never matters.
  lemma {:induction false} CreditIrrelevant(db: Db, files: seq<SqlFile>, current: nat, c1: nat, c2: nat)
    requires c1 >= |files| && c2 >= |files|
    ensures ApplyPending(World(db, c1), files, current).0.db == ApplyPending(World(db, c2), files, current).0.db
    ensures ApplyPending(World(db, c1), files, current).1 == ApplyPending(World(db, c2), files, current).1
    decreases |files|
  {
    if files != [] {
      var m := files[0];
      if m.name.version <= current {
        CreditIrrelevant(db, files[1..], current, c1, c2);
      } else if RecordedHashAgrees(InsertNew(db.migrations, m.name.version, m.sha), m) {
        CreditIrrelevant(MigrationDone(db, m), files[1..], m.name.version, c1 - 1, c2 - 1);
      }
    }
  }

  ghost predicate StampedBy(files: seq<SqlFile>, v: nat, sha: string) {
    exists f :: f in files && f.name.version == v && f.sha == sha
  }

  // What any run, however it ends, does to the stamps: they only grow, and only above `current`.
  ghost predicate Grown(db: Db, db': Db, files: seq<SqlFile>) {
    && db'.substrate >= db.substrate
    && (forall v :: v in db.migrations ==> v in db'.migrations && db'.migrations[v] == db.migrations[v])
    && (forall v :: v in db'.migrations && v <= db.substrate ==> v in db.migrations)
    && (forall v :: v in db'.migrations && v !in db.migrations ==> StampedBy(files, v, db'.migrations[v]))
  }

  lemma GrownByOne(db: Db, db': Db, files: seq<SqlFile>)
    requires files != [] && files[0].name.version > db.substrate && Grown(MigrationDone(db, files[0]), db', files[1..])
    ensures Grown(db, db', files)
  {
    MoreFiles(files);
    hide StampedBy, AfterDdl;
  }

  lemma MoreFiles(files: seq<SqlFile>)
    requires files != []
    ensures StampedBy(files, files[0].name.version, files[0].sha)
    ensures forall v, sha :: StampedBy(files[1..], v, sha) ==> StampedBy(files, v, sha)
  {
    assert forall f :: f in files[1..] ==> f in files;
  }

  lemma {:induction false} StampsGrow(w: World, files: seq<SqlFile>, current: nat)
    requires Ascending(files) && current == w.db.substrate
    ensures Grown(w.db, ApplyPending(w, files, current).0.db, files)
    decreases |files|
  {
    if files != [] {
      MoreFiles(files);
      hide Grown, AfterDdl;
      var m := files[0];
      assert Ascending(files[1..]);
      if m.name.version <= current {
        if RecordedHashAgrees(w.db.migrations, m) {
          StampsGrow(w, files[1..], current);
          GrownMore(w.db, ApplyPending(w, files, current).0.db, files);
        } else {
          GrownNone(w.db, files);
        }
      } else if w.credit > 0 && RecordedHashAgrees(InsertNew(w.db.migrations, m.name.version, m.sha), m) {
        StampsGrow(World(MigrationDone(w.db, m), w.credit - 1), files[1..], m.name.version);
        GrownByOne(w.db, ApplyPending(w, files, current).0.db, files);
      } else {
        GrownNone(w.db, files);
      }
    }
  }

  lemma GrownMore(db: Db, db': Db, files: seq<SqlFile>)
    requires files != [] && Grown(db, db', files[1..])
    ensures Grown(db, db', files)
  {
    MoreFiles(files);
    hide StampedBy;
  }

  lemma GrownNone(db: Db, files: seq<SqlFile>)
    ensures Grown(db, db, files)
  {
  }

  // The stamp of a file at or below the watermark is settled: later transactions leave it alone.
  lemma SettledStamp(w: World, files: seq<SqlFile>, m: SqlFile, current: nat)
    requires Ascending(files) && current == w.db.substrate && m.name.version <= current
    requires RecordedHashAgrees(w.db.migrations, m)
    ensures RecordedHashAgrees(ApplyPending(w, files, current).0.db.migrations, m)
    ensures m.name.version <= ApplyPending(w, files, current).0.db.substrate
  {
    StampsGrow(w, files, current);
  }

  lemma {:induction false} PendingRestart(w: World, files: seq<SqlFile>, c: nat)
    requires Ascending(files) && c >= |files|
    ensures
      var crashed := ApplyPending(w, files, w.db.substrate).0.db;
      var again := ApplyPending(World(crashed, c), files, crashed.substrate);
      var straight := ApplyPending(World(w.db, c), files, w.db.substrate);
      again.0.db == straight.0.db && again.1 == straight.1
    decreases |files|
  {
    var current := w.db.substrate;
    if files != [] {
      var m, rest := files[0], files[1..];
      assert Ascending(rest);
      if m.name.version <= current {
        if RecordedHashAgrees(w.db.migrations, m) {
          SettledStamp(w, rest, m, current);
          PendingRestart(w, rest, c);
        }
      } else if w.credit > 0 && RecordedHashAgrees(InsertNew(w.db.migrations, m.name.version, m.sha), m) {
        var next := World(MigrationDone(w.db, m), w.credit - 1);
        SettledStamp(next, rest, m, m.name.version);
        PendingRestart(next, rest, c);
        CreditIrrelevant(next.db, rest, m.name.version, c, c - 1);
      }
    }
  }

  lemma PendingKeepsWatermarkBelowLatest(w: World, b: Binary)
    requires ValidBinary(b) && w.db.substrate <= b.latest
    ensures ApplyPending(w, b.migrations, w.db.substrate).0.db.substrate <= b.latest
  {
    WatermarkBound(w, b.migrations, w.db.substrate, b.latest);
  }

  lemma {:induction false} WatermarkBound(w: World, files: seq<SqlFile>, current: nat, bound: nat)
    requires current == w.db.substrate <= bound
    requires forall i :: 0 <= i < |files| ==> files[i].name.version <= bound
    ensures ApplyPending(w, files, current).0.db.substrate <= bound
    decreases |files|
  {
    if files != [] {
      var m := files[0];
      if m.name.version <= current {
        WatermarkBound(w, files[1..], current, bound);
      } else if w.credit > 0 && RecordedHashAgrees(InsertNew(w.db.migrations, m.name.version, m.sha), m) {
        WatermarkBound(World(MigrationDone(w.db, m), w.credit - 1), files[1..], m.name.version, bound);
      }
    }
  }

  // Crash anywhere, from any database, then rerun with enough credit: the database and the verdict
  // are those of one uninterrupted run.
  lemma MigrationRestart(db: Db, b: Binary, crashAfter: nat, c: nat)
    requires ValidBinary(b) && c >= |b.migrations|
    ensures
      var crashed := ApplyMigrations(World(db, crashAfter), b).0.db;
      var again := ApplyMigrations(World(crashed, c), b);
      var straight := ApplyMigrations(World(db, c), b);
      again.0.db == straight.0.db && again.1 == straight.1
  {
    if db.substrate <= b.latest && b.preflightOk {
      PendingKeepsWatermarkBelowLatest(World(db, crashAfter), b);
      PendingRestart(World(db, crashAfter), b.migrations, c);
    }
  }

  // A run interrupted any number of times: each entry is the credit of one attempt.
  ghost function Attempts(db: Db, b: Binary, credits: seq<nat>): Db
    decreases |credits|
  {
    if credits == [] then db
    else Attempts(ApplyMigrations(World(db, credits[0]), b).0.db, b, credits[1..])
  }

  lemma {:induction false} MigrationRestartMany(db: Db, b: Binary, credits: seq<nat>, c: nat)
    requires ValidBinary(b) && c >= |b.migrations|
    ensures ApplyMigrations(World(Attempts(db, b, credits), c), b).0.db == ApplyMigrations(World(db, c), b).0.db
    ensures ApplyMigrations(World(Attempts(db, b, credits), c), b).1 == ApplyMigrations(World(db, c), b).1
    decreases |credits|
  {
    if credits != [] {
      MigrationRestart(db, b, credits[0], c);
      MigrationRestartMany(ApplyMigrations(World(db, credits[0]), b).0.db, b, credits[1..], c);
    }
  }

  // Files at or below the watermark are checked, never applied.
  lemma {:induction false} NothingPending(w: World, files: seq<SqlFile>, current: nat)
    requires forall i :: 0 <= i < |files| ==> files[i].name.version <= current
    ensures ApplyPending(w, files, current).0 == w
    ensures ApplyPending(w, files, current).1.Ok? ==> ApplyPending(w, files, current).1 == Ok(current)
    decreases |files|
  {
    if files != [] && RecordedHashAgrees(w.db.migrations, files[0]) {
      NothingPending(w, files[1..], current);
    }
  }

  lemma {:induction false} SuccessReachesLast(w: World, files: seq<SqlFile>, current: nat)
    requires Ascending(files) && current == w.db.substrate
    requires ApplyPending(w, files, current).1.Ok?
    ensures var r := ApplyPending(w, files, current);
      r.1 == Ok(r.0.db.substrate) && forall i :: 0 <= i < |files| ==> files[i].name.version <= r.0.db.substrate
    decreases |files|
  {
    if files != [] {
      var m := files[0];
      assert Ascending(files[1..]);
      if m.name.version <= current {
        SuccessReachesLast(w, files[1..], current);
        StampsGrow(w, files[1..], current);
      } else {
        var next := World(MigrationDone(w.db, m), w.credit - 1);
        SuccessReachesLast(next, files[1..], m.name.version);
        StampsGrow(next, files[1..], m.name.version);
      }
      assert forall i :: 0 < i < |files| ==> files[i] == files[1..][i - 1];
    }
  }

  // After a successful run, running again changes nothing, whatever its credit, if and only if its
  // read of the watermark does not fail: otherwise it applies the first embedded file again.
  lemma SecondRunIsNoOp(db: Db, b: Binary, c1: nat, c2: nat, readFails: bool)
    requires ValidBinary(b)
    requires ApplyMigrations(World(db, c1), b).1.Ok?
    ensures var done := ApplyMigrations(World(db, c1), b).0.db;
      && (ApplyMigrations(World(done, c2), b, readFails).0.db == done <==> !readFails || c2 == 0 || b.migrations == [])
      && (!readFails ==> ApplyMigrations(World(done, c2), b, readFails).0 == World(done, c2))
  {
    SuccessReachesLast(World(db, c1), b.migrations, db.substrate);
    var done := ApplyMigrations(World(db, c1), b).0.db;
    if !readFails {
      NothingPending(World(done, c2), b.migrations, done.substrate);
    } else if c2 == 0 {
      DeadRunKeeps(done, b.migrations, 0);
    } else if b.migrations != [] && c2 > 0 {
      SuccessSettles(World(db, c1), b.migrations, db.substrate);
      ReplayAppliesFirst(World(done, c2), b);
    }
  }

  // A successful run leaves every file agreeing with its stamp.
  lemma {:induction false} SuccessSettles(w: World, files: seq<SqlFile>, current: nat)
    requires Ascending(files) && current == w.db.substrate && ApplyPending(w, files, current).1.Ok?
    ensures forall i :: 0 <= i < |files| ==> RecordedHashAgrees(ApplyPending(w, files, current).0.db.migrations, files[i])
    decreases |files|
  {
    if files != [] {
      var m := files[0];
      assert Ascending(files[1..]);
      if m.name.version <= current {
        SuccessSettles(w, files[1..], current);
        SettledStamp(w, files[1..], m, current);
      } else {
        var next := World(MigrationDone(w.db, m), w.credit - 1);
        SuccessSettles(next, files[1..], m.name.version);
        SettledStamp(next, files[1..], m, m.name.version);
      }
      assert forall i :: 0 < i < |files| ==> files[i] == files[1..][i - 1];
    }
  }

  lemma {:induction false} DeadRunKeeps(db: Db, files: seq<SqlFile>, current: nat)
    ensures ApplyPending(World(db, 0), files, current).0.db == db
    decreases |files|
  {
    if files != [] && files[0].name.version <= current {
      DeadRunKeeps(db, files[1..], current);
    }
  }

  lemma {:induction false} PendingExtends(w: World, files: seq<SqlFile>, current: nat)
    ensures |ApplyPending(w, files, current).0.db.executed| >= |w.db.executed|
    decreases |files|
  {
    if files != [] {
      var m := files[0];
      if m.name.version <= current {
        PendingExtends(w, files[1..], current);
      } else if w.credit > 0 {
        PendingExtends(World(MigrationDone(w.db, m), w.credit - 1), files[1..], m.name.version);
      }
    }
  }

  lemma ReplayAppliesFirst(w: World, b: Binary)
    requires ValidBinary(b) && b.preflightOk && b.migrations != [] && w.credit > 0
    requires RecordedHashAgrees(w.db.migrations, b.migrations[0])
    ensures |ApplyMigrations(w, b, true).0.db.executed| > |w.db.executed|
  {
    var m := b.migrations[0];
    assert m.name.version > 0;
    PendingExtends(World(MigrationDone(w.db, m), w.credit - 1), b.migrations[1..], m.name.version);
  }

  // ---------------------------------------------------------------- the stamps are the embedded set

  ghost predicate ExactStamps(db: Db, b: Binary) {
    forall v :: v in db.migrations <==>
      v <= db.substrate && exists f :: f in b.migrations && f.name.version == v
  }

  ghost predicate MatchingStamps(db: Db, b: Binary) {
    forall f :: f in b.migrations && f.name.version in db.migrations ==> db.migrations[f.name.version] == f.sha
  }

  lemma {:induction false} PendingKeepsExactStamps(w: World, b: Binary, k: nat)
    requires ValidBinary(b) && k <= |b.migrations|
    requires ExactStamps(w.db, b) && MatchingStamps(w.db, b)
    requires forall i :: 0 <= i < k ==> b.migrations[i].name.version <= w.db.substrate
    ensures var db := ApplyPending(w, b.migrations[k..], w.db.substrate).0.db; ExactStamps(db, b) && MatchingStamps(db, b)
    decreases |b.migrations| - k
  {
    if k < |b.migrations| {
      var m := b.migrations[k];
      assert b.migrations[k..][1..] == b.migrations[k + 1..];
      if m.name.version <= w.db.substrate {
        if RecordedHashAgrees(w.db.migrations, m) {
          PendingKeepsExactStamps(w, b, k + 1);
        }
      } else if w.credit > 0 && RecordedHashAgrees(InsertNew(w.db.migrations, m.name.version, m.sha), m) {
        var next := World(MigrationDone(w.db, m), w.credit - 1);
        NextStampIsExact(w.db, b, k);
        PendingKeepsExactStamps(next, b, k + 1);
      }
    }
  }

  lemma NextStampIsExact(db: Db, b: Binary, k: nat)
    requires ValidBinary(b) && k < |b.migrations|
    requires ExactStamps(db, b) && MatchingStamps(db, b)
    requires forall i :: 0 <= i < k ==> b.migrations[i].name.version <= db.substrate
    requires b.migrations[k].name.version > db.substrate
    ensures ExactStamps(MigrationDone(db, b.migrations[k]), b) && MatchingStamps(MigrationDone(db, b.migrations[k]), b)
  {
    var m := b.migrations[k];
    var db' := MigrationDone(db, m);
    forall f | f in b.migrations
      ensures f.name.version <= db'.substrate <==> f.name.version <= db.substrate || f == m
      ensures f.name.version == m.name.version ==> f == m
    {
      var i :| 0 <= i < |b.migrations| && b.migrations[i] == f;
      if i > k {
        assert b.migrations[k].name.version < b.migrations[i].name.version;
      }
    }
    assert m in b.migrations;
    forall v
      ensures v in db'.migrations <==> v <= db'.substrate && exists f :: f in b.migrations && f.name.version == v
    {
      if v in db'.migrations && v != m.name.version {
        assert v in db.migrations;
      }
    }
  }

  ghost function EmptyDb(): Db {
    Db(None, map[], map[], map[], 0, map[], NoTable, false, map[], [])
  }

  // From an empty database, after any number of interrupted runs, the stamped versions are exactly
  // the embedded ones up to the watermark, each under its own content hash.
  lemma {:induction false} StampsFromEmpty(b: Binary, credits: seq<nat>)
    requires ValidBinary(b)
    ensures ExactStamps(Attempts(EmptyDb(), b, credits), b) && MatchingStamps(Attempts(EmptyDb(), b, credits), b)
  {
    StampsFrom(EmptyDb(), b, credits);
  }

  lemma {:induction false} StampsFrom(db: Db, b: Binary, credits: seq<nat>)
    requires ValidBinary(b) && ExactStamps(db, b) && MatchingStamps(db, b)
    ensures ExactStamps(Attempts(db, b, credits), b) && MatchingStamps(Attempts(db, b, credits), b)
    decreases |credits|
  {
    if credits != [] {
      assert b.migrations[0..] == b.migrations;
      PendingKeepsExactStamps(World(db, credits[0]), b, 0);
      StampsFrom(ApplyMigrations(World(db, credits[0]), b).0.db, b, credits[1..]);
    }
  }
}
