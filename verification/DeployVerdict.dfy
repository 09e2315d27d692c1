/**
  What a deploy reports and leaves behind, for every state a run reaches, every binary, every flag and
  every point of a crash, read off the cursor, the stored plans and the history.
 */
module DeployVerdict {
  import opened Wrappers
  import opened DeployPlan
  import opened DeployDatabase
  import opened DeployApply
  import opened DeployInvariant
  import opened DeployRuns
  import opened DeployResume

  // ---------------------------------------------------------------- the terms of the verdict

  // An embedded file: a migration, a bundle, or the staged bundle where no bundle has its name.
  ghost predicate Embedded(b: Binary, role: Role, f: SqlFile) {
    match role
    case Runtime => f in b.migrations
    case Owner => f in b.bundles || (b.staged == Some(f) && forall g :: g in b.bundles ==> g.name != f.name)
  }

  // The file a step names is the one embedded under that name, and there is none otherwise.
  lemma ResolvesExactly(b: Binary, role: Role, id: FileName, f: SqlFile)
    requires ValidBinary(b)
    ensures Resolve(b, role, id) == Some(f) <==> f.name == id && Embedded(b, role, f)
  {
    FindFinds(b.migrations, id);
    FindFinds(b.bundles, id);
    if f.name == id && f in b.migrations {
      FindIsTheFile(b.migrations, f);
    }
    if f.name == id && f in b.bundles {
      FindIsTheFile(b.bundles, f);
    }
  }

  ghost predicate SameBytes(b: Binary, s: Step) {
    exists f :: Embedded(b, s.role, f) && f.name == s.id && f.sha == s.sha
  }

  // The first line of a plan whose bytes the binary does not embed.
  ghost predicate FirstForeign(b: Binary, lines: seq<Step>, i: nat) {
    i < |lines| && !SameBytes(b, lines[i]) && forall j :: 0 <= j < i ==> SameBytes(b, lines[j])
  }

  ghost predicate Stamped(db: Db, s: Step) {
    var stamps := if s.role.Runtime? then db.migrations else db.bundles;
    s.id.version in stamps && stamps[s.id.version] == s.sha
  }

  // The first of the lines below `through` that is not stamped with its own hash.
  ghost predicate FirstUnstamped(db: Db, lines: seq<Step>, through: nat, i: nat) {
    i < |lines| && i < through && !Stamped(db, lines[i]) && forall j :: 0 <= j < i ==> Stamped(db, lines[j])
  }

  ghost predicate Underway(db: Db) {
    db.cursor.Some? && (db.cursor.value.state.InProgress? || db.cursor.value.state.StepCommitted? || db.cursor.value.state.Finalizing?)
  }

  ghost predicate Over(db: Db) {
    db.cursor.Some? && db.cursor.value.state.Complete?
  }

  // How many steps a cursor counts as committed, and where a resume takes up the steps again.
  ghost function Counted(c: CursorRow): nat {
    match c.state
    case StepCommitted => c.stepIndex + 1
    case _ => c.stepIndex
  }

  ghost function TakesUpAt(c: CursorRow): nat {
    match c.state
    case InProgress => c.stepIndex
    case StepCommitted => c.stepIndex + 1
    case _ => |c.plan.lines|
  }

  // Lines `from` to `to` executed as this plan's steps.
  ghost function Ran(h: PlanHash, from: nat, to: nat): seq<Executed>
    requires from <= to <= |h.lines|
  {
    seq(to - from, i requires 0 <= i < to - from =>
      Executed(ByPlan(h), h.lines[from + i].role, h.lines[from + i].id.version, h.lines[from + i].sha))
  }

  ghost function Indices(from: nat, to: nat): seq<nat>
    requires from <= to
  {
    seq(to - from, i requires 0 <= i < to - from => from + i)
  }

  // The steps from `from` on, as far as the transactions lasted: all of them, the cursor complete and
  // every index reported; or the process died, with no transaction left.
  ghost predicate RanOn(db: Db, h: PlanHash, from: nat, resumed: bool, n: World, r: Outcome) {
    exists to: nat :: RanTo(db, h, from, to, resumed, n, r)
  }

  // A cursor row this run wrote: it names the step at its index, the last one at the end.
  ghost predicate Wrote(h: PlanHash, c: CursorRow) {
    && c.plan == h
    && (c.state == InProgress ==> c.stepIndex == 0 && c.stepId == None)
    && (c.state != InProgress ==>
          && c.state in {StepCommitted, Finalizing, Complete}
          && (h.lines == [] ==> c.stepIndex == 0 && c.stepId == None)
          && (h.lines != [] ==> c.stepIndex < |h.lines| && c.stepId == Some(h.lines[c.stepIndex].id))
          && (h.lines != [] && c.state != StepCommitted ==> c.stepIndex == |h.lines| - 1))
  }

  ghost predicate CursorAfter(db: Db, h: PlanHash, after: Option<CursorRow>) {
    after == db.cursor || (after.Some? && Wrote(h, after.value))
  }

  ghost predicate RanTo(db: Db, h: PlanHash, from: nat, to: nat, resumed: bool, n: World, r: Outcome) {
    && from <= to <= |h.lines|
    && n.db.executed == db.executed + Ran(h, from, to)
    && CursorAfter(db, h, n.db.cursor)
    && match r
       case Halted(e) => e == Crashed && n.credit == 0
       case Deployed(plan, state, applied, again, total, dryRun) =>
         && to == |h.lines|
         && plan == h && state == ReportedComplete && applied == Indices(from, to)
         && again == resumed && total == |h.lines| && !dryRun
         && n.db.cursor.Some? && n.db.cursor.value.state == Complete && n.db.cursor.value.plan == h
  }

  // ---------------------------------------------------------------- a run of steps

  ghost predicate Lined(p: Plan) {
    p.hash.lines == p.steps && forall i :: 0 <= i < |p.steps| ==> p.steps[i].index == i
  }

  lemma FinalizeVerdict(w: World, b: Binary, p: Plan)
    requires TranscriptMatches(b, p.steps) && Lined(p)
    ensures var (n, e) := Finalize(w, b, p);
            && n.db.executed == w.db.executed && CursorAfter(w.db, p.hash, n.db.cursor)
            && (e.Some? ==> e == Some(Crashed) && n.credit == 0)
            && (e.None? ==> n.db.cursor.Some? && n.db.cursor.value.state == Complete && n.db.cursor.value.plan == p.hash)
  {
    hide TranscriptMatches, TranscriptError, ExpectedFingerprint, LastStepIndex, LastStepId, Wrote;
    TranscriptErrorIff(b, p.steps);
    WroteAtEnd(p, Finalizing);
    WroteAtEnd(p, Complete);
  }

  lemma WroteAtEnd(p: Plan, state: CursorState)
    requires Lined(p) && state in {Finalizing, Complete}
    ensures Wrote(p.hash, CursorRow(p.hash, state, LastStepIndex(p), LastStepId(p)))
  {
  }

  lemma CursorChain(a: Db, b: Db, h: PlanHash, after: Option<CursorRow>)
    requires CursorAfter(a, h, b.cursor) && CursorAfter(b, h, after)
    ensures CursorAfter(a, h, after)
  {
  }

  lemma FinishedVerdict(before: Db, w: World, b: Binary, p: Plan, from: nat, applied: seq<nat>, resumed: bool)
    requires TranscriptMatches(b, p.steps) && Lined(p) && from <= |p.steps| && applied == Indices(from, |p.steps|)
    requires w.db.executed == before.executed + Ran(p.hash, from, |p.steps|) && CursorAfter(before, p.hash, w.db.cursor)
    ensures var (n, r) := Finished(Finalize(w, b, p), p, applied, resumed);
            RanTo(before, p.hash, from, |p.steps|, resumed, n, r)
  {
    FinalizeVerdict(w, b, p);
    hide Finalize, TranscriptMatches, CursorAfter;
    CursorChain(before, w.db, p.hash, Finalize(w, b, p).0.db.cursor);
  }

  lemma RanOneMore(h: PlanHash, from: nat, to: nat)
    requires from <= to < |h.lines|
    ensures Ran(h, from, to + 1) == Ran(h, from, to) + [Executed(ByPlan(h), h.lines[to].role, h.lines[to].id.version, h.lines[to].sha)]
    ensures Indices(from, to + 1) == Indices(from, to) + [to]
  {
  }

  lemma {:induction false} RunVerdict(before: Db, w: World, b: Binary, p: Plan, from: nat, next: nat, prev: Digest, resumed: bool)
    requires TranscriptMatches(b, p.steps) && Lined(p) && from <= next <= |p.steps|
    requires w.db.executed == before.executed + Ran(p.hash, from, next) && CursorAfter(before, p.hash, w.db.cursor)
    ensures var (n, r) := RunFrom(w, b, p, next, prev, Indices(from, next), resumed);
            RanOn(before, p.hash, from, resumed, n, r)
    decreases |p.steps| - next
  {
    hide TranscriptMatches, Finalize, Finished, Resolve, InsertNew, AfterDdl, CreatesTables, LinkOf, Ran, Indices, StepMatches;
    if next == |p.steps| {
      FinishedVerdict(before, w, b, p, from, Indices(from, next), resumed);
      var (n, r) := Finished(Finalize(w, b, p), p, Indices(from, next), resumed);
      assert RanTo(before, p.hash, from, next, resumed, n, r);
    } else {
      var s := p.steps[next];
      MatchingStep(b, p, next);
      if w.credit == 0 {
        assert RanTo(before, p.hash, from, next, resumed, w, Halted(Crashed));
      } else {
        var file := Resolve(b, s.role, s.id).value;
        RanOneMore(p.hash, from, next);
        var done := World(StepDone(w.db, p.hash, s, file, prev), w.credit - 1);
        RunVerdict(before, done, b, p, from, next + 1, LinkOf(prev, p.hash, s), resumed);
      }
    }
  }

  lemma MatchingStep(b: Binary, p: Plan, i: nat)
    requires TranscriptMatches(b, p.steps) && i < |p.steps|
    ensures var s := p.steps[i];
            && Resolve(b, s.role, s.id).Some?
            && Resolve(b, s.role, s.id).value.name == s.id && Resolve(b, s.role, s.id).value.sha == s.sha
  {
    assert StepMatches(b, p.steps[i]);
    ResolvedName(b, p.steps[i]);
  }

  // ---------------------------------------------------------------- what one transaction writes

  // An insert that leaves a row already there alone.
  ghost predicate Inserted<K, V>(before: map<K, V>, after: map<K, V>, k: K, v: V) {
    after == if k in before then before else before[k := v]
  }

  // A step: the stamp of its version under its own hash in its role's table, the runtime watermark at
  // that version, the table migration 43 or 44 creates, the cursor, and the receipt that chains it.
  lemma StepWrites(db: Db, h: PlanHash, s: Step, file: SqlFile, prev: Digest)
    ensures var n, v, runtime := StepDone(db, h, s, file, prev), file.name.version, s.role.Runtime?;
            && n.cursor == Some(CursorRow(h, StepCommitted, s.index, Some(s.id)))
            && n.plans == db.plans && n.origin == db.origin
            && (if runtime then Inserted(db.migrations, n.migrations, v, s.sha) else n.migrations == db.migrations)
            && n.substrate == (if runtime then v else db.substrate)
            && (if runtime then n.bundles == db.bundles else Inserted(db.bundles, n.bundles, v, s.sha))
            && n.schemaState == (if runtime && v == 43 && db.schemaState == NoTable then NoRow else db.schemaState)
            && n.deployTables == (db.deployTables || (runtime && v == 44))
            && Inserted(db.receipts, n.receipts, (h, s.index), Receipt(s.id, s.sha, prev, Link(prev, h, s.index, s.id, s.sha)))
            && n.executed == db.executed + [Executed(ByPlan(h), s.role, v, file.sha)]
  {
    StepColumns(db, h, s, file, prev);
  }

  // A boot migration: the same for a runtime file, and neither cursor nor receipt.
  lemma MigrationWrites(db: Db, m: SqlFile)
    ensures var n, v := MigrationDone(db, m), m.name.version;
            && n.cursor == db.cursor && n.plans == db.plans && n.origin == db.origin
            && n.receipts == db.receipts && n.bundles == db.bundles
            && Inserted(db.migrations, n.migrations, v, m.sha) && n.substrate == v
            && n.schemaState == (if v == 43 && db.schemaState == NoTable then NoRow else db.schemaState)
            && n.deployTables == (db.deployTables || v == 44)
            && n.executed == db.executed + [Executed(ByBoot, Runtime, v, m.sha)]
  {
  }

  // Materialization: the plan stored under its hash unless it is there, the cursor before its first
  // step, and the runtime stamps as they are now remembered.
  lemma MaterializeWrites(db: Db, p: Plan)
    ensures var n := Materialized(db, p);
            && Inserted(db.plans, n.plans, p.hash, p)
            && n == db.(plans := n.plans, cursor := Some(CursorRow(p.hash, InProgress, 0, None)), origin := db.migrations)
  {
  }

  // ---------------------------------------------------------------- the two checks

  lemma SameBytesIff(b: Binary, s: Step)
    requires ValidBinary(b)
    ensures SameBytes(b, s) <==> StepMatches(b, s)
  {
    hide Embedded, Resolve, ValidBinary;
    if StepMatches(b, s) {
      ResolvesExactly(b, s.role, s.id, Resolve(b, s.role, s.id).value);
    }
    if f :| Embedded(b, s.role, f) && f.name == s.id && f.sha == s.sha {
      ResolvesExactly(b, s.role, s.id, f);
    }
  }

  ghost predicate AllSameBytes(b: Binary, lines: seq<Step>) {
    forall i :: 0 <= i < |lines| ==> SameBytes(b, lines[i])
  }

  lemma {:induction false} TranscriptVerdict(b: Binary, steps: seq<Step>)
    requires ValidBinary(b)
    ensures TranscriptError(b, steps) == None <==> AllSameBytes(b, steps)
    ensures TranscriptError(b, steps) != None ==>
              exists i: nat :: FirstForeign(b, steps, i) && TranscriptError(b, steps) == Some(BinaryMismatch(steps[i].index))
    decreases |steps|
  {
    hide SameBytes, StepMatches, ValidBinary;
    if steps != [] {
      SameBytesIff(b, steps[0]);
      TranscriptVerdict(b, steps[1..]);
      assert forall i :: 0 < i < |steps| ==> steps[i] == steps[1..][i - 1];
      if !SameBytes(b, steps[0]) {
        assert FirstForeign(b, steps, 0);
      } else if i: nat :| FirstForeign(b, steps[1..], i) && TranscriptError(b, steps[1..]) == Some(BinaryMismatch(steps[1..][i].index)) {
        assert FirstForeign(b, steps, i + 1);
      }
    }
  }

  lemma StampedIff(db: Db, s: Step)
    requires s.sha != ""
    ensures Stamped(db, s) <==> !(StampOf(db, s) == "" || StampOf(db, s) != s.sha)
  {
  }

  // As the transcript check, over the steps whose index is below the count.
  ghost predicate BelowStamped(db: Db, steps: seq<Step>, through: nat, n: nat) {
    forall i :: 0 <= i < n && i < |steps| && steps[i].index < through ==> Stamped(db, steps[i])
  }

  ghost predicate UnstampedAt(db: Db, steps: seq<Step>, through: nat, i: nat) {
    i < |steps| && steps[i].index < through && !Stamped(db, steps[i]) && BelowStamped(db, steps, through, i)
  }

  lemma {:induction false} StampVerdict(db: Db, steps: seq<Step>, through: nat)
    requires forall i :: 0 <= i < |steps| ==> steps[i].sha != ""
    ensures StampError(db, steps, through) == None <==> BelowStamped(db, steps, through, |steps|)
    ensures StampError(db, steps, through) != None ==>
              exists i: nat :: UnstampedAt(db, steps, through, i) && StampError(db, steps, through) == Some(StampMismatch(steps[i].index))
    decreases |steps|
  {
    hide Stamped, StampOf;
    if steps != [] {
      StampedIff(db, steps[0]);
      assert forall i :: 0 < i < |steps| ==> steps[i] == steps[1..][i - 1];
      StampVerdict(db, steps[1..], through);
      if steps[0].index < through && !Stamped(db, steps[0]) {
        assert UnstampedAt(db, steps, through, 0);
      } else if StampError(db, steps[1..], through) != None {
        var i: nat :| UnstampedAt(db, steps[1..], through, i)
          && StampError(db, steps[1..], through) == Some(StampMismatch(steps[1..][i].index));
        assert UnstampedAt(db, steps, through, i + 1);
      }
    }
  }

  // ---------------------------------------------------------------- after the substrate

  // The fresh plan's hash: built from the greatest applied bundle and the runtime version as read.
  ghost predicate FreshHash(db: Db, b: Binary, readFails: bool, h: PlanHash) {
    && h.baseRuntime == (if readFails then 0 else db.substrate)
    && (h.baseOwner == 0 || h.baseOwner in db.bundles) && (forall v :: v in db.bundles ==> v <= h.baseOwner)
    && h == PlanOf(b, h.baseOwner, h.baseRuntime).hash
  }

  ghost predicate HaltsForeign(w: World, b: Binary, lines: seq<Step>, n: World, r: Outcome) {
    n == w && exists i: nat :: FirstForeign(b, lines, i) && r == Halted(BinaryMismatch(i))
  }

  ghost predicate StampsHold(db: Db, lines: seq<Step>, through: nat) {
    forall i :: 0 <= i < |lines| && i < through ==> Stamped(db, lines[i])
  }

  ghost predicate HaltsUnstamped(w: World, lines: seq<Step>, through: nat, n: World, r: Outcome) {
    n == w && exists i: nat :: FirstUnstamped(w.db, lines, through, i) && r == Halted(StampMismatch(i))
  }

  // A deploy under way: aborted as asked, else refused for a foreign line, else refused for a stamp,
  // else taken up again.
  ghost predicate ResumeVerdict(w: World, b: Binary, abort: bool, c: CursorRow, n: World, r: Outcome) {
    var lines := c.plan.lines;
    if abort && w.credit == 0 then n == w && r == Halted(Crashed)
    else if abort then
      && n == World(w.db.(cursor := Some(CursorRow(c.plan, Aborted, c.stepIndex, None))), w.credit - 1)
      && r == Deployed(c.plan, ReportedAborted, [], true, |lines|, false)
    else if !AllSameBytes(b, lines) then HaltsForeign(w, b, lines, n, r)
    else if !StampsHold(w.db, lines, Counted(c)) then HaltsUnstamped(w, lines, Counted(c), n, r)
    else TakesUpAt(c) <= |lines| && RanOn(w.db, c.plan, TakesUpAt(c), true, n, r)
  }

  // A finished deploy: its lines are compared, and nothing is written.
  ghost predicate RerunVerdict(w: World, b: Binary, dryRun: bool, c: CursorRow, n: World, r: Outcome) {
    if !AllSameBytes(b, c.plan.lines) then HaltsForeign(w, b, c.plan.lines, n, r)
    else n == w && r == Deployed(c.plan, ReportedComplete, [], false, |c.plan.lines|, dryRun)
  }

  // None, or an aborted one: a fresh plan, reported only, or run from its first step.
  ghost predicate FreshVerdict(w: World, b: Binary, dryRun: bool, readFails: bool, n: World, r: Outcome) {
    exists h ::
      && FreshHash(w.db, b, readFails, h)
      && if dryRun then n == w && r == Deployed(h, ReportedNone, [], false, |h.lines|, true)
         else RanOn(w.db, h, 0, false, n, r)
  }

  ghost predicate DispatchVerdict(w: World, b: Binary, o: Options, readFails: bool, n: World, r: Outcome) {
    if Underway(w.db) then ResumeVerdict(w, b, o.abort, w.db.cursor.value, n, r)
    else if Over(w.db) then RerunVerdict(w, b, o.dryRun, w.db.cursor.value, n, r)
    else FreshVerdict(w, b, o.dryRun, readFails, n, r)
  }

  // The stored plan of a deploy under way or over.
  ghost predicate StoredPlan(db: Db, c: CursorRow) {
    && c.plan in db.plans && db.plans[c.plan].hash == c.plan && Lined(db.plans[c.plan])
    && (forall i :: 0 <= i < |c.plan.lines| ==> c.plan.lines[i].sha != "")
    && (!c.state.Finalizing? && !c.state.Complete? ==> Counted(c) <= |c.plan.lines|)
  }

  lemma ReachedPlan(db: Db)
    requires Inv(db) && (Underway(db) || Over(db))
    ensures StoredPlan(db, db.cursor.value)
  {
    hide PlanLog, ReceiptsOk, SeenOk, OnceOnly, PendingOk, ProgressOk, OriginOk, FingerprintOk;
    StepsAreIndexed(db.plans[db.cursor.value.plan]);
  }

  lemma ForeignVerdict(w: World, b: Binary, p: Plan)
    requires ValidBinary(b) && Lined(p)
    ensures TranscriptError(b, p.steps) == None <==> AllSameBytes(b, p.steps)
    ensures TranscriptError(b, p.steps) != None ==> HaltsForeign(w, b, p.steps, w, Halted(TranscriptError(b, p.steps).value))
  {
    hide AllSameBytes, TranscriptError, ValidBinary;
    TranscriptVerdict(b, p.steps);
    if i: nat :| FirstForeign(b, p.steps, i) && TranscriptError(b, p.steps) == Some(BinaryMismatch(p.steps[i].index)) {
      assert p.steps[i].index == i;
    }
  }

  lemma UnstampedVerdict(w: World, p: Plan, through: nat)
    requires Lined(p) && forall i :: 0 <= i < |p.steps| ==> p.steps[i].sha != ""
    ensures StampError(w.db, p.steps, through) == None <==> StampsHold(w.db, p.steps, through)
    ensures StampError(w.db, p.steps, through) != None ==>
              HaltsUnstamped(w, p.steps, through, w, Halted(StampError(w.db, p.steps, through).value))
  {
    hide Stamped, StampError;
    StampVerdict(w.db, p.steps, through);
    if i: nat :| UnstampedAt(w.db, p.steps, through, i) && StampError(w.db, p.steps, through) == Some(StampMismatch(p.steps[i].index)) {
      assert FirstUnstamped(w.db, p.steps, through, i);
    }
  }

  lemma MatchesIff(b: Binary, p: Plan)
    requires ValidBinary(b)
    ensures AllSameBytes(b, p.steps) <==> TranscriptMatches(b, p.steps)
  {
    hide SameBytes, StepMatches, ValidBinary;
    forall i | 0 <= i < |p.steps| {
      SameBytesIff(b, p.steps[i]);
    }
  }

  // ---------------------------------------------------------------- the dispatch

  lemma ResumeIs(w: World, b: Binary, o: Options, readFails: bool)
    requires ValidBinary(b) && Underway(w.db) && StoredPlan(w.db, w.db.cursor.value)
    ensures var (n, r) := Dispatch(w, b, o, readFails);
            ResumeVerdict(w, b, o.abort, w.db.cursor.value, n, r)
  {
    hide ValidBinary, TranscriptError, StampError, AllSameBytes, HaltsForeign, HaltsUnstamped, StampsHold, RunFrom, Finalize,
      TranscriptMatches, LastReceipt, RanOn, Finished, PlanOf;
    var c := w.db.cursor.value;
    var p := w.db.plans[c.plan];
    ForeignVerdict(w, b, p);
    UnstampedVerdict(w, p, Counted(c));
    MatchesIff(b, p);
    if !o.abort && AllSameBytes(b, p.steps) {
      NothingRan(w.db, p.hash, TakesUpAt(c));
      if c.state.Finalizing? {
        TakenUpAtEnd(w, b, p);
      } else {
        RunVerdict(w.db, w, b, p, TakesUpAt(c), TakesUpAt(c), LastReceipt(w.db, p.hash, TakesUpAt(c)), true);
      }
    }
  }

  lemma NothingRan(db: Db, h: PlanHash, at: nat)
    requires at <= |h.lines|
    ensures db.executed == db.executed + Ran(h, at, at) && Indices(at, at) == []
  {
  }

  lemma TakenUpAtEnd(w: World, b: Binary, p: Plan)
    requires TranscriptMatches(b, p.steps) && Lined(p)
    ensures var (n, r) := Finished(Finalize(w, b, p), p, [], true);
            RanOn(w.db, p.hash, |p.steps|, true, n, r)
  {
    hide TranscriptMatches, Finalize, Ran, Indices, Finished;
    NothingRan(w.db, p.hash, |p.steps|);
    FinishedVerdict(w.db, w, b, p, |p.steps|, [], true);
    var (n, r) := Finished(Finalize(w, b, p), p, [], true);
    assert RanTo(w.db, p.hash, |p.steps|, |p.steps|, true, n, r);
  }

  lemma RerunIs(w: World, b: Binary, o: Options, readFails: bool)
    requires ValidBinary(b) && Over(w.db) && StoredPlan(w.db, w.db.cursor.value)
    ensures var (n, r) := Dispatch(w, b, o, readFails);
            RerunVerdict(w, b, o.dryRun, w.db.cursor.value, n, r)
  {
    hide ValidBinary, TranscriptError, AllSameBytes, HaltsForeign;
    ForeignVerdict(w, b, w.db.plans[w.db.cursor.value.plan]);
  }

  lemma FreshIs(w: World, b: Binary, o: Options, readFails: bool)
    requires ValidBinary(b) && !Underway(w.db) && !Over(w.db)
    ensures var (n, r) := Dispatch(w, b, o, readFails);
            FreshVerdict(w, b, o.dryRun, readFails, n, r)
  {
    hide ValidBinary, PlanOf, RunFrom, RanOn, Materialized, MaxVersion, TranscriptMatches;
    var p := PlanAsRead(w.db, b, readFails);
    PlanIsLined(b, MaxVersion(w.db.bundles.Keys), ReadVersion(w.db.substrate, readFails));
    assert FreshHash(w.db, b, readFails, p.hash);
    NothingRan(w.db, p.hash, 0);
    if !o.dryRun && w.credit == 0 {
      NeverStarted(w, p.hash);
    } else if !o.dryRun {
      var db1 := Materialized(w.db, p);
      MaterializeWrites(w.db, p);
      RunVerdict(w.db, World(db1, w.credit - 1), b, p, 0, 0, NoDigest, false);
    }
  }

  lemma NeverStarted(w: World, h: PlanHash)
    requires w.credit == 0
    ensures RanOn(w.db, h, 0, false, w, Halted(Crashed))
  {
    NothingRan(w.db, h, 0);
    hide Ran;
    assert RanTo(w.db, h, 0, 0, false, w, Halted(Crashed));
  }

  lemma PlanIsLined(b: Binary, bo: nat, br: nat)
    requires ValidBinary(b)
    ensures var p := PlanOf(b, bo, br);
            Lined(p) && TranscriptMatches(b, p.steps) && p.hash.baseOwner == bo && p.hash.baseRuntime == br
  {
    hide PlanSteps, TranscriptMatches;
    BuiltPlanIsWellFormed(b, bo, br);
    StepsAreIndexed(PlanOf(b, bo, br));
    OwnPlanMatches(b, bo, br);
  }

  // ---------------------------------------------------------------- the whole call

  ghost predicate NoSubstrate(b: Binary) {
    forall f :: f in b.migrations ==> f.name != FileName(44, "deploy_cursor.sql")
  }

  // The database once the up-front file has been executed: no table but the deploy tables, and one more execution.
  ghost function WithSubstrate(db: Db, sub: SqlFile): Db {
    db.(deployTables := true, executed := db.executed + [Executed(BySubstrate, Runtime, 44, sub.sha)])
  }

  ghost predicate Verdict(w: World, b: Binary, o: Options, readFails: bool, n: World, r: Outcome) {
    if NoSubstrate(b) then n == w && r == Halted(SubstrateMissing)
    else if w.credit == 0 then n == w && r == Halted(Crashed)
    else exists sub ::
      && sub in b.migrations && sub.name == FileName(44, "deploy_cursor.sql")
      && DispatchVerdict(World(WithSubstrate(w.db, sub), w.credit - 1), b, o, readFails, n, r)
  }

  // The verdict on every deploy, from every state a run reaches, by any binary with any flags, dying
  // anywhere or not at all, whether or not its read of the runtime version fails.
  lemma ApplyVerdict(w: World, b: Binary, o: Options, readFails: bool)
    requires Inv(w.db) && ValidBinary(b)
    ensures Verdict(w, b, o, readFails, Apply(w, b, o, readFails).0, Apply(w, b, o, readFails).1)
  {
    hide Inv, ValidBinary, Dispatch, DispatchVerdict, Find;
    FindFinds(b.migrations, SUBSTRATE_FILE);
    if HasSubstrate(b) && w.credit > 0 {
      var sub := SubstrateFile(b).value;
      var db := WithSubstrate(w.db, sub);
      assert Prepared(w.db, b) == db;
      DispatchIs(w.db, db, w.credit - 1, b, o, readFails);
    }
  }

  lemma DispatchIs(db: Db, db': Db, c: nat, b: Binary, o: Options, readFails: bool)
    requires Inv(db) && ValidBinary(b)
    requires db'.cursor == db.cursor && db'.plans == db.plans
    ensures var (n, r) := Dispatch(World(db', c), b, o, readFails);
            DispatchVerdict(World(db', c), b, o, readFails, n, r)
  {
    hide Inv, ValidBinary, Dispatch, ResumeVerdict, RerunVerdict, FreshVerdict;
    if Underway(db) || Over(db) {
      ReachedPlan(db);
      if Underway(db) {
        ResumeIs(World(db', c), b, o, readFails);
      } else {
        RerunIs(World(db', c), b, o, readFails);
      }
    } else {
      FreshIs(World(db', c), b, o, readFails);
    }
  }

  // What each reported state means, over the state before and after: aborted iff a deploy was under
  // way and asked to abort, and then its cursor is aborted where it stood; none iff a dry run found no
  // deploy under way or over; and complete says that the cursor is complete, with the plan reported.
  // Only a deploy under way is resumed, and a plan counts as many steps as it has lines.
  ghost predicate StatesReported(db: Db, o: Options, after: Db, r: Outcome)
    requires r.Deployed?
  {
    && (r.state == ReportedAborted <==> Underway(db) && o.abort)
    && (r.state == ReportedAborted ==>
          after.cursor == Some(CursorRow(db.cursor.value.plan, Aborted, db.cursor.value.stepIndex, None)))
    && (r.state == ReportedNone <==> o.dryRun && !Underway(db) && !Over(db))
    && (r.state == ReportedNone ==> after.cursor == db.cursor && after.plans == db.plans)
    && (r.state == ReportedComplete ==> Over(after) && after.cursor.value.plan == r.plan)
    && (r.resumed <==> Underway(db)) && (Underway(db) || Over(db) ==> r.plan == db.cursor.value.plan)
    && r.total == |r.plan.lines| && (r.dryRun <==> o.dryRun && !Underway(db))
  }

  // The indices reported are those of exactly the steps added to the history, ascending.
  ghost predicate AppliedAdded(db: Db, after: Db, r: Outcome)
    requires r.Deployed?
  {
    && |after.executed| == |db.executed| + |r.applied| && after.executed[..|db.executed|] == db.executed
    && (forall k :: 0 <= k < |r.applied| ==>
          && r.applied[k] < |r.plan.lines|
          && var s := r.plan.lines[r.applied[k]];
             after.executed[|db.executed| + k] == Executed(ByPlan(r.plan), s.role, s.id.version, s.sha))
    && (forall j, k :: 0 <= j < k < |r.applied| ==> r.applied[j] < r.applied[k])
  }

  lemma RanOnEnds(db: Db, h: PlanHash, from: nat, resumed: bool, n: World, r: Outcome)
    requires RanOn(db, h, from, resumed, n, r) && r.Deployed? && from <= |h.lines|
    ensures r == Deployed(h, ReportedComplete, r.applied, resumed, |h.lines|, false)
    ensures Over(n.db) && n.db.cursor.value.plan == h && AppliedAdded(db, n.db, r)
  {
    var to: nat :| RanTo(db, h, from, to, resumed, n, r);
  }

  lemma NothingAdded(db: Db, after: Db, r: Outcome)
    requires r.Deployed? && r.applied == [] && after.executed == db.executed
    ensures AppliedAdded(db, after, r)
  {
  }

  lemma DispatchReports(w: World, b: Binary, o: Options, readFails: bool, n: World, r: Outcome)
    requires DispatchVerdict(w, b, o, readFails, n, r) && r.Deployed?
    ensures StatesReported(w.db, o, n.db, r) && AppliedAdded(w.db, n.db, r)
  {
    hide AllSameBytes, StampsHold, FreshHash, RanOn, AppliedAdded;
    if Underway(w.db) {
      var c := w.db.cursor.value;
      if o.abort {
        NothingAdded(w.db, n.db, r);
      } else {
        RanOnEnds(w.db, c.plan, TakesUpAt(c), true, n, r);
      }
    } else if Over(w.db) {
      NothingAdded(w.db, n.db, r);
    } else if o.dryRun {
      NothingAdded(w.db, n.db, r);
    } else {
      var h :| FreshHash(w.db, b, readFails, h) && RanOn(w.db, h, 0, false, n, r);
      RanOnEnds(w.db, h, 0, false, n, r);
    }
  }

  // A deploy that reports anything has executed the embedded migration 44 first, and then says so.
  lemma ReportedIsDone(w: World, b: Binary, o: Options, readFails: bool)
    requires Inv(w.db) && ValidBinary(b) && Apply(w, b, o, readFails).1.Deployed?
    ensures var (n, r) := Apply(w, b, o, readFails);
            && StatesReported(w.db, o, n.db, r)
            && exists sub ::
                 && sub in b.migrations && sub.name == FileName(44, "deploy_cursor.sql")
                 && AppliedAdded(WithSubstrate(w.db, sub), n.db, r)
  {
    hide Apply, DispatchVerdict, StatesReported, AppliedAdded, Inv, ValidBinary;
    ApplyVerdict(w, b, o, readFails);
    var (n, r) := Apply(w, b, o, readFails);
    var sub :| sub in b.migrations && sub.name == FileName(44, "deploy_cursor.sql")
      && DispatchVerdict(World(WithSubstrate(w.db, sub), w.credit - 1), b, o, readFails, n, r);
    DispatchReports(World(WithSubstrate(w.db, sub), w.credit - 1), b, o, readFails, n, r);
    SameReport(w.db, WithSubstrate(w.db, sub), o, n.db, r);
  }

  lemma SameReport(db: Db, e: Db, o: Options, after: Db, r: Outcome)
    requires e.cursor == db.cursor && e.plans == db.plans && r.Deployed? && StatesReported(e, o, after, r)
    ensures StatesReported(db, o, after, r)
  {
  }
}
