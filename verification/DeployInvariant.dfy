/**
  What every transaction of a deploy keeps, whatever mix of binaries runs it: the executed-DDL
  history, the receipt chain, the stamps and the cursor always tell the same story.
 */
module DeployInvariant {
  import opened Wrappers
  import opened DeployPlan
  import opened DeployDatabase
  import opened DeployApply

  // The part of the history that belongs to one plan, in order.
  ghost function PlanLog(log: seq<Executed>, h: PlanHash): seq<Executed> {
    if log == [] then []
    else
      var last := log[|log| - 1];
      PlanLog(log[..|log| - 1], h) + if last.via == ByPlan(h) then [last] else []
  }

  ghost function Executions(p: Plan, k: nat): seq<Executed>
    requires k <= |p.steps|
  {
    seq(k, i requires 0 <= i < k => Executed(ByPlan(p.hash), p.steps[i].role, p.steps[i].id.version, p.steps[i].sha))
  }

  ghost function ChainAt(p: Plan, k: nat): Digest
    requires k <= |p.steps|
  {
    if k == 0 then NoDigest else LinkOf(ChainAt(p, k - 1), p.hash, p.steps[k - 1])
  }

  // The history without the executions of ensureDeploySubstrate.
  ghost function Numbered(log: seq<Executed>): seq<Executed> {
    if log == [] then []
    else
      var last := log[|log| - 1];
      Numbered(log[..|log| - 1]) + if last.via.BySubstrate? then [] else [last]
  }

  ghost function Committed(db: Db, h: PlanHash): nat {
    |PlanLog(db.executed, h)|
  }

  // Stored transcripts are content-addressed and well formed.
  ghost predicate PlansOk(db: Db) {
    forall h :: h in db.plans ==> db.plans[h].hash == h && WellFormedPlan(db.plans[h])
  }

  // Each plan has executed exactly a prefix of its steps, in order.
  ghost predicate LogsOk(db: Db) {
    && (forall h :: h in db.plans ==>
          Committed(db, h) <= |db.plans[h].steps| && PlanLog(db.executed, h) == Executions(db.plans[h], Committed(db, h)))
    && (forall h :: h !in db.plans ==> PlanLog(db.executed, h) == [])
  }

  // Receipts are exactly the committed indices, chained from the empty digest.
  ghost predicate ReceiptsOk(db: Db)
    requires LogsOk(db)
  {
    && (forall h, i: nat :: (h, i) in db.receipts <==> h in db.plans && i < Committed(db, h))
    && (forall h, i :: h in db.plans && 0 <= i < Committed(db, h) ==>
          db.receipts[(h, i)] == Receipt(db.plans[h].steps[i].id, db.plans[h].steps[i].sha,
                                         ChainAt(db.plans[h], i), ChainAt(db.plans[h], i + 1)))
  }

  // The cursor's committed count is the true one.
  ghost predicate CursorOk(db: Db) {
    match db.cursor
    case None => db.plans == map[]
    case Some(c) =>
      if c.state.Idle? then db.plans == map[]
      else
        && c.plan in db.plans
        && (c.state.InProgress? ==> c.stepIndex == 0 && Committed(db, c.plan) == 0)
        && (c.state.StepCommitted? ==> Committed(db, c.plan) == c.stepIndex + 1)
        && (c.state.Finalizing? || c.state.Complete? ==>
              Committed(db, c.plan) == |db.plans[c.plan].steps| && c.stepIndex == LastStepIndex(db.plans[c.plan]))
  }

  // Everything executed under a number is stamped, a runtime file at or below the watermark, an
  // owner bundle under its own hash. A runtime stamp can be older than the execution: see OriginOk.
  ghost predicate SeenOk(db: Db) {
    forall e :: e in db.executed ==>
      if e.via.BySubstrate? then e.role.Runtime? && e.version == SUBSTRATE_FILE.version
      else match e.role
        case Runtime => e.version <= db.substrate && e.version in db.migrations
        case Owner => e.version in db.bundles && db.bundles[e.version] == e.sha
  }

  // No file is executed twice as a step or a boot migration.
  ghost predicate OnceOnly(log: seq<Executed>) {
    forall i, j :: 0 <= i < j < |log| && !log[i].via.BySubstrate? && !log[j].via.BySubstrate? ==>
      log[i].role != log[j].role || log[i].version != log[j].version
  }

  // `now` is `then_` with a stamp added for each of p's first k steps that had none.
  ghost predicate StampsSince(then_: map<nat, string>, now: map<nat, string>, p: Plan, k: nat)
    requires k <= |p.steps|
  {
    && (forall v :: v in then_ ==> v in now && now[v] == then_[v])
    && (forall v :: v in now && v !in then_ ==> exists i :: 0 <= i < k && AddedBy(p.steps[i], v, now[v]))
    && (forall i :: 0 <= i < k && p.steps[i].role.Runtime? ==> p.steps[i].id.version in now)
  }

  ghost predicate AddedBy(s: Step, v: nat, sha: string) {
    s.role.Runtime? && s.id.version == v && s.sha == sha
  }

  // From materialization to completion only the plan's own steps have added runtime stamps.
  ghost predicate OriginOk(db: Db)
    requires LogsOk(db) && CursorOk(db)
  {
    InFlight(db) || (db.cursor.Some? && db.cursor.value.state.Complete?) ==>
      var h := db.cursor.value.plan; StampsSince(db.origin, db.migrations, db.plans[h], Committed(db, h))
  }

  // A recorded fingerprint covers a plan when it contains every runtime step's file.
  ghost predicate Covers(s: SchemaState, p: Plan) {
    match s
    case NoTable => true
    case NoRow => false
    case Recorded(f) =>
      forall i :: 0 <= i < |p.steps| && p.steps[i].role.Runtime? ==> SqlFile(p.steps[i].id, p.steps[i].sha) in f.migrations
  }

  // At `complete` the recorded fingerprint is that of a binary whose bytes agree with the plan.
  ghost predicate FingerprintOk(db: Db)
    requires CursorOk(db)
  {
    db.cursor.Some? && db.cursor.value.state.Complete? ==> Covers(db.schemaState, db.plans[db.cursor.value.plan])
  }

  ghost predicate Ahead(db: Db, s: Step) {
    if s.role.Runtime? then s.id.version > db.substrate else s.id.version !in db.bundles
  }

  // While a deploy is in flight, its remaining steps are all still ahead of the stamps.
  ghost predicate PendingOk(db: Db)
    requires CursorOk(db)
  {
    InFlight(db) ==>
      var p := db.plans[db.cursor.value.plan];
      forall j :: Committed(db, p.hash) <= j < |p.steps| ==> Ahead(db, p.steps[j])
  }

  // The watermarks never fall below a stored plan's base, and exceed it once the plan has executed.
  ghost predicate ProgressOk(db: Db) {
    forall h :: h in db.plans ==>
      && db.substrate >= h.baseRuntime
      && MaxVersion(db.bundles.Keys) >= h.baseOwner
      && (Committed(db, h) > 0 ==> db.substrate > h.baseRuntime || MaxVersion(db.bundles.Keys) > h.baseOwner)
  }

  ghost predicate Inv(db: Db) {
    && PlansOk(db)
    && LogsOk(db)
    && ReceiptsOk(db)
    && CursorOk(db)
    && SeenOk(db)
    && OnceOnly(db.executed)
    && PendingOk(db)
    && ProgressOk(db)
    && OriginOk(db)
    && FingerprintOk(db)
  }

  // ---------------------------------------------------------------- small facts

  lemma PlanLogSnoc(log: seq<Executed>, e: Executed, h: PlanHash)
    ensures PlanLog(log + [e], h) == PlanLog(log, h) + if e.via == ByPlan(h) then [e] else []
  {
    assert (log + [e])[..|log|] == log;
  }

  lemma NumberedSnoc(log: seq<Executed>, e: Executed)
    ensures Numbered(log + [e]) == Numbered(log) + if e.via.BySubstrate? then [] else [e]
  {
    assert (log + [e])[..|log|] == log;
  }

  // Plan logs do not see the substrate executions.
  lemma {:induction false} PlanLogOfNumbered(log: seq<Executed>, h: PlanHash)
    ensures PlanLog(Numbered(log), h) == PlanLog(log, h)
    decreases |log|
  {
    if log != [] {
      var front, last := log[..|log| - 1], log[|log| - 1];
      PlanLogOfNumbered(front, h);
      if last.via.BySubstrate? {
        assert Numbered(log) == Numbered(front);
      } else {
        PlanLogSnoc(Numbered(front), last, h);
      }
    }
  }

  lemma MaxOfInsert(m: map<nat, string>, v: nat, sha: string)
    ensures MaxVersion(InsertNew(m, v, sha).Keys) == if v > MaxVersion(m.Keys) then v else MaxVersion(m.Keys)
  {
    var m' := InsertNew(m, v, sha);
    assert v in m'.Keys;
    assert forall k :: k in m'.Keys <==> k in m.Keys || k == v;
  }

  // The hash is the transcript: two well-formed plans with one hash are one plan.
  lemma SameHashSamePlan(p: Plan, q: Plan)
    requires WellFormedPlan(p) && WellFormedPlan(q) && p.hash == q.hash
    ensures p == q
  {
    RevokeIndexIsDetermined(p.steps, p.revokeStepIndex, q.revokeStepIndex);
  }

  lemma RevokeIndexIsDetermined(steps: seq<Step>, r1: int, r2: int)
    requires RevokeTerminal(steps, r1) && RevokeTerminal(steps, r2)
    ensures r1 == r2
  {
    if steps != [] {
      assert IsRevokeStep(steps[|steps| - 1]) <==> |steps| - 1 == r1;
    }
  }

  // What the invariant says about a deploy in flight.
  lemma InFlightFacts(db: Db)
    requires Inv(db) && InFlight(db)
    ensures var c := db.cursor.value; c.plan in db.plans && var p := db.plans[c.plan];
      && p.hash == c.plan && WellFormedPlan(p)
      && Committed(db, p.hash) <= |p.steps|
      && (c.state.Finalizing? ==> Committed(db, p.hash) == |p.steps|)
      && (!c.state.Finalizing? ==> Committed(db, p.hash) == CommittedThrough(c) && At(db, p, CommittedThrough(c)))
  {
  }

  // What does not depend on the cursor, the fingerprint or the origin.
  ghost predicate HistoryOk(db: Db) {
    PlansOk(db) && LogsOk(db) && ReceiptsOk(db) && SeenOk(db) && OnceOnly(db.executed) && ProgressOk(db)
  }

  lemma HistoryFrame(db: Db, db': Db)
    requires HistoryOk(db)
    requires db'.plans == db.plans && db'.receipts == db.receipts && db'.executed == db.executed
    requires db'.migrations == db.migrations && db'.substrate == db.substrate && db'.bundles == db.bundles
    ensures HistoryOk(db') && forall h :: Committed(db', h) == Committed(db, h)
  {
    hide PlanLog, WellFormedPlan, Executions, OnceOnly;
    assert forall h :: Committed(db', h) == Committed(db, h);
    forall h, i: nat ensures (h, i) in db'.receipts <==> h in db'.plans && i < Committed(db', h) {
      assert (h, i) in db.receipts <==> h in db.plans && i < Committed(db, h);
    }
  }

  // ---------------------------------------------------------------- materialization

  // A deploy sits before step `next` of plan p.
  ghost predicate At(db: Db, p: Plan, next: nat) {
    && Inv(db)
    && db.cursor.Some? && db.cursor.value.plan == p.hash
    && db.cursor.value.state in {InProgress, StepCommitted}
    && p.hash in db.plans && db.plans[p.hash] == p
    && Committed(db, p.hash) == next <= |p.steps|
  }

  // A plan materialized again has executed nothing: its base still equals the watermarks.
  lemma FreshPlanIsUnstarted(db: Db, b: Binary)
    requires ValidBinary(b) && PlansOk(db) && LogsOk(db) && ProgressOk(db)
    ensures WellFormedPlan(FreshPlan(db, b)) && Committed(db, FreshPlan(db, b).hash) == 0
    ensures FreshPlan(db, b).hash in db.plans ==> db.plans[FreshPlan(db, b).hash] == FreshPlan(db, b)
  {
    var p := FreshPlan(db, b);
    BuiltPlanIsWellFormed(b, MaxVersion(db.bundles.Keys), db.substrate);
    if p.hash in db.plans {
      SameHashSamePlan(db.plans[p.hash], p);
    }
  }

  lemma LogsAfterMaterialize(db: Db, db': Db, p: Plan)
    requires LogsOk(db) && ReceiptsOk(db) && Committed(db, p.hash) == 0
    requires p.hash in db.plans ==> db.plans[p.hash] == p
    requires db'.plans == db.plans[p.hash := p] && db'.executed == db.executed && db'.receipts == db.receipts
    ensures LogsOk(db') && ReceiptsOk(db')
  {
    assert forall h :: Committed(db', h) == Committed(db, h);
    forall h, i: nat ensures (h, i) in db'.receipts <==> h in db'.plans && i < Committed(db', h) {
      assert (h, i) in db.receipts <==> h in db.plans && i < Committed(db, h);
    }
  }

  lemma FreshStepsAreAhead(db: Db, b: Binary)
    requires ValidBinary(b)
    ensures forall j :: 0 <= j < |FreshPlan(db, b).steps| ==> Ahead(db, FreshPlan(db, b).steps[j])
  {
    BuiltPlanIsWellFormed(b, MaxVersion(db.bundles.Keys), db.substrate);
  }

  lemma {:induction false} MaterializedIsAtZero(db: Db, b: Binary)
    requires ValidBinary(b) && Inv(db) && !InFlight(db)
    ensures At(Materialized(db, FreshPlan(db, b)), FreshPlan(db, b), 0)
  {
    FreshPlanIsUnstarted(db, b);
    FreshStepsAreAhead(db, b);
    MaterializedKeepsInv(db, FreshPlan(db, b));
  }

  lemma MaterializedKeepsInv(db: Db, p: Plan)
    requires Inv(db) && WellFormedPlan(p) && Committed(db, p.hash) == 0
    requires p.hash in db.plans ==> db.plans[p.hash] == p
    requires p.baseRuntime == db.substrate && p.baseOwner == MaxVersion(db.bundles.Keys)
    requires forall j :: 0 <= j < |p.steps| ==> Ahead(db, p.steps[j])
    ensures At(Materialized(db, p), p, 0)
  {
    hide PlansOk, LogsOk, ReceiptsOk, SeenOk, OnceOnly, ProgressOk, PlanLog, PendingOk;
    var db' := Materialized(db, p);
    assert db'.plans == db.plans[p.hash := p];
    assert Committed(db', p.hash) == 0;
    HashHasBases(p);
    LogsAfterMaterialize(db, db', p);
    ProgressAfterMaterialize(db, db', p);
    PlansAfterMaterialize(db, db', p);
    PendingAfterMaterialize(db, db', p);
    SeenFrame(db, db');
  }

  lemma HashHasBases(p: Plan)
    requires WellFormedPlan(p)
    ensures p.hash.baseOwner == p.baseOwner && p.hash.baseRuntime == p.baseRuntime
  {
  }

  lemma SeenFrame(db: Db, db': Db)
    requires SeenOk(db) && db'.executed == db.executed
    requires db'.migrations == db.migrations && db'.substrate == db.substrate && db'.bundles == db.bundles
    ensures SeenOk(db')
  {
  }

  lemma ProgressAfterMaterialize(db: Db, db': Db, p: Plan)
    requires ProgressOk(db) && Committed(db, p.hash) == 0
    requires p.hash.baseRuntime == db.substrate && p.hash.baseOwner == MaxVersion(db.bundles.Keys)
    requires db'.plans == db.plans[p.hash := p] && db'.executed == db.executed && db'.substrate == db.substrate && db'.bundles == db.bundles
    ensures ProgressOk(db')
  {
    forall h | h in db'.plans
      ensures db'.substrate >= h.baseRuntime && MaxVersion(db'.bundles.Keys) >= h.baseOwner
      ensures Committed(db', h) > 0 ==> db'.substrate > h.baseRuntime || MaxVersion(db'.bundles.Keys) > h.baseOwner
    {
      assert Committed(db', h) == Committed(db, h);
      assert h != p.hash ==> h in db.plans;
    }
  }

  lemma PlansAfterMaterialize(db: Db, db': Db, p: Plan)
    requires PlansOk(db) && WellFormedPlan(p)
    requires db'.plans == db.plans[p.hash := p]
    ensures PlansOk(db')
  {
  }

  lemma PendingAfterMaterialize(db: Db, db': Db, p: Plan)
    requires Committed(db, p.hash) == 0 && WellFormedPlan(p)
    requires forall j :: 0 <= j < |p.steps| ==> Ahead(db, p.steps[j])
    requires db'.plans == db.plans[p.hash := p] && db'.executed == db.executed && db'.substrate == db.substrate && db'.bundles == db.bundles
    requires db'.cursor == Some(CursorRow(p.hash, InProgress, 0, None))
    ensures CursorOk(db') && PendingOk(db')
  {
    forall j | 0 <= j < |p.steps| ensures Ahead(db', p.steps[j]) {
      assert Ahead(db, p.steps[j]);
    }
  }

  // ---------------------------------------------------------------- one step transaction

  // The history entry of step k, whose file resolves to the planned bytes.
  ghost function ExecutionOf(p: Plan, k: nat): Executed
    requires k < |p.steps|
  {
    Executed(ByPlan(p.hash), p.steps[k].role, p.steps[k].id.version, p.steps[k].sha)
  }

  lemma LogsAfterStep(db: Db, db': Db, p: Plan, k: nat)
    requires LogsOk(db) && p.hash in db.plans && db.plans[p.hash] == p && Committed(db, p.hash) == k < |p.steps|
    requires db'.plans == db.plans && db'.executed == db.executed + [ExecutionOf(p, k)]
    ensures Committed(db', p.hash) == k + 1
    ensures forall h :: h != p.hash ==> PlanLog(db'.executed, h) == PlanLog(db.executed, h)
    ensures LogsOk(db')
  {
    forall h ensures PlanLog(db'.executed, h) == PlanLog(db.executed, h) + if h == p.hash then [ExecutionOf(p, k)] else [] {
      PlanLogSnoc(db.executed, ExecutionOf(p, k), h);
    }
    assert PlanLog(db'.executed, p.hash) == Executions(p, k + 1);
  }

  lemma ReceiptsAfterStep(db: Db, db': Db, p: Plan, k: nat)
    requires LogsOk(db) && ReceiptsOk(db) && LogsOk(db')
    requires p.hash in db.plans && db.plans[p.hash] == p && Committed(db, p.hash) == k < |p.steps|
    requires db'.plans == db.plans && Committed(db', p.hash) == k + 1
    requires forall h :: h != p.hash ==> PlanLog(db'.executed, h) == PlanLog(db.executed, h)
    requires db'.receipts == InsertNew(db.receipts, (p.hash, k), Receipt(p.steps[k].id, p.steps[k].sha, ChainAt(p, k), ChainAt(p, k + 1)))
    ensures ReceiptsOk(db')
  {
    assert (p.hash, k) !in db.receipts;
    forall h, i: nat ensures (h, i) in db'.receipts <==> h in db'.plans && i < Committed(db', h) {
      assert (h, i) in db.receipts <==> h in db.plans && i < Committed(db, h);
    }
  }

  lemma OnceAfterStep(log: seq<Executed>, e: Executed)
    requires OnceOnly(log)
    requires forall x :: x in log && !x.via.BySubstrate? ==> x.role != e.role || x.version != e.version
    ensures OnceOnly(log + [e])
  {
    forall i | 0 <= i < |log| && !log[i].via.BySubstrate? ensures log[i].role != e.role || log[i].version != e.version {
      assert log[i] in log;
    }
  }

  lemma SeenAfterStep(db: Db, db': Db, s: Step, e: Executed)
    requires SeenOk(db) && OnceOnly(db.executed) && Ahead(db, s)
    requires !e.via.BySubstrate? && e.role == s.role && e.version == s.id.version && e.sha == s.sha
    requires db'.executed == db.executed + [e]
    requires s.role.Runtime? ==>
      db'.substrate == s.id.version && db'.migrations == InsertNew(db.migrations, s.id.version, s.sha) && db'.bundles == db.bundles
    requires s.role.Owner? ==>
      db'.substrate == db.substrate && db'.migrations == db.migrations && db'.bundles == InsertNew(db.bundles, s.id.version, s.sha)
    ensures SeenOk(db') && OnceOnly(db'.executed)
  {
    OnceAfterStep(db.executed, e);
    assert forall x :: x in db'.executed <==> x in db.executed || x == e;
  }

  lemma OriginAfterStep(then_: map<nat, string>, now: map<nat, string>, p: Plan, k: nat, now': map<nat, string>)
    requires k < |p.steps| && StampsSince(then_, now, p, k)
    requires now' == if p.steps[k].role.Runtime? then InsertNew(now, p.steps[k].id.version, p.steps[k].sha) else now
    ensures StampsSince(then_, now', p, k + 1)
  {
    forall v | v in now' && v !in then_
      ensures exists i :: 0 <= i < k + 1 && AddedBy(p.steps[i], v, now'[v])
    {
      if v in now {
        var i :| 0 <= i < k && AddedBy(p.steps[i], v, now[v]);
        assert AddedBy(p.steps[i], v, now'[v]);
      } else {
        assert AddedBy(p.steps[k], v, now'[v]);
      }
    }
  }

  lemma PendingAfterStep(db: Db, db': Db, p: Plan, k: nat)
    requires WellFormedPlan(p) && k < |p.steps|
    requires forall j :: k <= j < |p.steps| ==> Ahead(db, p.steps[j])
    requires p.steps[k].role.Runtime? ==> db'.substrate == p.steps[k].id.version && db'.bundles == db.bundles
    requires p.steps[k].role.Owner? ==>
      db'.substrate == db.substrate && db'.bundles == InsertNew(db.bundles, p.steps[k].id.version, p.steps[k].sha)
    ensures forall j :: k + 1 <= j < |p.steps| ==> Ahead(db', p.steps[j])
  {
    forall j | k + 1 <= j < |p.steps| ensures Ahead(db', p.steps[j]) {
      assert Ahead(db, p.steps[j]);
      if p.steps[j].role == p.steps[k].role {
        StepsAreDistinct(p, k, j);
        assert j != p.revokeStepIndex ==> p.steps[k].id.version < p.steps[j].id.version;
      }
    }
  }

  lemma ProgressAfterStep(db: Db, db': Db, p: Plan, k: nat)
    requires ProgressOk(db) && WellFormedPlan(p) && k < |p.steps| && Ahead(db, p.steps[k])
    requires p.hash in db.plans && db'.plans == db.plans
    requires forall h :: h != p.hash ==> PlanLog(db'.executed, h) == PlanLog(db.executed, h)
    requires p.steps[k].role.Runtime? ==> db'.substrate == p.steps[k].id.version && db'.bundles == db.bundles
    requires p.steps[k].role.Owner? ==>
      db'.substrate == db.substrate && db'.bundles == InsertNew(db.bundles, p.steps[k].id.version, p.steps[k].sha)
    ensures ProgressOk(db')
  {
    if p.steps[k].role.Owner? {
      MaxOfInsert(db.bundles, p.steps[k].id.version, p.steps[k].sha);
    }
    forall h | h in db'.plans
      ensures db'.substrate >= h.baseRuntime && MaxVersion(db'.bundles.Keys) >= h.baseOwner
      ensures Committed(db', h) > 0 ==> db'.substrate > h.baseRuntime || MaxVersion(db'.bundles.Keys) > h.baseOwner
    {
      assert Committed(db, h) > 0 ==> db.substrate > h.baseRuntime || MaxVersion(db.bundles.Keys) > h.baseOwner;
    }
  }

  lemma StepIsPending(db: Db, p: Plan, k: nat)
    requires At(db, p, k) && k < |p.steps|
    ensures WellFormedPlan(p) && p.steps[k].index == k && InFlight(db)
    ensures forall j :: k <= j < |p.steps| ==> Ahead(db, p.steps[j])
  {
    hide ReceiptsOk, SeenOk, OnceOnly, ProgressOk, PlanLog;
  }

  // The step transaction, field by field.
  ghost predicate Stepped(db: Db, db': Db, p: Plan, k: nat)
    requires k < |p.steps|
  {
    var s := p.steps[k];
    && db'.plans == db.plans && db'.origin == db.origin
    && db'.executed == db.executed + [ExecutionOf(p, k)]
    && db'.receipts == InsertNew(db.receipts, (p.hash, k), Receipt(s.id, s.sha, ChainAt(p, k), ChainAt(p, k + 1)))
    && db'.cursor == Some(CursorRow(p.hash, StepCommitted, k, Some(s.id)))
    && (s.role.Runtime? ==>
          db'.substrate == s.id.version && db'.migrations == InsertNew(db.migrations, s.id.version, s.sha) && db'.bundles == db.bundles)
    && (s.role.Owner? ==>
          db'.substrate == db.substrate && db'.migrations == db.migrations && db'.bundles == InsertNew(db.bundles, s.id.version, s.sha))
  }

  lemma StepIsStepped(db: Db, p: Plan, k: nat, file: SqlFile)
    requires k < |p.steps| && p.steps[k].index == k && file.name == p.steps[k].id && file.sha == p.steps[k].sha
    ensures Stepped(db, StepDone(db, p.hash, p.steps[k], file, ChainAt(p, k)), p, k)
  {
    hide InsertNew, AfterDdl;
  }

  lemma StepHistory(db: Db, db': Db, p: Plan, k: nat)
    requires HistoryOk(db) && WellFormedPlan(p) && p.hash in db.plans && db.plans[p.hash] == p
    requires Committed(db, p.hash) == k < |p.steps| && Ahead(db, p.steps[k]) && Stepped(db, db', p, k)
    ensures HistoryOk(db') && Committed(db', p.hash) == k + 1
  {
    hide PlansOk, LogsOk, ReceiptsOk, SeenOk, OnceOnly, ProgressOk, PlanLog, WellFormedPlan, InsertNew, Ahead, Committed;
    LogsAfterStep(db, db', p, k);
    ReceiptsAfterStep(db, db', p, k);
    SeenAfterStep(db, db', p.steps[k], ExecutionOf(p, k));
    ProgressAfterStep(db, db', p, k);
    PlansFrame(db, db');
  }

  lemma PlansFrame(db: Db, db': Db)
    requires PlansOk(db) && db'.plans == db.plans
    ensures PlansOk(db')
  {
  }

  lemma StepCursor(db: Db, db': Db, p: Plan, k: nat)
    requires WellFormedPlan(p) && p.hash in db.plans && db.plans[p.hash] == p && k < |p.steps| && Stepped(db, db', p, k)
    requires forall j :: k <= j < |p.steps| ==> Ahead(db, p.steps[j])
    requires StampsSince(db.origin, db.migrations, p, k)
    requires LogsOk(db') && Committed(db', p.hash) == k + 1
    ensures CursorOk(db') && PendingOk(db') && OriginOk(db') && FingerprintOk(db')
  {
    hide LogsOk, PlanLog, Committed, WellFormedPlan, StampsSince, InsertNew;
    PendingAfterStep(db, db', p, k);
    OriginAfterStep(db.origin, db.migrations, p, k, db'.migrations);
  }

  lemma StepKeepsInv(db: Db, p: Plan, k: nat, file: SqlFile)
    requires At(db, p, k) && k < |p.steps|
    requires file.name == p.steps[k].id && file.sha == p.steps[k].sha
    ensures At(StepDone(db, p.hash, p.steps[k], file, ChainAt(p, k)), p, k + 1)
  {
    var db' := StepDone(db, p.hash, p.steps[k], file, ChainAt(p, k));
    StepIsPending(db, p, k);
    StepIsStepped(db, p, k, file);
    hide PlansOk, LogsOk, ReceiptsOk, SeenOk, OnceOnly, ProgressOk, PlanLog, Committed, WellFormedPlan, PendingOk, CursorOk,
         FingerprintOk, StepDone, StampsSince, InsertNew, ChainAt, Ahead;
    StepHistory(db, db', p, k);
    StepCursor(db, db', p, k);
  }

  // ---------------------------------------------------------------- the other transactions

  lemma FinalizingKeepsInv(db: Db, p: Plan)
    requires Inv(db) && p.hash in db.plans && db.plans[p.hash] == p && Committed(db, p.hash) == |p.steps|
    requires InFlight(db) && db.cursor.value.plan == p.hash
    ensures Inv(WithCursor(db, p.hash, Finalizing, LastStepIndex(p), LastStepId(p)))
  {
    hide PlansOk, LogsOk, ReceiptsOk, SeenOk, OnceOnly, ProgressOk, Committed, StampsSince;
    HistoryFrame(db, WithCursor(db, p.hash, Finalizing, LastStepIndex(p), LastStepId(p)));
  }

  lemma CompleteKeepsInv(db: Db, p: Plan)
    requires Inv(db) && p.hash in db.plans && db.plans[p.hash] == p && Committed(db, p.hash) == |p.steps|
    requires InFlight(db) && db.cursor.value.plan == p.hash && Covers(db.schemaState, p)
    ensures Inv(WithCursor(db, p.hash, Complete, LastStepIndex(p), LastStepId(p)))
  {
    hide PlansOk, LogsOk, ReceiptsOk, SeenOk, OnceOnly, ProgressOk, Committed, StampsSince, Covers;
    HistoryFrame(db, WithCursor(db, p.hash, Complete, LastStepIndex(p), LastStepId(p)));
  }

  lemma AbortKeepsInv(db: Db, c: CursorRow)
    requires Inv(db) && c.plan in db.plans
    ensures Inv(WithCursor(db, c.plan, Aborted, c.stepIndex, c.stepId))
  {
    hide PlansOk, LogsOk, ReceiptsOk, SeenOk, OnceOnly, ProgressOk, Committed, StampsSince, Covers;
    HistoryFrame(db, WithCursor(db, c.plan, Aborted, c.stepIndex, c.stepId));
  }

  lemma FingerprintKeepsInv(db: Db, f: Fingerprint)
    requires Inv(db) && (db.cursor.None? || !db.cursor.value.state.Complete?)
    ensures Inv(WithFingerprint(db, f))
  {
    hide PlansOk, LogsOk, ReceiptsOk, SeenOk, OnceOnly, ProgressOk, Committed, StampsSince, Covers;
    HistoryFrame(db, WithFingerprint(db, f));
    assert WithFingerprint(db, f).substrate == db.substrate && WithFingerprint(db, f).bundles == db.bundles;
  }

  // The body of migration 44 leaves numbers, stamps, plans and receipts alone.
  lemma SubstrateKeepsInv(db: Db, file: SqlFile)
    requires Inv(db)
    ensures Inv(WithDeployTables(db, file))
    ensures forall h :: PlanLog(WithDeployTables(db, file).executed, h) == PlanLog(db.executed, h)
    ensures Numbered(WithDeployTables(db, file).executed) == Numbered(db.executed)
  {
    hide PlanLog, Numbered, StampsSince, WellFormedPlan, Executions;
    var db' := WithDeployTables(db, file);
    var e := Executed(BySubstrate, Runtime, SUBSTRATE_FILE.version, file.sha);
    forall h ensures PlanLog(db'.executed, h) == PlanLog(db.executed, h) {
      PlanLogSnoc(db.executed, e, h);
    }
    NumberedSnoc(db.executed, e);
    assert forall h :: Committed(db', h) == Committed(db, h);
    assert forall x :: x in db'.executed ==> x in db.executed || x == e;
    SubstrateKeepsReceipts(db, db');
  }

  lemma SubstrateKeepsReceipts(db: Db, db': Db)
    requires LogsOk(db) && ReceiptsOk(db) && LogsOk(db')
    requires db'.plans == db.plans && db'.receipts == db.receipts && forall h :: Committed(db', h) == Committed(db, h)
    ensures ReceiptsOk(db')
  {
    forall h, i: nat ensures (h, i) in db'.receipts <==> h in db'.plans && i < Committed(db', h) {
      assert (h, i) in db.receipts <==> h in db.plans && i < Committed(db, h);
    }
  }

  // The legacy path applies files only before the first deploy; its entries belong to no plan.
  lemma MigrationKeepsInv(db: Db, m: SqlFile)
    requires Inv(db) && LoadCursor(db).None? && m.name.version > db.substrate
    ensures Inv(MigrationDone(db, m))
  {
    hide Executions, WellFormedPlan, StampsSince;
    var db' := MigrationDone(db, m);
    var e := Executed(ByBoot, Runtime, m.name.version, m.sha);
    forall h ensures PlanLog(db'.executed, h) == PlanLog(db.executed, h) {
      PlanLogSnoc(db.executed, e, h);
    }
    assert forall x :: x in db'.executed ==> x in db.executed || x == e;
    OnceAfterStep(db.executed, e);
  }
}
