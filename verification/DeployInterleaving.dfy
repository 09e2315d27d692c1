/**
  Deploy processes that overlap. Nothing serializes them: each keeps its own place in the plan, and a
  step transaction does not look at the cursor before it writes it.
 */
module DeployInterleaving {
  import opened Wrappers
  import opened DeployPlan
  import opened DeployDatabase
  import opened DeployApply
  import opened DeployInvariant
  import opened DeployRuns
  import opened DeployResume
  import opened DeployStamps
  import opened DeployMisread

  // The next transaction of a deploy process that has loaded plan p and stands before step `next`.
  ghost function NextTransaction(db: Db, b: Binary, p: Plan, next: nat, prev: Digest): Db {
    RunFrom(World(db, 1), b, p, next, prev, [], false).0.db
  }

  // Nothing serializes deploys: two processes that read the same database build the same plan, and
  // if both materialize it before either takes a step, its first file is executed twice.
  lemma InterleavedDeploysRunTwice(db: Db, b: Binary)
    requires Inv(db) && ValidBinary(b) && Startable(db) && FreshPlan(db, b).steps != []
    ensures var p := FreshPlan(db, b);
      var both := Materialized(Materialized(db, p), p);
      var one := NextTransaction(both, b, p, 0, NoDigest);
      var two := NextTransaction(one, b, p, 0, NoDigest);
      NumberedTimes(two.executed, p.steps[0].role, p.steps[0].id.version) == 2
  {
    hide *;
    var p := FreshPlan(db, b);
    var both := Materialized(Materialized(db, p), p);
    var one := NextTransaction(both, b, p, 0, NoDigest);
    MaterializedStart(db, b);
    MaterializedLog(db, p);
    MaterializedLog(Materialized(db, p), p);
    FirstStepIsNew(db, b);
    NextTransactionRuns(both, b, p, NoDigest);
    NextTransactionRuns(one, b, p, NoDigest);
  }

  lemma MaterializedLog(db: Db, p: Plan)
    ensures Materialized(db, p).executed == db.executed
  {
  }

  lemma FirstStepIsNew(db: Db, b: Binary)
    requires Inv(db) && ValidBinary(b) && FreshPlan(db, b).steps != []
    ensures var s := FreshPlan(db, b).steps[0]; NumberedTimes(db.executed, s.role, s.id.version) == 0
  {
    FreshStepsAreAhead(db, b);
    var s := FreshPlan(db, b).steps[0];
    assert Ahead(db, s);
    CountedOnce(db.executed, s.role, s.id.version);
    hide LogsOk, ReceiptsOk, CursorOk, PendingOk, OriginOk, FingerprintOk, PlansOk, ProgressOk, NumberedTimes, FreshPlan;
  }

  lemma NextTransactionRuns(db: Db, b: Binary, p: Plan, prev: Digest)
    requires p.steps != [] && TranscriptMatches(b, p.steps)
    ensures var s := p.steps[0];
      NumberedTimes(NextTransaction(db, b, p, 0, prev).executed, s.role, s.id.version)
        == NumberedTimes(db.executed, s.role, s.id.version) + 1
  {
    NextIsStep(db, b, p, 0, prev);
    var e := Executed(ByPlan(p.hash), p.steps[0].role, p.steps[0].id.version, p.steps[0].sha);
    assert (db.executed + [e])[..|db.executed|] == db.executed;
    hide TranscriptMatches, NextTransaction;
  }

  lemma RunFromOutOfCredit(db: Db, b: Binary, p: Plan, next: nat, prev: Digest, applied: seq<nat>)
    ensures RunFrom(World(db, 0), b, p, next, prev, applied, false).0.db == db
  {
    hide TranscriptError, Resolve, LastStepIndex, LastStepId, StepDone;
  }

  // ---------------------------------------------------------------- any interleaving

  // A process's place in the plan, and the receipt hash it chains from.
  datatype Process = Process(next: nat, prev: Digest)

  datatype Shared = Shared(db: Db, at: map<nat, Process>)

  // A process that found no deploy materializes the plan; one that finds a deploy in flight, and
  // passes its checks, takes its place from the cursor; a process commits its next step.
  datatype Move = Materialize(pid: nat) | Join(pid: nat) | Take(pid: nat)

  ghost predicate CanTake(s: Shared, p: Plan, m: Move) {
    m.Take? && m.pid in s.at && s.at[m.pid].next < |p.steps|
  }

  ghost function Moved(s: Shared, b: Binary, p: Plan, m: Move): Shared {
    match m
    case Materialize(pid) => Shared(Materialized(s.db, p), s.at[pid := Process(0, NoDigest)])
    case Join(pid) =>
      if InFlight(s.db) then
        var through := CommittedThrough(s.db.cursor.value);
        s.(at := s.at[pid := Process(through, LastReceipt(s.db, p.hash, through))])
      else s
    case Take(pid) =>
      if CanTake(s, p, m) then
        var x := s.at[pid];
        Shared(NextTransaction(s.db, b, p, x.next, x.prev),
               s.at[pid := Process(x.next + 1, LinkOf(x.prev, p.hash, p.steps[x.next]))])
      else s
  }

  ghost function Moves(s: Shared, b: Binary, p: Plan, moves: seq<Move>): Shared
    decreases |moves|
  {
    if moves == [] then s else Moved(Moves(s, b, p, moves[..|moves| - 1]), b, p, moves[|moves| - 1])
  }

  // The step it takes is the first one that nobody has committed.
  ghost predicate UpToDate(s: Shared, p: Plan, base: nat, m: Move) {
    CanTake(s, p, m) ==> base + s.at[m.pid].next == |s.db.executed|
  }

  ghost predicate AllUpToDate(s: Shared, b: Binary, p: Plan, moves: seq<Move>)
    decreases |moves|
  {
    moves == []
    || (AllUpToDate(s, b, p, moves[..|moves| - 1])
        && UpToDate(Moves(s, b, p, moves[..|moves| - 1]), p, |s.db.executed|, moves[|moves| - 1]))
  }

  // The first k steps have run, once each, and nobody's place is beyond them.
  ghost predicate InOrder(log: seq<Executed>, s: Shared, p: Plan, k: nat) {
    && k <= |p.steps|
    && s.db.executed == log + Executions(p, k)
    && (s.db.cursor.Some? && InFlight(s.db) ==> CommittedThrough(s.db.cursor.value) <= k)
    && (forall pid :: pid in s.at ==> s.at[pid].next <= k)
  }

  lemma NextIsStep(db: Db, b: Binary, p: Plan, next: nat, prev: Digest)
    requires next < |p.steps| && TranscriptMatches(b, p.steps)
    ensures var after := NextTransaction(db, b, p, next, prev); var s := p.steps[next];
      && after.executed == db.executed + [Executed(ByPlan(p.hash), s.role, s.id.version, s.sha)]
      && after.cursor == Some(CursorRow(p.hash, StepCommitted, s.index, Some(s.id)))
  {
    var s := p.steps[next];
    ResolvedName(b, s);
    var file := Resolve(b, s.role, s.id).value;
    var after := StepDone(db, p.hash, s, file, prev);
    RunFromOutOfCredit(after, b, p, next + 1, LinkOf(prev, p.hash, s), [] + [s.index]);
    assert NextTransaction(db, b, p, next, prev)
        == RunFrom(World(after, 0), b, p, next + 1, LinkOf(prev, p.hash, s), [] + [s.index], false).0.db;
    hide TranscriptMatches, Resolve, Finalize, InsertNew, AfterDdl, CreatesTables;
  }

  lemma MoveExtends(s: Shared, b: Binary, p: Plan, m: Move) returns (more: seq<Executed>)
    requires TranscriptMatches(b, p.steps)
    ensures Moved(s, b, p, m).db.executed == s.db.executed + more
    ensures CanTake(s, p, m) ==> more == [Executed(ByPlan(p.hash), p.steps[s.at[m.pid].next].role,
                                                   p.steps[s.at[m.pid].next].id.version, p.steps[s.at[m.pid].next].sha)]
    ensures !CanTake(s, p, m) ==> more == []
  {
    hide NextTransaction, TranscriptMatches, InsertNew;
    more := [];
    if CanTake(s, p, m) {
      var x := s.at[m.pid];
      NextIsStep(s.db, b, p, x.next, x.prev);
      more := [Executed(ByPlan(p.hash), p.steps[x.next].role, p.steps[x.next].id.version, p.steps[x.next].sha)];
    } else {
      assert s.db.executed + [] == s.db.executed;
    }
  }

  lemma OncePrefix(log: seq<Executed>, more: seq<Executed>)
    requires OnceOnly(log + more)
    ensures OnceOnly(log)
  {
    assert forall i :: 0 <= i < |log| ==> (log + more)[i] == log[i];
  }

  // An up-to-date move keeps the order.
  lemma MoveKeepsOrder(log: seq<Executed>, s: Shared, b: Binary, p: Plan, k: nat, m: Move)
    requires WellFormedPlan(p) && TranscriptMatches(b, p.steps) && InOrder(log, s, p, k) && UpToDate(s, p, |log|, m)
    ensures InOrder(log, Moved(s, b, p, m), p, if CanTake(s, p, m) then k + 1 else k)
  {
    hide NextTransaction, TranscriptMatches, InsertNew, LastReceipt;
    if CanTake(s, p, m) {
      var x := s.at[m.pid];
      assert x.next == k && p.steps[k].index == k;
      NextIsStep(s.db, b, p, x.next, x.prev);
      assert Executions(p, k + 1) == Executions(p, k)
        + [Executed(ByPlan(p.hash), p.steps[k].role, p.steps[k].id.version, p.steps[k].sha)];
    }
  }

  // A process that is behind repeats a step that somebody has committed.
  lemma LateMoveRepeats(log: seq<Executed>, s: Shared, b: Binary, p: Plan, k: nat, m: Move)
    requires TranscriptMatches(b, p.steps) && InOrder(log, s, p, k) && !UpToDate(s, p, |log|, m)
    ensures !OnceOnly(Moved(s, b, p, m).db.executed)
  {
    var i := s.at[m.pid].next;
    assert i < k && Executions(p, k)[i] in Executions(p, k);
    var more := MoveExtends(s, b, p, m);
    hide TranscriptMatches, Moved, OnceOnly;
    assert (log + Executions(p, k))[|log| + i] == Executions(p, k)[i];
    assert RanNumber(s.db.executed, more[0].role, more[0].version);
    RepeatsOnce(s.db.executed, more, 0);
  }

  lemma StartIsInOrder(log: seq<Executed>, db: Db, p: Plan)
    requires db.executed == log && !InFlight(db)
    ensures InOrder(log, Shared(db, map[]), p, 0)
  {
    assert Executions(p, 0) == [] && log + [] == log;
  }

  lemma PlanIsNew(db: Db, b: Binary, i: nat)
    requires Inv(db) && ValidBinary(b) && i < |FreshPlan(db, b).steps|
    ensures var s := FreshPlan(db, b).steps[i]; !RanNumber(db.executed, s.role, s.id.version)
  {
    FreshStepsAreAhead(db, b);
    assert Ahead(db, FreshPlan(db, b).steps[i]);
    hide LogsOk, ReceiptsOk, CursorOk, PendingOk, OriginOk, FingerprintOk, PlansOk, ProgressOk, FreshPlan;
  }

  lemma {:induction false} InOrderOrRepeated(db: Db, b: Binary, p: Plan, moves: seq<Move>) returns (k: nat)
    requires !InFlight(db) && WellFormedPlan(p) && TranscriptMatches(b, p.steps)
    ensures var s := Moves(Shared(db, map[]), b, p, moves);
      if AllUpToDate(Shared(db, map[]), b, p, moves) then InOrder(db.executed, s, p, k) else !OnceOnly(s.db.executed)
    decreases |moves|
  {
    hide WellFormedPlan, TranscriptMatches, Moved, UpToDate, InOrder, OnceOnly, InFlight, CanTake;
    var start := Shared(db, map[]);
    if moves == [] {
      k := 0;
      StartIsInOrder(db.executed, db, p);
    } else {
      var front, m := moves[..|moves| - 1], moves[|moves| - 1];
      k := InOrderOrRepeated(db, b, p, front);
      var s := Moves(start, b, p, front);
      if !AllUpToDate(start, b, p, front) {
        var more := MoveExtends(s, b, p, m);
        if OnceOnly(Moved(s, b, p, m).db.executed) {
          OncePrefix(s.db.executed, more);
        }
      } else if UpToDate(s, p, |db.executed|, m) {
        MoveKeepsOrder(db.executed, s, b, p, k, m);
        k := if CanTake(s, p, m) then k + 1 else k;
      } else {
        LateMoveRepeats(db.executed, s, b, p, k, m);
      }
    }
  }

  // Any number of processes of one binary, in any interleaving of their transactions, from any
  // reachable state without a deploy in flight: no file is executed twice if and only if every step
  // is taken by a process whose place is the first step that nobody has committed.
  lemma InterleavingOnceIff(db: Db, b: Binary, moves: seq<Move>)
    requires Inv(db) && ValidBinary(b) && Startable(db)
    ensures var p := FreshPlan(db, b);
      OnceOnly(Moves(Shared(db, map[]), b, p, moves).db.executed) <==> AllUpToDate(Shared(db, map[]), b, p, moves)
  {
    hide *;
    var p := FreshPlan(db, b);
    CursorCases(db);
    MaterializedStart(db, b);
    FreshPlanFacts(db, b);
    var k := InOrderOrRepeated(db, b, p, moves);
    if AllUpToDate(Shared(db, map[]), b, p, moves) {
      forall i: nat | i < |p.steps| ensures !RanNumber(db.executed, p.steps[i].role, p.steps[i].id.version) {
        PlanIsNew(db, b, i);
      }
      InOrderIs(db.executed, Moves(Shared(db, map[]), b, p, moves), p, k);
      OnceAfterPrefix(db.executed, p, k);
    }
  }

  lemma FreshPlanFacts(db: Db, b: Binary)
    requires Inv(db) && ValidBinary(b)
    ensures WellFormedPlan(FreshPlan(db, b)) && OnceOnly(db.executed)
  {
    FreshPlanIsUnstarted(db, b);
    hide WellFormedPlan, ValidBinary, FreshPlan;
  }

  lemma InOrderIs(log: seq<Executed>, s: Shared, p: Plan, k: nat)
    requires InOrder(log, s, p, k)
    ensures k <= |p.steps| && s.db.executed == log + Executions(p, k)
  {
  }
}
