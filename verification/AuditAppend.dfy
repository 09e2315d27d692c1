/**
  Writing the audit chain: the sequential append and any interleaving of appender transactions
  around the one locked head row.

  A transaction is a list of statements; the machine interleaves them freely. The head row is
  locked by the first append of a transaction and released by its commit or rollback, audit ids
  come from a sequence that no rollback rewinds, and the row hash column is unique.
 */
module AuditAppend {
  import opened Wrappers
  import opened AuditEncoding
  import opened AuditChain

  // ---------------------------------------------------------------- one entry, one row

  datatype Format = V2 | V3

  datatype Meta = Meta(
    daemonVersion: Text,
    clientId: Text,
    repositoryId: Text,
    method_: Text,
    decision: Text,
    denialReason: Text,
    transport: Text,
    requestId: Text,
    paramsSha256: Text,
    ok: bool)

  // What the caller, the clock, the id sequence and the open segment contribute to one append.
  datatype Entry = Entry(auditId: int, format: Format, ts: Text, segment: int, meta: Meta)

  function NullString(t: Text): Field {
    if t == [] then None else Some(t)
  }

  function HashedRowOf(e: Entry, previous: Field): HashedRow {
    HashedRow(
      Some(e.ts), Some(1), Some(if e.format.V2? then 2 else 3), Some(e.meta.daemonVersion),
      NullString(e.meta.clientId), NullString(e.meta.repositoryId), Some(e.meta.method_), Some(e.meta.decision),
      NullString(e.meta.denialReason), Some(e.meta.transport), Some(e.meta.requestId),
      if e.meta.ok then None else Some(10), Some(e.meta.paramsSha256), previous, Some(e.segment))
  }

  function NewRow(h: Hasher, e: Entry, previous: Field): AuditRow {
    AuditRow(e.auditId, HashedRowOf(e, previous), RowHash(h, HashedRowOf(e, previous)).value)
  }

  // A row written for an entry, column by column: the format the entry asked for, a null for an
  // empty client, repository or denial reason, exit code 10 for a failed request and none for one
  // that succeeded, and the seal of exactly these columns.
  ghost predicate Records(h: Hasher, row: AuditRow, e: Entry, previous: Field) {
    && row.auditId == e.auditId
    && row.hashed.ts == Some(e.ts)
    && row.hashed.schemaVersion == Some(1)
    && row.hashed.hashFormat == (match e.format case V2 => Some(2) case V3 => Some(3))
    && row.hashed.daemonVersion == Some(e.meta.daemonVersion)
    && row.hashed.clientId == (if e.meta.clientId == [] then None else Some(e.meta.clientId))
    && row.hashed.repositoryId == (if e.meta.repositoryId == [] then None else Some(e.meta.repositoryId))
    && row.hashed.method_ == Some(e.meta.method_)
    && row.hashed.decision == Some(e.meta.decision)
    && row.hashed.denialReason == (if e.meta.denialReason == [] then None else Some(e.meta.denialReason))
    && row.hashed.transport == Some(e.meta.transport)
    && row.hashed.requestId == Some(e.meta.requestId)
    && row.hashed.exitCode == (if e.meta.ok then None else Some(10))
    && row.hashed.paramsSha256 == Some(e.meta.paramsSha256)
    && row.hashed.previousHash == previous
    && row.hashed.segmentId == Some(e.segment)
    && SealedBy(h, row.hashed, row.rowHash)
  }

  // Those columns are the row.
  lemma RecordsIff(h: Hasher, row: AuditRow, e: Entry, previous: Field)
    ensures Records(h, row, e, previous) <==> row == NewRow(h, e, previous)
  {
    NewRowHasHash(h, e, previous);
    hide SealedBy, RowHash;
    SealedIff(h, row.hashed, row.rowHash);
    if Records(h, row, e, previous) {
      assert row.hashed == HashedRowOf(e, previous);
    }
  }

  lemma NewRowHasHash(h: Hasher, e: Entry, previous: Field)
    ensures RowHash(h, HashedRowOf(e, previous)).Some?
  {
  }

  function LastHash(rows: seq<AuditRow>): Field {
    if rows == [] then None else Some(rows[|rows| - 1].rowHash)
  }

  // The sequential meaning: one entry after another, each linked to the row before it.
  function BuildChain(h: Hasher, log: seq<Entry>): (rows: seq<AuditRow>)
    ensures |rows| == |log|
    decreases |log|
  {
    if log == [] then []
    else
      var prior := BuildChain(h, log[..|log| - 1]);
      prior + [NewRow(h, log[|log| - 1], LastHash(prior))]
  }

  lemma BuildSnoc(h: Hasher, log: seq<Entry>, e: Entry)
    ensures BuildChain(h, log + [e]) == BuildChain(h, log) + [NewRow(h, e, LastHash(BuildChain(h, log)))]
  {
    assert (log + [e])[..|log|] == log;
  }

  lemma {:induction false} BuiltChainVerifies(h: Hasher, log: seq<Entry>)
    ensures ChainOk(h, BuildChain(h, log))
    decreases |log|
  {
    if log != [] {
      var prior := BuildChain(h, log[..|log| - 1]);
      BuiltChainVerifies(h, log[..|log| - 1]);
      ChainSnoc(h, prior, NewRow(h, log[|log| - 1], LastHash(prior)));
    }
  }

  lemma {:induction false} BuiltRowsRecord(h: Hasher, log: seq<Entry>, i: nat)
    requires i < |log|
    ensures var rows := BuildChain(h, log); Records(h, rows[i], log[i], if i == 0 then None else Some(rows[i - 1].rowHash))
    decreases |log|
  {
    hide NewRow, Records;
    var front := log[..|log| - 1];
    if i < |front| {
      BuiltRowsRecord(h, front, i);
    } else {
      RecordsIff(h, BuildChain(h, log)[i], log[i], LastHash(BuildChain(h, front)));
    }
  }

  lemma {:induction false} BuiltIds(h: Hasher, log: seq<Entry>)
    ensures forall i :: 0 <= i < |log| ==> BuildChain(h, log)[i].auditId == log[i].auditId
    decreases |log|
  {
    if log != [] {
      BuiltIds(h, log[..|log| - 1]);
    }
  }

  ghost predicate Increasing(log: seq<Entry>, next: int) {
    && (forall i, j :: 0 <= i < j < |log| ==> log[i].auditId < log[j].auditId)
    && (forall i :: 0 <= i < |log| ==> log[i].auditId < next)
  }

  ghost predicate DistinctHashes(rows: seq<AuditRow>) {
    forall i, j :: 0 <= i < j < |rows| ==> rows[i].rowHash != rows[j].rowHash
  }

  predicate HashTaken(rows: seq<AuditRow>, hash: Text) {
    exists i :: 0 <= i < |rows| && rows[i].rowHash == hash
  }

  // ---------------------------------------------------------------- the sequential append

  class AuditStore {
    const h: Hasher
    var rows: seq<AuditRow>
    var lastAuditId: Option<int>
    var lastHash: Field
    var nextId: int
    ghost var log: seq<Entry>

    ghost predicate Valid()
      reads this
    {
      && rows == BuildChain(h, log)
      && lastHash == LastHash(rows)
      && Increasing(log, nextId)
      && DistinctHashes(rows)
    }

    constructor (h: Hasher)
      ensures Valid() && rows == [] && log == [] && this.h == h
    {
      this.h := h;
      rows, lastAuditId, lastHash, nextId, log := [], None, None, 1, [];
    }

    // The chain-locked append; the insert fails where the unique row hash column refuses it.
    method AppendAuditRow(format: Format, ts: Text, segment: int, meta: Meta) returns (auditId: Option<int>)
      requires Valid()
      modifies this
      ensures Valid()
      ensures auditId.Some? ==>
                && auditId == lastAuditId == Some(old(nextId))
                && log == old(log) + [Entry(old(nextId), format, ts, segment, meta)]
                && |rows| == |old(rows)| + 1 && rows[..|old(rows)|] == old(rows)
                && Records(h, rows[|rows| - 1], Entry(old(nextId), format, ts, segment, meta), old(lastHash))
                && lastHash == Some(rows[|rows| - 1].rowHash)
      ensures auditId.None? ==> log == old(log) && rows == old(rows) && lastHash == old(lastHash) && lastAuditId == old(lastAuditId)
      ensures forall row :: Records(h, row, Entry(old(nextId), format, ts, segment, meta), old(lastHash)) ==>
                (auditId.None? <==> exists i :: 0 <= i < |old(rows)| && old(rows)[i].rowHash == row.rowHash)
      ensures nextId == old(nextId) + 1
    {
      hide BuildChain, NewRow, Records;
      var previous := lastHash;
      var entry := Entry(nextId, format, ts, segment, meta);
      var row := NewRow(h, entry, previous);
      forall r: AuditRow {
        RecordsIff(h, r, entry, previous);
      }
      nextId := nextId + 1;
      if HashTaken(rows, row.rowHash) {
        return None;
      }
      BuildSnoc(h, log, entry);
      rows := rows + [row];
      lastAuditId, lastHash := Some(entry.auditId), Some(row.rowHash);
      log := log + [entry];
      return Some(entry.auditId);
    }
  }

  // ---------------------------------------------------------------- concurrent transactions

  datatype Pc =
    | Ready
    | Locked(lastHash: Field)
    | Inserted(rowHash: Text)
    | Failed

  // A transaction's uncommitted inserts, the entries they came from, and its view of the head.
  datatype Txn = Txn(pc: Pc, head: Field, rows: seq<AuditRow>, log: seq<Entry>)

  const NEW_TXN := Txn(Ready, None, [], [])

  datatype State = State(
    rows: seq<AuditRow>,
    head: Field,
    lock: Option<nat>,
    txns: map<nat, Txn>,
    nextId: int,
    log: seq<Entry>)

  const INITIAL := State([], None, None, map[], 1, [])

  datatype Step =
    | Begin(t: nat)
    | LockHead(t: nat)
    | Insert(t: nat, format: Format, ts: Text, segment: int, meta: Meta)
    | UpdateHead(t: nat)
    | Commit(t: nat)
    | Rollback(t: nat)

  // One statement of one transaction; a statement that has to wait, or is out of order, is not taken.
  function Next(h: Hasher, s: State, step: Step): State {
    if step.Begin? then
      if step.t in s.txns then s else s.(txns := s.txns[step.t := NEW_TXN])
    else if step.t !in s.txns then s
    else
      var t, x := step.t, s.txns[step.t];
      match step
      case LockHead(_) =>
        if x.pc.Ready? && (s.lock.None? || s.lock == Some(t)) then
          var head := if s.lock.None? then s.head else x.head;
          s.(lock := Some(t), txns := s.txns[t := x.(pc := Locked(head), head := head)])
        else s
      case Insert(_, format, ts, segment, meta) =>
        if x.pc.Locked? then
          var e := Entry(s.nextId, format, ts, segment, meta);
          var row := NewRow(h, e, x.pc.lastHash);
          var after := if HashTaken(s.rows + x.rows, row.rowHash) then x.(pc := Failed)
                       else x.(pc := Inserted(row.rowHash), rows := x.rows + [row], log := x.log + [e]);
          s.(nextId := s.nextId + 1, txns := s.txns[t := after])
        else s
      case UpdateHead(_) =>
        if x.pc.Inserted? then s.(txns := s.txns[t := x.(pc := Ready, head := Some(x.pc.rowHash))]) else s
      case Commit(_) =>
        if !x.pc.Ready? then s
        else if s.lock != Some(t) then s.(txns := s.txns - {t})
        else s.(rows := s.rows + x.rows, head := x.head, lock := None, txns := s.txns - {t}, log := s.log + x.log)
      case Rollback(_) =>
        s.(lock := if s.lock == Some(t) then None else s.lock, txns := s.txns - {t})
  }

  function Run(h: Hasher, s: State, steps: seq<Step>): State
    decreases |steps|
  {
    if steps == [] then s else Next(h, Run(h, s, steps[..|steps| - 1]), steps[|steps| - 1])
  }

  // The lock holder continues the committed chain; nobody else has written anything.
  ghost predicate HolderOk(h: Hasher, s: State, x: Txn) {
    && s.rows + x.rows == BuildChain(h, s.log + x.log)
    && Increasing(s.log + x.log, s.nextId)
    && DistinctHashes(s.rows + x.rows)
    && (match x.pc
        case Ready => x.head == LastHash(s.rows + x.rows)
        case Locked(last) => last == LastHash(s.rows + x.rows)
        case Inserted(hash) => Some(hash) == LastHash(s.rows + x.rows)
        case Failed => true)
  }

  ghost predicate Inv(h: Hasher, s: State) {
    && s.rows == BuildChain(h, s.log)
    && s.head == LastHash(s.rows)
    && Increasing(s.log, s.nextId)
    && DistinctHashes(s.rows)
    && (forall t :: t in s.txns && s.lock != Some(t) ==> s.txns[t] == NEW_TXN)
    && (s.lock.Some? ==> s.lock.value in s.txns && HolderOk(h, s, s.txns[s.lock.value]))
  }

  lemma IncreasingSnoc(log: seq<Entry>, e: Entry, next: int)
    requires Increasing(log, next) && e.auditId == next
    ensures Increasing(log + [e], next + 1)
  {
  }

  lemma IncreasingLater(log: seq<Entry>, next: int)
    requires Increasing(log, next)
    ensures Increasing(log, next + 1)
  {
  }

  lemma DistinctSnoc(rows: seq<AuditRow>, row: AuditRow)
    requires DistinctHashes(rows) && !HashTaken(rows, row.rowHash)
    ensures DistinctHashes(rows + [row])
  {
  }

  lemma InsertKeepsHolder(h: Hasher, s: State, x: Txn, e: Entry)
    requires HolderOk(h, s, x) && x.pc.Locked? && e.auditId == s.nextId
    requires !HashTaken(s.rows + x.rows, NewRow(h, e, x.pc.lastHash).rowHash)
    ensures var row := NewRow(h, e, x.pc.lastHash);
            HolderOk(h, s.(nextId := s.nextId + 1), x.(pc := Inserted(row.rowHash), rows := x.rows + [row], log := x.log + [e]))
  {
    hide NewRow, BuildChain, Increasing, DistinctHashes, HashTaken;
    var row := NewRow(h, e, x.pc.lastHash);
    BuildSnoc(h, s.log + x.log, e);
    IncreasingSnoc(s.log + x.log, e, s.nextId);
    DistinctSnoc(s.rows + x.rows, row);
    assert s.rows + (x.rows + [row]) == (s.rows + x.rows) + [row];
    assert s.log + (x.log + [e]) == (s.log + x.log) + [e];
  }

  lemma LockKeepsInv(h: Hasher, s: State, step: Step)
    requires Inv(h, s) && step.LockHead?
    ensures Inv(h, Next(h, s, step)) && Next(h, s, step).rows == s.rows && Next(h, s, step).log == s.log
  {
    hide BuildChain, Increasing, DistinctHashes;
    assert s.rows + NEW_TXN.rows == s.rows && s.log + NEW_TXN.log == s.log;
  }

  lemma InsertKeepsInv(h: Hasher, s: State, step: Step)
    requires Inv(h, s) && step.Insert? && step.t in s.txns
    ensures Inv(h, Next(h, s, step)) && Next(h, s, step).rows == s.rows && Next(h, s, step).log == s.log
  {
    hide BuildChain, NewRow, Increasing, DistinctHashes, HashTaken;
    var x := s.txns[step.t];
    if x.pc.Locked? {
      var e := Entry(s.nextId, step.format, step.ts, step.segment, step.meta);
      IncreasingLater(s.log, s.nextId);
      IncreasingLater(s.log + x.log, s.nextId);
      if !HashTaken(s.rows + x.rows, NewRow(h, e, x.pc.lastHash).rowHash) {
        InsertKeepsHolder(h, s, x, e);
      }
    }
  }

  lemma CommitKeepsInv(h: Hasher, s: State, step: Step)
    requires Inv(h, s) && step.Commit?
    ensures Inv(h, Next(h, s, step)) && s.rows <= Next(h, s, step).rows && s.log <= Next(h, s, step).log
  {
    hide BuildChain, Increasing, DistinctHashes, LastHash;
  }

  lemma OtherStepsKeepInv(h: Hasher, s: State, step: Step)
    requires Inv(h, s) && (step.Begin? || step.UpdateHead? || step.Rollback?)
    ensures Inv(h, Next(h, s, step)) && Next(h, s, step).rows == s.rows && Next(h, s, step).log == s.log
  {
    hide BuildChain, Increasing, DistinctHashes, LastHash;
  }

  lemma StepKeepsInv(h: Hasher, s: State, step: Step)
    requires Inv(h, s)
    ensures Inv(h, Next(h, s, step))
    ensures s.rows <= Next(h, s, step).rows && s.log <= Next(h, s, step).log
  {
    hide Inv;
    match step {
      case LockHead(_) => LockKeepsInv(h, s, step);
      case Insert(_, _, _, _, _) =>
        if step.t in s.txns {
          InsertKeepsInv(h, s, step);
        }
      case Commit(_) => CommitKeepsInv(h, s, step);
      case _ => OtherStepsKeepInv(h, s, step);
    }
  }

  lemma {:induction false} RunKeepsInv(h: Hasher, s: State, steps: seq<Step>)
    requires Inv(h, s)
    ensures Inv(h, Run(h, s, steps))
    ensures s.rows <= Run(h, s, steps).rows && s.log <= Run(h, s, steps).log
    decreases |steps|
  {
    if steps != [] {
      RunKeepsInv(h, s, steps[..|steps| - 1]);
      StepKeepsInv(h, Run(h, s, steps[..|steps| - 1]), steps[|steps| - 1]);
    }
  }

  // In every state any interleaving reaches, the committed rows verify, the head is the last
  // row's hash, audit ids ascend, and no hash is the predecessor of two rows.
  lemma NoForks(h: Hasher, steps: seq<Step>)
    ensures var s := Run(h, INITIAL, steps);
            && ChainOk(h, s.rows)
            && s.head == LastHash(s.rows)
            && (forall i, j :: 0 <= i < j < |s.rows| ==> s.rows[i].auditId < s.rows[j].auditId)
            && (forall i, j :: 0 <= i < j < |s.rows| ==> s.rows[i].hashed.previousHash != s.rows[j].hashed.previousHash)
  {
    var s := Run(h, INITIAL, steps);
    RunKeepsInv(h, INITIAL, steps);
    BuiltChainVerifies(h, s.log);
    BuiltIds(h, s.log);
    forall i, j | 0 <= i < j < |s.rows|
      ensures s.rows[i].hashed.previousHash != s.rows[j].hashed.previousHash
    {
      assert Linked(s.rows, i) && Linked(s.rows, j);
    }
  }

  // The interleaving is serial: what was committed is what appending the committed entries one
  // after another produces, and earlier commits are never disturbed.
  lemma {:induction false} Serializable(h: Hasher, steps: seq<Step>, more: seq<Step>)
    ensures var s := Run(h, INITIAL, steps);
            s.rows == BuildChain(h, s.log) && s.rows <= Run(h, s, more).rows && s.log <= Run(h, s, more).log
  {
    RunKeepsInv(h, INITIAL, steps);
    RunKeepsInv(h, Run(h, INITIAL, steps), more);
  }

  // Every committed row holds, column by column, what its entry says, and the hash of the row before it.
  lemma CommittedRowsRecord(h: Hasher, steps: seq<Step>, i: nat)
    requires i < |Run(h, INITIAL, steps).rows|
    ensures var s := Run(h, INITIAL, steps);
            && |s.rows| == |s.log|
            && Records(h, s.rows[i], s.log[i], if i == 0 then None else Some(s.rows[i - 1].rowHash))
  {
    hide BuildChain, Records;
    RunKeepsInv(h, INITIAL, steps);
    BuiltRowsRecord(h, Run(h, INITIAL, steps).log, i);
  }

  // ---------------------------------------------------------------- what a commit publishes

  ghost predicate RecordsSomewhere(h: Hasher, rows: seq<AuditRow>, e: Entry) {
    exists i, previous :: 0 <= i < |rows| && Records(h, rows[i], e, previous)
  }

  ghost predicate Ends(step: Step, t: nat) {
    step.t == t && (step.Commit? || step.Rollback?)
  }

  ghost function EntryOf(s: State, step: Step): Entry
    requires step.Insert?
  {
    Entry(s.nextId, step.format, step.ts, step.segment, step.meta)
  }

  lemma EntryId(s: State, step: Step)
    requires step.Insert?
    ensures EntryOf(s, step).auditId == s.nextId
  {
  }

  // The transaction holds the lock and has inserted this entry.
  ghost predicate Pending(s: State, t: nat, e: Entry) {
    t in s.txns && s.lock == Some(t) && e in s.txns[t].log
  }

  lemma StepKeepsPending(h: Hasher, s: State, step: Step, t: nat, e: Entry)
    requires Pending(s, t, e) && !Ends(step, t)
    ensures Pending(Next(h, s, step), t, e)
  {
    hide NewRow, HashTaken;
  }

  lemma {:induction false} RunKeepsPending(h: Hasher, s: State, steps: seq<Step>, t: nat, e: Entry)
    requires Pending(s, t, e) && forall i :: 0 <= i < |steps| ==> !Ends(steps[i], t)
    ensures Pending(Run(h, s, steps), t, e)
    decreases |steps|
  {
    hide Next;
    if steps != [] {
      RunKeepsPending(h, s, steps[..|steps| - 1], t, e);
      StepKeepsPending(h, Run(h, s, steps[..|steps| - 1]), steps[|steps| - 1], t, e);
    }
  }

  lemma {:induction false} RunConcat(h: Hasher, s: State, steps: seq<Step>, more: seq<Step>)
    ensures Run(h, Run(h, s, steps), more) == Run(h, s, steps + more)
    decreases |more|
  {
    hide Next;
    if more == [] {
      assert steps + more == steps;
    } else {
      RunConcat(h, s, steps, more[..|more| - 1]);
      assert (steps + more)[..|steps + more| - 1] == steps + more[..|more| - 1];
    }
  }

  // An insert that was let through, by a transaction still open after the steps that followed.
  ghost predicate InsertedAndOpen(h: Hasher, s: State, step: Step, mid: seq<Step>) {
    && step.Insert? && step.t in s.txns && s.txns[step.t].pc.Locked?
    && Next(h, s, step).txns[step.t].pc.Inserted?
    && forall i :: 0 <= i < |mid| ==> !Ends(mid[i], step.t)
  }

  lemma OpenInsertIsPending(h: Hasher, s: State, step: Step, mid: seq<Step>)
    requires Inv(h, s) && step.Insert? && InsertedAndOpen(h, s, step, mid)
    ensures Pending(Run(h, Next(h, s, step), mid), step.t, EntryOf(s, step))
  {
    hide NewRow, HashTaken, BuildChain, HolderOk, Run;
    RunKeepsPending(h, Next(h, s, step), mid, step.t, EntryOf(s, step));
  }

  lemma InsertThenRun(h: Hasher, steps: seq<Step>, step: Step, mid: seq<Step>)
    ensures Run(h, Next(h, Run(h, INITIAL, steps), step), mid) == Run(h, INITIAL, steps + [step] + mid)
  {
    assert (steps + [step])[..|steps|] == steps;
    RunConcat(h, INITIAL, steps + [step], mid);
  }

  // What a transaction inserted is committed by its commit, and stays: a row records it, and no
  // later step of anyone removes it.
  lemma {:induction false} CommittedInsertIsKept(h: Hasher, steps: seq<Step>, step: Step, mid: seq<Step>, more: seq<Step>)
    requires step.Insert? && InsertedAndOpen(h, Run(h, INITIAL, steps), step, mid)
    requires var s := Run(h, INITIAL, steps + [step] + mid); step.t in s.txns && s.txns[step.t].pc.Ready?
    ensures RecordsSomewhere(h, Run(h, INITIAL, steps + [step] + mid + [Commit(step.t)] + more).rows,
                             EntryOf(Run(h, INITIAL, steps), step))
  {
    hide *;
    var before, t, e := steps + [step] + mid, step.t, EntryOf(Run(h, INITIAL, steps), step);
    PendingAfter(h, steps, step, mid);
    CommitPublishes(h, before, t, e);
    LogOnlyGrows(h, before + [Commit(t)], more);
    LoggedIsRecorded(h, before + [Commit(t)] + more, e);
  }

  lemma LoggedIsRecorded(h: Hasher, steps: seq<Step>, e: Entry)
    requires e in Run(h, INITIAL, steps).log
    ensures RecordsSomewhere(h, Run(h, INITIAL, steps).rows, e)
  {
    hide Run, Records, BuildChain;
    var s := Run(h, INITIAL, steps);
    var j :| 0 <= j < |s.log| && s.log[j] == e;
    RunKeepsInv(h, INITIAL, steps);
    CommittedRowsRecord(h, steps, j);
  }

  lemma LogOnlyGrows(h: Hasher, steps: seq<Step>, more: seq<Step>)
    ensures Run(h, INITIAL, steps).log <= Run(h, INITIAL, steps + more).log
  {
    hide Run, BuildChain;
    RunKeepsInv(h, INITIAL, steps);
    RunKeepsInv(h, Run(h, INITIAL, steps), more);
    RunConcat(h, INITIAL, steps, more);
  }

  lemma PendingAfter(h: Hasher, steps: seq<Step>, step: Step, mid: seq<Step>)
    requires step.Insert? && InsertedAndOpen(h, Run(h, INITIAL, steps), step, mid)
    ensures Inv(h, Run(h, INITIAL, steps + [step] + mid))
    ensures Pending(Run(h, INITIAL, steps + [step] + mid), step.t, EntryOf(Run(h, INITIAL, steps), step))
  {
    hide *;
    ReachedInv(h, steps);
    OpenInsertIsPending(h, Run(h, INITIAL, steps), step, mid);
    InsertThenRun(h, steps, step, mid);
    ReachedInv(h, steps + [step] + mid);
  }

  lemma ReachedInv(h: Hasher, steps: seq<Step>)
    ensures Inv(h, Run(h, INITIAL, steps))
  {
    RunKeepsInv(h, INITIAL, steps);
  }

  lemma CommitPublishes(h: Hasher, steps: seq<Step>, t: nat, e: Entry)
    requires Pending(Run(h, INITIAL, steps), t, e) && Run(h, INITIAL, steps).txns[t].pc.Ready?
    ensures e in Run(h, INITIAL, steps + [Commit(t)]).log
  {
    hide NewRow, HashTaken;
    assert (steps + [Commit(t)])[..|steps|] == steps;
  }

  // What a transaction inserted and then rolled back is never recorded.
  lemma {:induction false} RolledBackInsertIsLost(h: Hasher, steps: seq<Step>, step: Step, mid: seq<Step>, more: seq<Step>)
    requires InsertedAndOpen(h, Run(h, INITIAL, steps), step, mid)
    ensures forall i :: 0 <= i < |Run(h, INITIAL, steps + [step] + mid + [Rollback(step.t)] + more).rows| ==>
      Run(h, INITIAL, steps + [step] + mid + [Rollback(step.t)] + more).rows[i].auditId != Run(h, INITIAL, steps).nextId
  {
    hide BuildChain, Records, EntryOf;
    var before, t, id := steps + [step] + mid, step.t, Run(h, INITIAL, steps).nextId;
    PendingAfter(h, steps, step, mid);
    RollbackForgets(h, Run(h, INITIAL, before), t, EntryOf(Run(h, INITIAL, steps), step));
    assert (before + [Rollback(t)])[..|before|] == before;
    EntryId(Run(h, INITIAL, steps), step);
    RunForgets(h, before + [Rollback(t)], more, id);
    var all := before + [Rollback(t)] + more;
    RunKeepsInv(h, INITIAL, all);
    BuiltIds(h, Run(h, INITIAL, all).log);
  }

  // An id handed out, and neither committed nor pending any more.
  ghost predicate Forgotten(s: State, id: int) {
    && id < s.nextId
    && (forall e :: e in s.log ==> e.auditId != id)
    && (s.lock.Some? ==> s.lock.value in s.txns && forall e :: e in s.txns[s.lock.value].log ==> e.auditId != id)
  }

  lemma RollbackForgets(h: Hasher, s: State, t: nat, e: Entry)
    requires Inv(h, s) && Pending(s, t, e)
    ensures Forgotten(Next(h, s, Rollback(t)), e.auditId)
  {
    hide BuildChain, DistinctHashes, LastHash;
    var x := s.txns[t];
    var k :| 0 <= k < |x.log| && x.log[k] == e;
    assert (s.log + x.log)[|s.log| + k] == e;
    forall f | f in s.log
      ensures f.auditId != e.auditId
    {
      var i :| 0 <= i < |s.log| && s.log[i] == f;
      assert (s.log + x.log)[i] == f;
    }
  }

  lemma StepForgets(h: Hasher, s: State, step: Step, id: int)
    requires Inv(h, s) && Forgotten(s, id)
    ensures Forgotten(Next(h, s, step), id)
  {
    hide BuildChain, DistinctHashes, LastHash, NewRow, HashTaken, Increasing, HolderOk;
  }

  lemma {:induction false} RunForgets(h: Hasher, steps: seq<Step>, more: seq<Step>, id: int)
    requires Forgotten(Run(h, INITIAL, steps), id)
    ensures Forgotten(Run(h, INITIAL, steps + more), id)
    decreases |more|
  {
    hide Next, Forgotten;
    if more == [] {
      assert steps + more == steps;
    } else {
      var front := steps + more[..|more| - 1];
      RunForgets(h, steps, more[..|more| - 1], id);
      RunKeepsInv(h, INITIAL, front);
      StepForgets(h, Run(h, INITIAL, front), more[|more| - 1], id);
      assert (steps + more)[..|steps + more| - 1] == front;
    }
  }

  // The entry is the one transaction t's insert at step k asked for.
  ghost predicate InsertedAt(h: Hasher, steps: seq<Step>, k: nat, t: nat, e: Entry) {
    && k < |steps| && steps[k].Insert? && steps[k].t == t
    && e == EntryOf(Run(h, INITIAL, steps[..k]), steps[k])
  }

  ghost predicate WasInserted(h: Hasher, steps: seq<Step>, t: nat, e: Entry) {
    exists k :: InsertedAt(h, steps, k, t, e)
  }

  // The entry was inserted, and its transaction committed after that.
  ghost predicate WasCommitted(h: Hasher, steps: seq<Step>, e: Entry) {
    exists k: nat, m: nat, t: nat :: InsertedAt(h, steps, k, t, e) && k < m < |steps| && steps[m] == Commit(t)
  }

  ghost predicate Accounted(h: Hasher, steps: seq<Step>, s: State) {
    && (forall t, e :: t in s.txns && e in s.txns[t].log ==> WasInserted(h, steps, t, e))
    && (forall e :: e in s.log ==> WasCommitted(h, steps, e))
  }

  lemma LaterStill(h: Hasher, steps: seq<Step>, step: Step)
    ensures forall t, e :: WasInserted(h, steps, t, e) ==> WasInserted(h, steps + [step], t, e)
    ensures forall e :: WasCommitted(h, steps, e) ==> WasCommitted(h, steps + [step], e)
  {
    hide Run, EntryOf;
    var all := steps + [step];
    forall k: nat, t, e | InsertedAt(h, steps, k, t, e)
      ensures InsertedAt(h, all, k, t, e)
    {
      assert all[..k] == steps[..k];
    }
    forall e | WasCommitted(h, steps, e)
      ensures WasCommitted(h, all, e)
    {
      var k: nat, m: nat, t: nat :| InsertedAt(h, steps, k, t, e) && k < m < |steps| && steps[m] == Commit(t);
      assert InsertedAt(h, all, k, t, e) && all[m] == Commit(t);
    }
  }

  // One step: only an insert adds to a transaction, and only a commit to the log.
  lemma StepAdds(h: Hasher, s: State, step: Step)
    ensures var n := Next(h, s, step);
            && (forall t, e :: t in n.txns && e in n.txns[t].log ==>
                  (t in s.txns && e in s.txns[t].log) || (step.Insert? && step.t == t && e == EntryOf(s, step)))
            && (forall e :: e in n.log ==>
                  e in s.log || (step.Commit? && step.t in s.txns && e in s.txns[step.t].log))
  {
    hide NewRow, HashTaken;
  }

  lemma StepAccounts(h: Hasher, steps: seq<Step>, step: Step)
    requires Accounted(h, steps, Run(h, INITIAL, steps))
    ensures Accounted(h, steps + [step], Next(h, Run(h, INITIAL, steps), step))
  {
    hide Run, Next, EntryOf, InsertedAt, WasInserted, WasCommitted;
    var s, all := Run(h, INITIAL, steps), steps + [step];
    var n := Next(h, s, step);
    StepAdds(h, s, step);
    LaterStill(h, steps, step);
    forall t, e | t in n.txns && e in n.txns[t].log
      ensures WasInserted(h, all, t, e)
    {
      if !(t in s.txns && e in s.txns[t].log) {
        NewlyInserted(h, steps, step);
      }
    }
    forall e | e in n.log
      ensures WasCommitted(h, all, e)
    {
      if e !in s.log {
        NewlyCommitted(h, steps, step.t, e);
      }
    }
  }

  lemma NewlyInserted(h: Hasher, steps: seq<Step>, step: Step)
    requires step.Insert?
    ensures WasInserted(h, steps + [step], step.t, EntryOf(Run(h, INITIAL, steps), step))
  {
    hide Run, EntryOf;
    assert (steps + [step])[..|steps|] == steps;
    assert InsertedAt(h, steps + [step], |steps|, step.t, EntryOf(Run(h, INITIAL, steps), step));
  }

  lemma NewlyCommitted(h: Hasher, steps: seq<Step>, t: nat, e: Entry)
    requires WasInserted(h, steps, t, e)
    ensures WasCommitted(h, steps + [Commit(t)], e)
  {
    hide Run, EntryOf;
    var k: nat :| InsertedAt(h, steps, k, t, e);
    var all := steps + [Commit(t)];
    assert all[..k] == steps[..k];
    assert InsertedAt(h, all, k, t, e) && all[|steps|] == Commit(t);
  }

  // Nothing is committed that was not inserted by a transaction that then committed.
  lemma {:induction false} CommittedWasInserted(h: Hasher, steps: seq<Step>)
    ensures Accounted(h, steps, Run(h, INITIAL, steps))
    ensures forall e :: e in Run(h, INITIAL, steps).log ==> WasCommitted(h, steps, e)
    decreases |steps|
  {
    hide WasInserted, WasCommitted, Next;
    if steps != [] {
      var front, last := steps[..|steps| - 1], steps[|steps| - 1];
      CommittedWasInserted(h, front);
      StepAccounts(h, front, last);
      assert front + [last] == steps;
    }
  }

  // A transaction on its own: wherever no lock is held it appends the one row its entry asks for,
  // unless that row's hash is taken.
  lemma LoneTransactionAppends(h: Hasher, steps: seq<Step>, step: Step, row: AuditRow)
    requires step.Insert? && Run(h, INITIAL, steps).lock.None? && step.t !in Run(h, INITIAL, steps).txns
    requires var s := Run(h, INITIAL, steps);
             Records(h, row, EntryOf(s, step), if s.rows == [] then None else Some(s.rows[|s.rows| - 1].rowHash))
    ensures var s := Run(h, INITIAL, steps);
            var inserted := Next(h, Next(h, Next(h, s, Begin(step.t)), LockHead(step.t)), step);
            var n := Next(h, Next(h, inserted, UpdateHead(step.t)), Commit(step.t));
            n.rows == if exists i :: 0 <= i < |s.rows| && s.rows[i].rowHash == row.rowHash then s.rows else s.rows + [row]
  {
    hide Records, NewRow, Run, HolderOk, BuildChain, Increasing, DistinctHashes;
    var s := Run(h, INITIAL, steps);
    RunKeepsInv(h, INITIAL, steps);
    RecordsIff(h, row, EntryOf(s, step), s.head);
    assert s.rows + [] == s.rows;
  }
}
