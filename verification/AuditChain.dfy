/**
  The audit hash chain as a reader sees it: which hash builder a row goes to, the verifier that
  walks the rows, and what a matching head hash says about the whole chain.
 */
module AuditChain {
  import opened Wrappers
  import opened AuditEncoding

  const OPEN_BRACE: byte := 123

  // SHA-256 in hex, and the marshaller that turns a row into its v2 JSON material.
  datatype Hasher = Hasher(sha: Text -> Text, json: HashedRow -> Text)

  datatype AuditRow = AuditRow(auditId: int, hashed: HashedRow, rowHash: Text)

  // ---------------------------------------------------------------- row hashes

  // The bytes hashed for a row, or None where no builder takes its format.
  function Preimage(h: Hasher, r: HashedRow): Option<Text> {
    if r.hashFormat == Some(2) then Some(h.json(r))
    else if r.hashFormat == Some(3) then Some(EncodeRow(r))
    else None
  }

  function RowHash(h: Hasher, r: HashedRow): Option<Text> {
    match Preimage(h, r)
    case None => None
    case Some(t) => Some(h.sha(t))
  }

  method RowHashForFormat(h: Hasher, r: HashedRow) returns (hash: Option<Text>)
    ensures hash == RowHash(h, r)
    ensures r.hashFormat == Some(2) ==> hash == Some(h.sha(h.json(r)))
    ensures r.hashFormat == Some(3) ==> exists t :: DecodeRow(t) == Some(r) && hash == Some(h.sha(t))
    ensures hash.None? <==> r.hashFormat !in {Some(2), Some(3)}
  {
    hide DecodeRow, EncodeRow;
    if r.hashFormat == Some(2) {
      return Some(h.sha(h.json(r)));
    } else if r.hashFormat == Some(3) {
      var t := V3RowBytes(r);
      return Some(h.sha(t));
    } else {
      return None;
    }
  }

  // ---------------------------------------------------------------- the chain

  ghost function PreviousHash(rows: seq<AuditRow>, i: nat): Field
    requires i <= |rows|
  {
    if i == 0 then None else Some(rows[i - 1].rowHash)
  }

  ghost predicate Linked(rows: seq<AuditRow>, i: nat)
    requires i < |rows|
  {
    rows[i].hashed.previousHash == PreviousHash(rows, i)
  }

  // Format 2 seals the JSON material, format 3 the bytes that decode to the row, and no other
  // format seals anything.
  ghost predicate SealedBy(h: Hasher, r: HashedRow, hash: Text) {
    || (r.hashFormat == Some(2) && hash == h.sha(h.json(r)))
    || (r.hashFormat == Some(3) && exists t :: DecodeRow(t) == Some(r) && hash == h.sha(t))
  }

  ghost predicate Sealed(h: Hasher, rows: seq<AuditRow>, i: nat)
    requires i < |rows|
  {
    SealedBy(h, rows[i].hashed, rows[i].rowHash)
  }

  lemma SealedIff(h: Hasher, r: HashedRow, hash: Text)
    ensures SealedBy(h, r, hash) <==> RowHash(h, r) == Some(hash)
  {
    hide EncodeRow, DecodeRow;
    forall t {
      RowDecodesIffEncoded(r, t);
    }
    assert DecodeRow(EncodeRow(r)) == Some(r);
  }

  ghost predicate ChainOk(h: Hasher, rows: seq<AuditRow>) {
    forall i: nat :: i < |rows| ==> Linked(rows, i) && Sealed(h, rows, i)
  }

  datatype Problem =
    | ChainBroken(id: int, expected: Field, actual: Field)
    | HashInvalid(id: int)

  // The problem reported is about the first bad row, and the link is judged before the hash.
  ghost predicate FirstProblem(h: Hasher, rows: seq<AuditRow>, i: nat, p: Problem) {
    && i < |rows|
    && ChainOk(h, rows[..i])
    && (if !Linked(rows, i) then
          p == ChainBroken(rows[i].auditId, PreviousHash(rows, i), rows[i].hashed.previousHash)
        else !Sealed(h, rows, i) && p == HashInvalid(rows[i].auditId))
  }

  lemma GoodBelow(h: Hasher, rows: seq<AuditRow>, n: nat, i: nat)
    requires i < n <= |rows| && ChainOk(h, rows[..n])
    ensures Linked(rows, i) && Sealed(h, rows, i)
  {
    assert Linked(rows[..n], i) && Sealed(h, rows[..n], i);
  }

  lemma FirstProblemIsUnique(h: Hasher, rows: seq<AuditRow>, i: nat, p: Problem, j: nat, q: Problem)
    requires FirstProblem(h, rows, i, p) && FirstProblem(h, rows, j, q)
    ensures i == j && p == q
  {
    if i < j {
      GoodBelow(h, rows, j, i);
    } else if j < i {
      GoodBelow(h, rows, i, j);
    }
  }

  lemma ChainOkMeans(h: Hasher, rows: seq<AuditRow>)
    ensures ChainOk(h, rows) <==> forall i :: 0 <= i < |rows| ==>
      && rows[i].hashed.previousHash == (if i == 0 then None else Some(rows[i - 1].rowHash))
      && SealedBy(h, rows[i].hashed, rows[i].rowHash)
  {
    hide SealedBy;
    if ChainOk(h, rows) {
      forall i: nat | i < |rows|
        ensures rows[i].hashed.previousHash == (if i == 0 then None else Some(rows[i - 1].rowHash))
        ensures SealedBy(h, rows[i].hashed, rows[i].rowHash)
      {
        assert Linked(rows, i) && Sealed(h, rows, i);
      }
    }
  }

  method VerifyRows(h: Hasher, rows: seq<AuditRow>) returns (problems: seq<Problem>)
    ensures problems == [] <==> forall i :: 0 <= i < |rows| ==>
      && rows[i].hashed.previousHash == (if i == 0 then None else Some(rows[i - 1].rowHash))
      && SealedBy(h, rows[i].hashed, rows[i].rowHash)
    ensures problems == [] <==> ChainOk(h, rows)
    ensures problems != [] ==> |problems| == 1 && exists i :: FirstProblem(h, rows, i, problems[0])
  {
    hide SealedBy, RowHash, Preimage, DecodeRow, EncodeRow;
    ChainOkMeans(h, rows);
    problems := [];
    var previous: Field := None;
    for i := 0 to |rows|
      invariant problems == [] && previous == PreviousHash(rows, i)
      invariant ChainOk(h, rows[..i])
    {
      var row := rows[i];
      if row.hashed.previousHash != previous {
        problems := problems + [ChainBroken(row.auditId, previous, row.hashed.previousHash)];
        assert FirstProblem(h, rows, i, problems[0]);
        return;
      }
      var computed := RowHashForFormat(h, row.hashed);
      SealedIff(h, row.hashed, row.rowHash);
      if computed.None? || computed.value != row.rowHash {
        problems := problems + [HashInvalid(row.auditId)];
        assert Linked(rows, i) && !Sealed(h, rows, i);
        assert FirstProblem(h, rows, i, problems[0]);
        return;
      }
      ChainSnoc(h, rows[..i], row);
      assert rows[..i] + [row] == rows[..i + 1];
      previous := Some(row.rowHash);
    }
    assert rows[..|rows|] == rows;
  }

  // ---------------------------------------------------------------- growing and cutting a chain

  lemma ChainSnoc(h: Hasher, rows: seq<AuditRow>, row: AuditRow)
    ensures ChainOk(h, rows + [row]) <==>
              ChainOk(h, rows) && row.hashed.previousHash == PreviousHash(rows, |rows|) && RowHash(h, row.hashed) == Some(row.rowHash)
  {
    hide SealedBy, RowHash;
    SealedIff(h, row.hashed, row.rowHash);
    var all := rows + [row];
    assert all[..|rows|] == rows;
    if ChainOk(h, all) {
      assert Linked(all, |rows|) && Sealed(h, all, |rows|);
      PrefixVerifies(h, all, |rows|);
    } else if ChainOk(h, rows) && row.hashed.previousHash == PreviousHash(rows, |rows|) && RowHash(h, row.hashed) == Some(row.rowHash) {
      forall i: nat | i < |all|
        ensures Linked(all, i) && Sealed(h, all, i)
      {
        if i < |rows| {
          GoodBelow(h, all, |rows|, i);
        }
      }
    }
  }

  // Cutting rows off the end leaves a chain that verifies: only the separately kept head hash
  // can tell that rows are missing there.
  lemma PrefixVerifies(h: Hasher, rows: seq<AuditRow>, n: nat)
    requires ChainOk(h, rows) && n <= |rows|
    ensures ChainOk(h, rows[..n])
  {
    forall i: nat | i < n
      ensures Linked(rows[..n], i) && Sealed(h, rows[..n], i)
    {
      assert Linked(rows, i) && Sealed(h, rows, i);
    }
  }

  // ---------------------------------------------------------------- what a head hash commits to

  // No two of these rows are hashed from different bytes to the same digest.
  ghost predicate NoCollision(h: Hasher, xs: seq<AuditRow>, ys: seq<AuditRow>) {
    forall i, j ::
      0 <= i < |xs| && 0 <= j < |ys| && RowHash(h, xs[i].hashed).Some? && RowHash(h, xs[i].hashed) == RowHash(h, ys[j].hashed) ==>
      Preimage(h, xs[i].hashed) == Preimage(h, ys[j].hashed)
  }

  // JSON material is an object, and two of these rows with the same material are the same row.
  ghost predicate FaithfulJson(h: Hasher, xs: seq<AuditRow>, ys: seq<AuditRow>) {
    && (forall i :: 0 <= i < |xs| ==> |h.json(xs[i].hashed)| > 0 && h.json(xs[i].hashed)[0] == OPEN_BRACE)
    && (forall j :: 0 <= j < |ys| ==> |h.json(ys[j].hashed)| > 0 && h.json(ys[j].hashed)[0] == OPEN_BRACE)
    && (forall i, j :: 0 <= i < |xs| && 0 <= j < |ys| && h.json(xs[i].hashed) == h.json(ys[j].hashed) ==> xs[i].hashed == ys[j].hashed)
  }

  // The two formats never share a preimage, so equal digests mean equal rows across formats too.
  lemma SamePreimageSameRow(h: Hasher, xs: seq<AuditRow>, ys: seq<AuditRow>, i: nat, j: nat)
    requires NoCollision(h, xs, ys) && FaithfulJson(h, xs, ys)
    requires i < |xs| && j < |ys|
    requires RowHash(h, xs[i].hashed).Some? && RowHash(h, xs[i].hashed) == RowHash(h, ys[j].hashed)
    ensures xs[i].hashed == ys[j].hashed
  {
    hide EncodeRow, DecodeRow;
    var a, b := xs[i].hashed, ys[j].hashed;
    assert Preimage(h, a) == Preimage(h, b);
    EncodingFirstByte(a);
    EncodingFirstByte(b);
    assert |h.json(a)| > 0 && h.json(a)[0] == OPEN_BRACE && |h.json(b)| > 0 && h.json(b)[0] == OPEN_BRACE;
    if a.hashFormat == Some(3) && b.hashFormat == Some(3) {
      EncodingIsInjective(a, b);
    }
  }

  // Everything in a chain except the audit ids, which no hash covers.
  ghost predicate SameContent(xs: seq<AuditRow>, ys: seq<AuditRow>) {
    |xs| == |ys| && forall i :: 0 <= i < |xs| ==> xs[i].hashed == ys[i].hashed && xs[i].rowHash == ys[i].rowHash
  }

  lemma {:induction false} SameHeadSameChain(h: Hasher, xs: seq<AuditRow>, ys: seq<AuditRow>)
    requires ChainOk(h, xs) && ChainOk(h, ys) && |xs| > 0 && |ys| > 0
    requires xs[|xs| - 1].rowHash == ys[|ys| - 1].rowHash
    requires NoCollision(h, xs, ys) && FaithfulJson(h, xs, ys)
    ensures SameContent(xs, ys)
    decreases |xs|
  {
    hide Preimage, RowHash, SealedBy;
    var m, n := |xs| - 1, |ys| - 1;
    assert Linked(xs, m) && Sealed(h, xs, m) && Linked(ys, n) && Sealed(h, ys, n);
    SealedIff(h, xs[m].hashed, xs[m].rowHash);
    SealedIff(h, ys[n].hashed, ys[n].rowHash);
    SamePreimageSameRow(h, xs, ys, m, n);
    if m > 0 && n > 0 {
      PrefixVerifies(h, xs, m);
      PrefixVerifies(h, ys, n);
      SameHeadSameChain(h, xs[..m], ys[..n]);
      assert forall i :: 0 <= i < m ==> xs[i] == xs[..m][i] && ys[i] == ys[..n][i];
    }
  }

  // Tamper evidence, exactly: against a good chain with the same last hash, a row list passes the
  // verifier iff nothing but audit ids differs. Any edit, insertion, deletion, reordering or
  // truncation below that hash is therefore reported.
  lemma VerifiesIffUntampered(h: Hasher, good: seq<AuditRow>, rows: seq<AuditRow>)
    requires ChainOk(h, good) && |good| > 0 && |rows| > 0
    requires rows[|rows| - 1].rowHash == good[|good| - 1].rowHash
    requires NoCollision(h, good, rows) && FaithfulJson(h, good, rows)
    ensures ChainOk(h, rows) <==> SameContent(good, rows)
  {
    if ChainOk(h, rows) {
      SameHeadSameChain(h, good, rows);
    }
    if SameContent(good, rows) {
      forall i: nat | i < |rows|
        ensures Linked(rows, i) && Sealed(h, rows, i)
      {
        assert Linked(good, i) && Sealed(h, good, i);
      }
    }
  }

  // In a verified chain no two rows have the same hash, so no hash is the predecessor of two rows.
  lemma RowHashesAreDistinct(h: Hasher, rows: seq<AuditRow>, i: nat, j: nat)
    requires ChainOk(h, rows) && NoCollision(h, rows, rows) && FaithfulJson(h, rows, rows)
    requires i < j < |rows|
    ensures rows[i].rowHash != rows[j].rowHash
    ensures rows[i].hashed.previousHash != rows[j].hashed.previousHash
  {
    hide NoCollision, FaithfulJson, Sealed;
    DistinctAt(h, rows, i, j);
    assert Linked(rows, i) && Linked(rows, j);
    if i > 0 {
      DistinctAt(h, rows, i - 1, j - 1);
    }
  }

  lemma DistinctAt(h: Hasher, rows: seq<AuditRow>, i: nat, j: nat)
    requires ChainOk(h, rows) && NoCollision(h, rows, rows) && FaithfulJson(h, rows, rows)
    requires i < j < |rows|
    ensures rows[i].rowHash != rows[j].rowHash
  {
    hide SealedBy, Preimage, RowHash;
    if rows[i].rowHash == rows[j].rowHash {
      var xs, ys := rows[..i + 1], rows[..j + 1];
      PrefixVerifies(h, rows, i + 1);
      PrefixVerifies(h, rows, j + 1);
      SameHeadSameChain(h, xs, ys);
    }
  }
}
