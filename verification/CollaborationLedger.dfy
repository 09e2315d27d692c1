/**
  Collaboration ledgers (RFC 0094, RFC 0098): what a published ledger is checked for, which binding
  constraints it yields, and the gate that makes a final review discharge them. Front matter is
  taken as typed values; a verdict is yes or no.
 */
module CollaborationLedger {
  import opened Strings
  import opened Wrappers

  datatype Entry = Entry(kind: string, author: string, refs: seq<string>, correspondence: Option<string>, coverage: Option<string>)

  datatype Finding = Finding(
    id: string, severity: string, posture: string, status: string, challenge: string, sourceRefs: Option<seq<string>>)

  datatype Verification = Verification(gate: Option<string>, expectedStage: Option<string>)

  datatype Constraint = Constraint(
    id: string, posture: string, severity: string, kind: string, binding: bool, text: string,
    sourceFinding: Option<string>, sourceRefs: Option<seq<string>>, verification: Option<Verification>,
    finalReviewRequired: Option<bool>)

  datatype Ledger = Ledger(
    participants: seq<string>, entries: seq<Entry>, verdict: string, adjudicationMode: string, adjudicators: seq<string>,
    shape: string, schemaVersion: string, findings: seq<Finding>, constraints: seq<Constraint>, branches: seq<(string, string)>)

  datatype Discharge = Discharge(constraintId: string, status: string, owner: Option<string>, stage: Option<string>)

  datatype BindingConstraint = BindingConstraint(id: string, finalReviewRequired: bool)

  const SEVERITIES: set<string> := {"low", "medium", "high", "critical"}
  const FINDING_STATUSES: set<string> := {"open", "answered", "accepted", "rejected", "converted_to_constraint", "deferred_with_owner"}
  const CONSTRAINT_KINDS: set<string> := {"invariant", "gate", "schema", "policy", "non_goal", "accepted_risk", "unresolved_question"}
  const DISPOSITIONS: set<string> := {"cleared", "cleared_with_constraints", "blocked", "blocked_pending_answer", "defer_with_successor"}
  const DISCHARGE_STATUSES: set<string> := {"discharged", "missing", "partial", "accepted_risk"}
  const ACE_SHAPE: string := "adjudicated_constraint_extraction"
  const ACE_SCHEMA: string := "striatum.collaboration_ledger.v1.1"

  predicate NonBlank(s: string) {
    TrimSpace(s) != ""
  }

  predicate DialogueRef(s: string) {
    HasPrefix(s, "dialogue:") && |s| > 9 && forall i :: 9 <= i < |s| ==> '0' <= s[i] <= '9'
  }

  // After the word and a colon, a reference to a dialogue turn is a decimal number.
  lemma DialogueRefIff(n: string)
    ensures DialogueRef("dialogue:" + n) <==> n != "" && forall i :: 0 <= i < |n| ==> '0' <= n[i] <= '9'
  {
    var s := "dialogue:" + n;
    assert s[..9] == "dialogue:";
    assert forall i :: 0 <= i < |n| ==> s[i + 9] == n[i];
    assert forall i :: 9 <= i < |s| ==> s[i] == n[i - 9];
  }

  predicate RefsOk(refs: seq<string>) {
    forall i :: 0 <= i < |refs| ==> DialogueRef(refs[i])
  }

  predicate Clearing(l: Ledger) {
    l.verdict == "accept" || l.verdict == "accept_with_findings"
  }

  // ---------------------------------------------------------------- what a valid ledger is

  predicate EntryOk(e: Entry, participants: seq<string>) {
    && e.author in participants
    && e.refs != [] && RefsOk(e.refs)
    && (e.correspondence.Some? ==>
          e.correspondence.value in {"landed_and_rebutted", "landed_unrebutted", "not_material"} && e.kind == "challenge")
    && (e.coverage.Some? ==> e.coverage.value in {"reconstructed", "hallucinated", "missed"})
  }

  ghost predicate HasKind(l: Ledger, kind: string) {
    exists i :: 0 <= i < |l.entries| && l.entries[i].kind == kind
  }

  ghost predicate Judged(l: Ledger, judgment: string) {
    exists i :: 0 <= i < |l.entries| && l.entries[i].correspondence == Some(judgment)
  }

  // A clearing verdict has a claim, a challenge and a rebuttal; once any challenge is judged, at
  // least one landed and was rebutted and none stands unrebutted.
  ghost predicate ClearingOk(l: Ledger) {
    && HasKind(l, "claim") && HasKind(l, "challenge") && HasKind(l, "rebuttal")
    && ((exists i :: 0 <= i < |l.entries| && l.entries[i].correspondence.Some?) ==>
          Judged(l, "landed_and_rebutted") && !Judged(l, "landed_unrebutted"))
    && (l.adjudicationMode == "second_on_disagreement" ==> TwoAdjudicators(l))
  }

  ghost predicate TwoAdjudicators(l: Ledger) {
    exists i, j :: 0 <= i < j < |l.adjudicators| && l.adjudicators[i] != l.adjudicators[j]
        && NonBlank(l.adjudicators[i]) && NonBlank(l.adjudicators[j])
  }

  predicate FindingOk(f: Finding) {
    && NonBlank(f.id) && f.severity in SEVERITIES && NonBlank(f.posture) && f.status in FINDING_STATUSES && NonBlank(f.challenge)
    && (f.sourceRefs.Some? ==> RefsOk(f.sourceRefs.value))
  }

  ghost predicate DistinctIds(findings: seq<Finding>) {
    forall i, j :: 0 <= i < j < |findings| ==> findings[i].id != findings[j].id
  }

  predicate VerificationOk(v: Verification) {
    (v.gate.Some? ==> NonBlank(v.gate.value)) && (v.expectedStage.Some? ==> NonBlank(v.expectedStage.value))
  }

  predicate HasSignal(v: Verification) {
    (v.gate.Some? && NonBlank(v.gate.value)) || (v.expectedStage.Some? && NonBlank(v.expectedStage.value))
  }

  predicate ConstraintFieldsOk(c: Constraint) {
    && NonBlank(c.id) && NonBlank(c.posture) && c.severity in SEVERITIES && c.kind in CONSTRAINT_KINDS && NonBlank(c.text)
    && (c.sourceFinding.Some? ==> NonBlank(c.sourceFinding.value))
    && (c.sourceRefs.Some? ==> RefsOk(c.sourceRefs.value))
    && (c.verification.Some? ==> VerificationOk(c.verification.value))
  }

  predicate Severe(f: Finding) {
    f.severity == "high" || f.severity == "critical"
  }

  // A binding constraint names a severe finding of the ledger and says how it will be verified.
  ghost predicate Traced(c: Constraint, findings: seq<Finding>) {
    && c.sourceFinding.Some?
    && (exists i :: 0 <= i < |findings| && findings[i].id == c.sourceFinding.value && Severe(findings[i]))
    && c.verification.Some? && HasSignal(c.verification.value)
  }

  predicate Productive(c: Constraint) {
    c.binding || c.kind == "unresolved_question"
  }

  ghost predicate EntriesOk(l: Ledger) {
    forall i :: 0 <= i < |l.entries| ==> EntryOk(l.entries[i], l.participants)
  }

  ghost predicate FindingsOk(findings: seq<Finding>) {
    (forall i :: 0 <= i < |findings| ==> FindingOk(findings[i])) && DistinctIds(findings)
  }

  ghost predicate ConstraintsOk(constraints: seq<Constraint>, findings: seq<Finding>) {
    forall i :: 0 <= i < |constraints| ==> ConstraintFieldsOk(constraints[i]) && (constraints[i].binding ==>
      Traced(constraints[i], findings))
  }

  ghost predicate BranchesOk(l: Ledger) {
    forall i :: 0 <= i < |l.branches| ==> NonBlank(l.branches[i].0) && l.branches[i].1 in DISPOSITIONS
  }

  ghost predicate ShapeOk(l: Ledger) {
    l.shape == ACE_SHAPE ==>
      && l.schemaVersion == ACE_SCHEMA
      && (l.verdict == "needs_revision" ==> exists i :: 0 <= i < |l.constraints| && Productive(l.constraints[i]))
  }

  ghost predicate ValidLedger(l: Ledger) {
    EntriesOk(l) && (Clearing(l) ==>
      ClearingOk(l)) && ShapeOk(l) && FindingsOk(l.findings) && ConstraintsOk(l.constraints, l.findings) && BranchesOk(l)
  }

  // ---------------------------------------------------------------- the validator

  method ValidateRefs(refs: seq<string>) returns (ok: bool)
    ensures ok <==> RefsOk(refs)
  {
    for i := 0 to |refs|
      invariant forall k :: 0 <= k < i ==> DialogueRef(refs[k])
    {
      if !DialogueRef(refs[i]) {
        return false;
      }
    }
    return true;
  }

  // The kinds seen and the number of entries carrying each judgment.
  datatype Tally = Tally(seen: set<string>, rebutted: nat, unrebutted: nat, engaged: bool)

  ghost predicate Tallied(l: Ledger, n: nat, t: Tally)
    requires n <= |l.entries|
  {
    && (forall k :: k in t.seen <==> exists i :: 0 <= i < n && l.entries[i].kind == k)
    && (t.rebutted > 0 <==> exists i :: 0 <= i < n && l.entries[i].correspondence == Some("landed_and_rebutted"))
    && (t.unrebutted > 0 <==> exists i :: 0 <= i < n && l.entries[i].correspondence == Some("landed_unrebutted"))
    && (t.engaged <==> exists i :: 0 <= i < n && l.entries[i].correspondence.Some?)
  }

  method ValidateEntries(l: Ledger) returns (ok: bool, t: Tally)
    ensures ok <==> EntriesOk(l)
    ensures ok ==> Tallied(l, |l.entries|, t)
  {
    hide RefsOk;
    t := Tally({}, 0, 0, false);
    for i := 0 to |l.entries|
      invariant forall k :: 0 <= k < i ==> EntryOk(l.entries[k], l.participants)
      invariant Tallied(l, i, t)
    {
      var e := l.entries[i];
      ghost var before := t;
      if e.author !in l.participants || |e.refs| == 0 {
        return false, t;
      }
      var refsOk := ValidateRefs(e.refs);
      if !refsOk {
        return false, t;
      }
      if e.correspondence.Some? {
        var value := e.correspondence.value;
        if value !in {"landed_and_rebutted", "landed_unrebutted", "not_material"} || e.kind != "challenge" {
          return false, t;
        }
        t := Tally(t.seen, t.rebutted + (if value == "landed_and_rebutted" then 1 else 0),
                   t.unrebutted + (if value == "landed_unrebutted" then 1 else 0), true);
      }
      if e.coverage.Some? && e.coverage.value !in {"reconstructed", "hallucinated", "missed"} {
        return false, t;
      }
      t := t.(seen := t.seen + {e.kind});
      TallyStep(l, i, before, t);
    }
    return true, t;
  }

  lemma TallyStep(l: Ledger, n: nat, before: Tally, after: Tally)
    requires n < |l.entries| && Tallied(l, n, before)
    requires var e := l.entries[n];
             && after.seen == before.seen + {e.kind}
             && after.rebutted == before.rebutted + (if e.correspondence == Some("landed_and_rebutted") then 1 else 0)
             && after.unrebutted == before.unrebutted + (if e.correspondence == Some("landed_unrebutted") then 1 else 0)
             && after.engaged == (before.engaged || e.correspondence.Some?)
    ensures Tallied(l, n + 1, after)
  {
    var e := l.entries[n];
    forall k
      ensures k in after.seen <==> exists i :: 0 <= i < n + 1 && l.entries[i].kind == k
    {
      if k in before.seen {
        var i :| 0 <= i < n && l.entries[i].kind == k;
      }
    }
    if before.rebutted > 0 {
      var i :| 0 <= i < n && l.entries[i].correspondence == Some("landed_and_rebutted");
    }
    if before.unrebutted > 0 {
      var i :| 0 <= i < n && l.entries[i].correspondence == Some("landed_unrebutted");
    }
    if before.engaged {
      var i :| 0 <= i < n && l.entries[i].correspondence.Some?;
    }
  }

  method ValidateSecondAdjudicatorGate(l: Ledger) returns (ok: bool)
    ensures ok <==> (l.adjudicationMode == "second_on_disagreement" ==> TwoAdjudicators(l))
  {
    if l.adjudicationMode != "second_on_disagreement" {
      return true;
    }
    var distinct: set<string> := {};
    for i := 0 to |l.adjudicators|
      invariant forall a :: a in distinct <==> exists k :: 0 <= k < i && l.adjudicators[k] == a && NonBlank(a)
    {
      if NonBlank(l.adjudicators[i]) {
        distinct := distinct + {l.adjudicators[i]};
      }
    }
    ok := |distinct| >= 2;
    DistinctCount(l, distinct);
  }

  lemma DistinctCount(l: Ledger, distinct: set<string>)
    requires forall a :: a in distinct <==> exists k :: 0 <= k < |l.adjudicators| && l.adjudicators[k] == a && NonBlank(a)
    ensures |distinct| >= 2 <==> TwoAdjudicators(l)
  {
    hide NonBlank;
    TwoDistinct(distinct);
    if |distinct| >= 2 {
      var a, b :| a in distinct && b in distinct && a != b;
      var i :| 0 <= i < |l.adjudicators| && l.adjudicators[i] == a;
      var j :| 0 <= j < |l.adjudicators| && l.adjudicators[j] == b;
      assert i < j || j < i;
    }
    forall i, j | 0 <= i < j < |l.adjudicators| && l.adjudicators[i] != l.adjudicators[j]
        && NonBlank(l.adjudicators[i]) && NonBlank(l.adjudicators[j])
      ensures |distinct| >= 2
    {
      assert l.adjudicators[i] in distinct && l.adjudicators[j] in distinct;
    }
  }

  lemma TwoDistinct(s: set<string>)
    ensures |s| >= 2 <==> exists a, b :: a in s && b in s && a != b
  {
    if a, b :| a in s && b in s && a != b {
      assert {a, b} <= s;
      assert |s| == |s - {a, b}| + 2;
    } else if a :| a in s {
      assert s == {a};
    } else {
      assert s == {};
    }
  }

  method ValidateFinding(f: Finding) returns (ok: bool)
    ensures ok <==> FindingOk(f)
  {
    if !NonBlank(f.id) || f.severity !in SEVERITIES || !NonBlank(f.posture) || f.status !in FINDING_STATUSES || !NonBlank(f.challenge) {
      return false;
    }
    if f.sourceRefs.Some? {
      ok := ValidateRefs(f.sourceRefs.value);
      return;
    }
    return true;
  }

  method ValidateFindings(findings: seq<Finding>) returns (ok: bool, byId: map<string, Finding>)
    ensures ok <==> FindingsOk(findings)
    ensures ok ==> forall id :: id in byId <==> exists i :: 0 <= i < |findings| && findings[i].id == id
    ensures ok ==> forall i :: 0 <= i < |findings| ==> byId[findings[i].id] == findings[i]
  {
    hide FindingOk;
    byId := map[];
    for i := 0 to |findings|
      invariant forall k :: 0 <= k < i ==> FindingOk(findings[k])
      invariant DistinctIds(findings[..i])
      invariant forall id :: id in byId <==> exists k :: 0 <= k < i && findings[k].id == id
      invariant forall k :: 0 <= k < i ==> byId[findings[k].id] == findings[k]
    {
      var f := findings[i];
      var findingOk := ValidateFinding(f);
      if !findingOk || f.id in byId {
        return false, byId;
      }
      byId := byId[f.id := f];
    }
    assert findings[..|findings|] == findings;
    return true, byId;
  }

  method ValidateConstraints(constraints: seq<Constraint>, findings: seq<Finding>, byId: map<string, Finding>) returns (ok: bool)
    requires forall id :: id in byId <==> exists i :: 0 <= i < |findings| && findings[i].id == id
    requires forall i :: 0 <= i < |findings| ==> byId[findings[i].id] == findings[i]
    ensures ok <==> ConstraintsOk(constraints, findings)
  {
    for i := 0 to |constraints|
      invariant ConstraintsOk(constraints[..i], findings)
    {
      var c := constraints[i];
      assert constraints[..i + 1] == constraints[..i] + [c];
      if !NonBlank(c.id) || !NonBlank(c.posture) || c.severity !in SEVERITIES || c.kind !in CONSTRAINT_KINDS || !NonBlank(c.text) {
        return false;
      }
      if c.sourceFinding.Some? && !NonBlank(c.sourceFinding.value) {
        return false;
      }
      if c.sourceRefs.Some? {
        var refsOk := ValidateRefs(c.sourceRefs.value);
        if !refsOk {
          return false;
        }
      }
      if c.verification.Some? && !VerificationOk(c.verification.value) {
        return false;
      }
      if c.binding {
        if c.sourceFinding.None? || c.sourceFinding.value !in byId || !Severe(byId[c.sourceFinding.value]) {
          return false;
        }
        if c.verification.None? || !HasSignal(c.verification.value) {
          return false;
        }
      }
    }
    assert constraints[..|constraints|] == constraints;
    return true;
  }

  method ValidateBranches(l: Ledger) returns (ok: bool)
    ensures ok <==> BranchesOk(l)
  {
    for i := 0 to |l.branches|
      invariant forall k :: 0 <= k < i ==> NonBlank(l.branches[k].0) && l.branches[k].1 in DISPOSITIONS
    {
      if !NonBlank(l.branches[i].0) || l.branches[i].1 !in DISPOSITIONS {
        return false;
      }
    }
    return true;
  }

  method ProductiveConstraintRows(constraints: seq<Constraint>) returns (count: nat)
    ensures count > 0 <==> exists i :: 0 <= i < |constraints| && Productive(constraints[i])
  {
    count := 0;
    for i := 0 to |constraints|
      invariant count > 0 <==> exists k :: 0 <= k < i && Productive(constraints[k])
    {
      if constraints[i].binding || constraints[i].kind == "unresolved_question" {
        assert Productive(constraints[i]);
        count := count + 1;
      }
    }
  }

  method ValidateCollaborationLedger(l: Ledger) returns (ok: bool)
    ensures ok <==> ValidLedger(l)
  {
    var entriesOk, t := ValidateEntries(l);
    if !entriesOk {
      return false;
    }
    assert forall k :: k in t.seen <==> HasKind(l, k);
    assert t.rebutted > 0 <==> Judged(l, "landed_and_rebutted");
    assert t.unrebutted > 0 <==> Judged(l, "landed_unrebutted");
    var clearing := Clearing(l);
    if clearing && ("claim" !in t.seen || "challenge" !in t.seen || "rebuttal" !in t.seen) {
      return false;
    }
    if clearing && t.engaged && (t.unrebutted > 0 || t.rebutted == 0) {
      return false;
    }
    if clearing {
      var second := ValidateSecondAdjudicatorGate(l);
      if !second {
        return false;
      }
    }
    assert clearing ==> ClearingOk(l);
    if l.shape == ACE_SHAPE && l.schemaVersion != ACE_SCHEMA {
      return false;
    }
    var findingsOk, byId := ValidateFindings(l.findings);
    if !findingsOk {
      return false;
    }
    var constraintsOk := ValidateConstraints(l.constraints, l.findings, byId);
    if !constraintsOk {
      return false;
    }
    var branchesOk := ValidateBranches(l);
    if !branchesOk {
      return false;
    }
    var productive := ProductiveConstraintRows(l.constraints);
    return !(l.shape == ACE_SHAPE && l.verdict == "needs_revision" && productive == 0);
  }

  // ---------------------------------------------------------------- discharging what binds

  function BindingOf(constraints: seq<Constraint>): seq<BindingConstraint>
    decreases |constraints|
  {
    if constraints == [] then []
    else
      var c := constraints[|constraints| - 1];
      BindingOf(constraints[..|constraints| - 1])
      + if c.binding && NonBlank(c.id) then [BindingConstraint(c.id, c.finalReviewRequired.GetOr(true))] else []
  }

  method BindingConstraintsFromLedger(l: Ledger) returns (result: seq<BindingConstraint>)
    ensures result == BindingOf(l.constraints)
  {
    result := [];
    for i := 0 to |l.constraints|
      invariant result == BindingOf(l.constraints[..i])
    {
      var c := l.constraints[i];
      assert l.constraints[..i + 1][..i] == l.constraints[..i];
      if !c.binding || !NonBlank(c.id) {
        continue;
      }
      result := result + [BindingConstraint(c.id, c.finalReviewRequired.GetOr(true))];
    }
    assert l.constraints[..|l.constraints|] == l.constraints;
  }

  lemma {:induction false} BindingMembers(constraints: seq<Constraint>, b: BindingConstraint)
    ensures b in BindingOf(constraints) <==>
              exists i :: 0 <= i < |constraints| && constraints[i].binding && NonBlank(constraints[i].id)
                && b == BindingConstraint(constraints[i].id, constraints[i].finalReviewRequired.GetOr(true))
    decreases |constraints|
  {
    hide NonBlank;
    if constraints != [] {
      BindingMembers(constraints[..|constraints| - 1], b);
      assert forall i :: 0 <= i < |constraints| - 1 ==> constraints[i] == constraints[..|constraints| - 1][i];
    }
  }

  lemma {:induction false} BindingConcat(before: seq<Constraint>, after: seq<Constraint>)
    ensures BindingOf(before + after) == BindingOf(before) + BindingOf(after)
    decreases |after|
  {
    hide NonBlank;
    if after == [] {
      assert before + after == before;
    } else {
      BindingConcat(before, after[..|after| - 1]);
      assert (before + after)[..|before + after| - 1] == before + after[..|after| - 1];
    }
  }

  // Row by row and in order; a final review is required unless it is switched off.
  lemma BindingInOrder(before: seq<Constraint>, c: Constraint, after: seq<Constraint>)
    ensures BindingOf(before + [c] + after) ==
      BindingOf(before)
      + (if c.binding && TrimSpace(c.id) != "" then [BindingConstraint(c.id, c.finalReviewRequired != Some(false))] else [])
      + BindingOf(after)
  {
    BindingOfOne(c);
    hide BindingOf, TrimSpace;
    BindingConcat(before, [c]);
    BindingConcat(before + [c], after);
  }

  lemma BindingOfOne(c: Constraint)
    ensures BindingOf([c]) ==
      if c.binding && TrimSpace(c.id) != "" then [BindingConstraint(c.id, c.finalReviewRequired != Some(false))] else []
  {
    hide TrimSpace;
    assert BindingOf([c][..0]) == [];
  }

  // What a valid ledger that clears its artifact, or that binds a constraint, has to show.
  lemma ClearingShows(l: Ledger)
    requires ValidLedger(l) && (l.verdict == "accept" || l.verdict == "accept_with_findings")
    ensures exists a, b, c ::
              a in l.entries && b in l.entries && c in l.entries && a.kind == "claim" && b.kind == "challenge" && c.kind == "rebuttal"
    ensures (exists e :: e in l.entries && e.correspondence != None) ==>
              && (exists e :: e in l.entries && e.correspondence == Some("landed_and_rebutted"))
              && (forall e :: e in l.entries ==> e.correspondence != Some("landed_unrebutted"))
    ensures l.adjudicationMode == "second_on_disagreement" ==>
              exists a, b :: a in l.adjudicators && b in l.adjudicators && a != b && TrimSpace(a) != "" && TrimSpace(b) != ""
  {
    hide EntriesOk, ShapeOk, FindingsOk, ConstraintsOk, BranchesOk, HasKind, Judged, TwoAdjudicators, TrimSpace, NonBlank;
    var a := EntryOfKind(l, "claim");
    var b := EntryOfKind(l, "challenge");
    var c := EntryOfKind(l, "rebuttal");
    JudgedIff(l, "landed_and_rebutted");
    JudgedIff(l, "landed_unrebutted");
    if e :| e in l.entries && e.correspondence != None {
      assert exists i :: 0 <= i < |l.entries| && l.entries[i].correspondence.Some?;
    }
    if l.adjudicationMode == "second_on_disagreement" {
      TwoNamed(l);
    }
  }

  lemma EntryOfKind(l: Ledger, kind: string) returns (e: Entry)
    requires HasKind(l, kind)
    ensures e in l.entries && e.kind == kind
  {
    var i :| 0 <= i < |l.entries| && l.entries[i].kind == kind;
    e := l.entries[i];
  }

  lemma JudgedIff(l: Ledger, judgment: string)
    ensures Judged(l, judgment) <==> exists e :: e in l.entries && e.correspondence == Some(judgment)
  {
  }

  lemma TwoNamed(l: Ledger)
    requires TwoAdjudicators(l)
    ensures exists a, b :: a in l.adjudicators && b in l.adjudicators && a != b && TrimSpace(a) != "" && TrimSpace(b) != ""
  {
    hide TrimSpace;
    var i, j :| 0 <= i < j < |l.adjudicators| && l.adjudicators[i] != l.adjudicators[j]
      && NonBlank(l.adjudicators[i]) && NonBlank(l.adjudicators[j]);
    assert l.adjudicators[i] in l.adjudicators && l.adjudicators[j] in l.adjudicators;
  }

  lemma BindingShows(l: Ledger, c: Constraint)
    requires ValidLedger(l) && c in l.constraints && c.binding
    ensures exists f :: f in l.findings && c.sourceFinding == Some(f.id) && f.severity in {"high", "critical"}
    ensures c.verification != None
    ensures var v := c.verification.value;
            (v.gate != None && TrimSpace(v.gate.value) != "") || (v.expectedStage != None && TrimSpace(v.expectedStage.value) != "")
  {
    hide EntriesOk, ShapeOk, FindingsOk, BranchesOk, ConstraintFieldsOk, TrimSpace;
    assert Traced(c, l.findings);
    var i :| 0 <= i < |l.findings| && l.findings[i].id == c.sourceFinding.value && Severe(l.findings[i]);
    assert l.findings[i] in l.findings;
  }

  predicate DischargeRowOk(r: Discharge) {
    && NonBlank(r.constraintId) && r.status in DISCHARGE_STATUSES
    && (r.owner.Some? ==> NonBlank(r.owner.value)) && (r.stage.Some? ==> NonBlank(r.stage.value))
    && (r.status == "accepted_risk" ==> r.owner.Some? && r.stage.Some?)
  }

  ghost predicate DischargeOk(rows: seq<Discharge>) {
    && (forall i :: 0 <= i < |rows| ==> DischargeRowOk(rows[i]))
    && (forall i, j :: 0 <= i < j < |rows| ==> rows[i].constraintId != rows[j].constraintId)
  }

  lemma DischargeSnoc(rows: seq<Discharge>, r: Discharge)
    ensures DischargeOk(rows + [r]) <==>
              DischargeOk(rows) && DischargeRowOk(r) && forall i :: 0 <= i < |rows| ==> rows[i].constraintId != r.constraintId
  {
    hide DischargeRowOk;
    var all := rows + [r];
    assert all[|rows|] == r && forall i :: 0 <= i < |rows| ==> all[i] == rows[i];
  }

  lemma DischargePrefix(rows: seq<Discharge>, n: nat)
    requires n <= |rows| && DischargeOk(rows)
    ensures DischargeOk(rows[..n])
  {
    hide DischargeRowOk;
  }

  method ParseConstraintDischarge(rows: seq<Discharge>) returns (ok: bool)
    ensures ok <==> DischargeOk(rows)
  {
    hide DischargeOk, NonBlank;
    assert DischargeOk(rows[..0]) by {
      NoDischarges();
    }
    var seen: set<string> := {};
    for i := 0 to |rows|
      invariant forall id :: id in seen <==> exists k :: 0 <= k < i && rows[k].constraintId == id
      invariant DischargeOk(rows[..i])
    {
      var r := rows[i];
      DischargeSnoc(rows[..i], r);
      assert rows[..i + 1] == rows[..i] + [r];
      if DischargeOk(rows) {
        DischargePrefix(rows, i + 1);
      }
      if !NonBlank(r.constraintId) || r.constraintId in seen || r.status !in DISCHARGE_STATUSES {
        return false;
      }
      seen := seen + {r.constraintId};
      if (r.owner.Some? && !NonBlank(r.owner.value)) || (r.stage.Some? && !NonBlank(r.stage.value)) {
        return false;
      }
      if r.status == "accepted_risk" && (r.owner.None? || r.stage.None?) {
        return false;
      }
    }
    assert rows[..|rows|] == rows;
    return true;
  }

  lemma NoDischarges()
    ensures DischargeOk([])
  {
  }

  // A row that settles a constraint id: discharged, or its risk accepted.
  ghost predicate Settled(id: string, rows: seq<Discharge>) {
    exists i :: 0 <= i < |rows| && rows[i].constraintId == id && (rows[i].status == "discharged" || rows[i].status == "accepted_risk")
  }

  // The table by id reads as the rows do: their ids are distinct.
  lemma SettledInTable(id: string, rows: seq<Discharge>, statusById: map<string, string>)
    requires DischargeOk(rows)
    requires forall x :: x in statusById <==> exists k :: 0 <= k < |rows| && rows[k].constraintId == x
    requires forall k :: 0 <= k < |rows| ==> statusById[rows[k].constraintId] == rows[k].status
    ensures Settled(id, rows) <==> id in statusById && statusById[id] in {"discharged", "accepted_risk"}
  {
  }

  // The gate on a submitted finding: no final-review constraint is left unsettled.
  method EnforceConstraintDischarge(binding: seq<BindingConstraint>, rows: seq<Discharge>) returns (undischarged: seq<string>)
    requires DischargeOk(rows)
    ensures forall id :: id in undischarged <==>
        exists i :: 0 <= i < |binding| && binding[i] == BindingConstraint(id, true) && !Settled(id, rows)
  {
    hide Settled;
    var statusById: map<string, string> := map[];
    for i := 0 to |rows|
      invariant forall id :: id in statusById <==> exists k :: 0 <= k < i && rows[k].constraintId == id
      invariant forall k :: 0 <= k < i ==> statusById[rows[k].constraintId] == rows[k].status
    {
      statusById := statusById[rows[i].constraintId := rows[i].status];
    }
    undischarged := [];
    for i := 0 to |binding|
      invariant forall id :: id in undischarged <==>
          exists k :: 0 <= k < i && binding[k] == BindingConstraint(id, true) && !Settled(id, rows)
    {
      var c := binding[i];
      SettledInTable(c.id, rows, statusById);
      if !c.finalReviewRequired {
        continue;
      }
      if c.id !in statusById || (statusById[c.id] != "discharged" && statusById[c.id] != "accepted_risk") {
        undischarged := undischarged + [c.id];
      }
    }
  }

  // From publication to final review: against a valid ledger and a parsed discharge table, the gate
  // passes iff every binding constraint that wants a final review is settled; each such constraint
  // rests on exactly one severe finding and a verification signal, and a settling row that accepts
  // the risk names its owner and stage.
  lemma GatePassesIff(l: Ledger, rows: seq<Discharge>)
    requires ValidLedger(l) && DischargeOk(rows)
    ensures GatePasses(l, rows) <==>
              forall i :: 0 <= i < |l.constraints| && Reviewed(l.constraints[i]) ==> Settled(l.constraints[i].id, rows)
    ensures forall i :: 0 <= i < |l.constraints| && l.constraints[i].binding ==>
              (exists k :: OnlySource(l, i, k)) && HasSignal(l.constraints[i].verification.value)
    ensures forall i :: 0 <= i < |rows| && rows[i].status == "accepted_risk" ==> rows[i].owner.Some? && rows[i].stage.Some?
  {
    hide NonBlank, HasSignal, RefsOk;
    forall b {
      BindingMembers(l.constraints, b);
    }
    forall i | 0 <= i < |l.constraints| && l.constraints[i].binding
      ensures BindingConstraint(l.constraints[i].id, l.constraints[i].finalReviewRequired.GetOr(true)) in BindingOf(l.constraints)
      ensures exists k :: OnlySource(l, i, k)
    {
      BindingMembers(l.constraints, BindingConstraint(l.constraints[i].id, l.constraints[i].finalReviewRequired.GetOr(true)));
      assert ConstraintFieldsOk(l.constraints[i]) && Traced(l.constraints[i], l.findings);
      var k :| 0 <= k < |l.findings| && l.findings[k].id == l.constraints[i].sourceFinding.value && Severe(l.findings[k]);
      assert OnlySource(l, i, k);
    }
  }

  // Finding k is severe, and the only one of the id that constraint i names.
  ghost predicate OnlySource(l: Ledger, i: nat, k: nat) {
    && i < |l.constraints| && k < |l.findings| && l.constraints[i].sourceFinding == Some(l.findings[k].id) && Severe(l.findings[k])
    && forall m :: 0 <= m < |l.findings| && l.findings[m].id == l.findings[k].id ==> m == k
  }

  // ---------------------------------------------------------------- how many rows the gate demands

  // A binding constraint that wants a final review.
  predicate Reviewed(c: Constraint) {
    c.binding && c.finalReviewRequired.GetOr(true)
  }

  ghost predicate GatePasses(l: Ledger, rows: seq<Discharge>) {
    forall b :: b in BindingOf(l.constraints) && b.finalReviewRequired ==> Settled(b.id, rows)
  }

  ghost function ReviewedIds(constraints: seq<Constraint>): set<string>
    decreases |constraints|
  {
    if constraints == [] then {}
    else
      var c := constraints[|constraints| - 1];
      ReviewedIds(constraints[..|constraints| - 1]) + if Reviewed(c) then {c.id} else {}
  }

  ghost function ReviewedCount(constraints: seq<Constraint>): nat
    decreases |constraints|
  {
    if constraints == [] then 0
    else ReviewedCount(constraints[..|constraints| - 1]) + if Reviewed(constraints[|constraints| - 1]) then 1 else 0
  }

  ghost predicate OwnIds(constraints: seq<Constraint>) {
    forall i, j :: 0 <= i < j < |constraints| && Reviewed(constraints[i]) && Reviewed(constraints[j]) ==>
      constraints[i].id != constraints[j].id
  }

  lemma {:induction false} IdsMembers(constraints: seq<Constraint>, x: string)
    ensures x in ReviewedIds(constraints) <==>
              exists i :: 0 <= i < |constraints| && Reviewed(constraints[i]) && constraints[i].id == x
    decreases |constraints|
  {
    if constraints != [] {
      var front := constraints[..|constraints| - 1];
      IdsMembers(front, x);
      assert forall i :: 0 <= i < |front| ==> front[i] == constraints[i];
    }
  }

  lemma OwnIdsSnoc(front: seq<Constraint>, c: Constraint)
    ensures OwnIds(front + [c]) <==> OwnIds(front) && (Reviewed(c) ==> c.id !in ReviewedIds(front))
  {
    var all := front + [c];
    IdsMembers(front, c.id);
    hide ReviewedIds, Reviewed;
    assert forall i :: 0 <= i < |front| ==> all[i] == front[i];
    assert all[|front|] == c;
  }

  // As many ids as constraints exactly when none is shared.
  lemma {:induction false} IdsCount(constraints: seq<Constraint>)
    ensures |ReviewedIds(constraints)| <= ReviewedCount(constraints)
    ensures |ReviewedIds(constraints)| == ReviewedCount(constraints) <==> OwnIds(constraints)
    decreases |constraints|
  {
    hide Reviewed, OwnIds;
    if constraints == [] {
      NoConstraints();
    } else {
      var front, c := constraints[..|constraints| - 1], constraints[|constraints| - 1];
      IdsCount(front);
      OwnIdsSnoc(front, c);
      assert constraints == front + [c];
      var ids := ReviewedIds(front);
      if Reviewed(c) && c.id in ids {
        assert ids + {c.id} == ids;
      } else if Reviewed(c) {
        assert |ids + {c.id}| == |ids| + 1;
      } else {
        assert ids + {} == ids;
      }
    }
  }

  lemma NoConstraints()
    ensures OwnIds([])
  {
  }

  ghost function RowIds(rows: seq<Discharge>): set<string> {
    set i | 0 <= i < |rows| :: rows[i].constraintId
  }

  lemma {:induction false} RowIdsBound(rows: seq<Discharge>)
    ensures |RowIds(rows)| <= |rows|
    decreases |rows|
  {
    if rows == [] {
      assert RowIds(rows) == {};
    } else {
      var front := rows[..|rows| - 1];
      RowIdsBound(front);
      assert RowIds(rows) == RowIds(front) + {rows[|rows| - 1].constraintId};
    }
  }

  lemma SubsetSize(small: set<string>, big: set<string>)
    requires small <= big
    ensures |small| <= |big|
  {
    assert big == small + (big - small);
  }

  // A reviewed constraint of a valid ledger is one the gate asks for.
  lemma ReviewedIsAsked(l: Ledger, i: nat)
    requires ValidLedger(l) && i < |l.constraints| && Reviewed(l.constraints[i])
    ensures BindingConstraint(l.constraints[i].id, true) in BindingOf(l.constraints)
  {
    assert ConstraintFieldsOk(l.constraints[i]);
    BindingMembers(l.constraints, BindingConstraint(l.constraints[i].id, true));
  }

  lemma PassingTableIsLarge(l: Ledger, rows: seq<Discharge>)
    requires ValidLedger(l) && GatePasses(l, rows)
    ensures |rows| >= |ReviewedIds(l.constraints)|
  {
    hide ValidLedger;
    forall x | x in ReviewedIds(l.constraints) ensures x in RowIds(rows) {
      IdsMembers(l.constraints, x);
      var i :| 0 <= i < |l.constraints| && Reviewed(l.constraints[i]) && l.constraints[i].id == x;
      ReviewedIsAsked(l, i);
      assert Settled(x, rows);
    }
    SubsetSize(ReviewedIds(l.constraints), RowIds(rows));
    RowIdsBound(rows);
  }

  // One discharged row for each id.
  lemma {:induction false} SmallestTable(ids: set<string>) returns (rows: seq<Discharge>)
    requires forall x :: x in ids ==> NonBlank(x)
    ensures DischargeOk(rows) && |rows| == |ids|
    ensures forall x :: x in ids ==> Settled(x, rows)
    ensures forall i :: 0 <= i < |rows| ==> rows[i].constraintId in ids
    decreases |ids|
  {
    hide NonBlank;
    if x :| x in ids {
      var rest := SmallestTable(ids - {x});
      rows := rest + [Discharge(x, "discharged", None, None)];
      assert rows[|rows| - 1].constraintId == x && forall i :: 0 <= i < |rest| ==> rows[i] == rest[i];
      forall y | y in ids ensures Settled(y, rows) {
        if y != x {
          assert y in ids - {x};
          var i :| 0 <= i < |rest| && rest[i].constraintId == y && (rest[i].status == "discharged" || rest[i].status == "accepted_risk");
          assert rows[i].constraintId == y;
        }
      }
    } else {
      rows := [];
    }
  }

  // Nothing keeps two binding constraints from sharing an id, and then one row settles both: the gate
  // demands a row for every binding constraint that wants a final review, whatever table is
  // submitted, exactly when no two of them share an id.
  lemma OwnRowIff(l: Ledger)
    requires ValidLedger(l)
    ensures (forall rows :: DischargeOk(rows) && GatePasses(l, rows) ==> |rows| >= ReviewedCount(l.constraints))
       <==> OwnIds(l.constraints)
  {
    hide *;
    IdsCount(l.constraints);
    var rows := SmallestPassingTable(l);
    forall rows | DischargeOk(rows) && GatePasses(l, rows) ensures |rows| >= |ReviewedIds(l.constraints)| {
      PassingTableIsLarge(l, rows);
    }
  }

  lemma SmallestPassingTable(l: Ledger) returns (rows: seq<Discharge>)
    requires ValidLedger(l)
    ensures DischargeOk(rows) && GatePasses(l, rows) && |rows| == |ReviewedIds(l.constraints)|
  {
    forall x | x in ReviewedIds(l.constraints) ensures NonBlank(x) {
      ReviewedIdIsNonBlank(l, x);
    }
    rows := SmallestTable(ReviewedIds(l.constraints));
    hide ValidLedger, NonBlank, DischargeOk, Settled, ReviewedIds;
    forall b | b in BindingOf(l.constraints) && b.finalReviewRequired ensures Settled(b.id, rows) {
      BindingMembers(l.constraints, b);
      IdsMembers(l.constraints, b.id);
    }
  }

  lemma ReviewedIdIsNonBlank(l: Ledger, x: string)
    requires ValidLedger(l) && x in ReviewedIds(l.constraints)
    ensures NonBlank(x)
  {
    IdsMembers(l.constraints, x);
    hide NonBlank, ReviewedIds, EntriesOk, ClearingOk, ShapeOk, FindingsOk, BranchesOk;
    var i :| 0 <= i < |l.constraints| && Reviewed(l.constraints[i]) && l.constraints[i].id == x;
    assert ConstraintFieldsOk(l.constraints[i]);
  }

  // Such a ledger: two binding constraints of one id, from one severe finding.
  const SHARED_ID: Ledger :=
    Ledger([], [], "blocked", "", [], "", "",
           [Finding("f", "high", "p", "open", "c", None)],
           [Constraint("c", "p", "high", "gate", true, "t", Some("f"), None, Some(Verification(Some("g"), None)), None),
            Constraint("c", "p", "high", "policy", true, "u", Some("f"), None, Some(Verification(Some("g"), None)), None)],
           [])

  const ONE_ROW: seq<Discharge> := [Discharge("c", "discharged", None, None)]

  lemma SingleIsNonBlank(c: char)
    requires !IsSpace(c)
    ensures NonBlank([c])
  {
    assert TrimLeft([c]) == [c] && TrimRight([c]) == [c];
  }

  lemma OneRowSettlesTwo()
    ensures ValidLedger(SHARED_ID) && DischargeOk(ONE_ROW) && GatePasses(SHARED_ID, ONE_ROW)
    ensures ReviewedCount(SHARED_ID.constraints) == 2 && |ONE_ROW| == 1
  {
    hide *;
    SharedIdIsValid();
    SharedIdCount();
    SharedIdRow();
    SameIdGate(SHARED_ID, ONE_ROW, "c");
  }

  lemma SameIdGate(l: Ledger, rows: seq<Discharge>, id: string)
    requires Settled(id, rows) && forall i :: 0 <= i < |l.constraints| ==> l.constraints[i].id == id
    ensures GatePasses(l, rows)
  {
    hide BindingOf, NonBlank, Settled;
    forall b | b in BindingOf(l.constraints) ensures Settled(b.id, rows) {
      BindingMembers(l.constraints, b);
    }
  }

  lemma SharedIdRow()
    ensures DischargeOk(ONE_ROW) && |ONE_ROW| == 1 && Settled("c", ONE_ROW)
    ensures forall i :: 0 <= i < |SHARED_ID.constraints| ==> SHARED_ID.constraints[i].id == "c"
  {
    SingleIsNonBlank('c');
    hide NonBlank;
    assert ONE_ROW[0].constraintId == "c";
  }

  lemma SharedIdCount()
    ensures ReviewedCount(SHARED_ID.constraints) == 2
  {
    var cs := SHARED_ID.constraints;
    assert cs[..1][..0] == [] && ReviewedCount(cs[..1]) == 1;
  }

  lemma SharedIdIsValid()
    ensures ValidLedger(SHARED_ID)
  {
    SingleIsNonBlank('c');
    SingleIsNonBlank('f');
    SingleIsNonBlank('g');
    SingleIsNonBlank('p');
    SingleIsNonBlank('t');
    SingleIsNonBlank('u');
    hide NonBlank;
    var cs := SHARED_ID.constraints;
    assert SHARED_ID.findings[0].id == "f" && Severe(SHARED_ID.findings[0]);
    assert Traced(cs[0], SHARED_ID.findings) && Traced(cs[1], SHARED_ID.findings);
  }
}
