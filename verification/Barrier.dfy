/**
  The sealed expectation barrier (RFC 0135). The readiness query is given its SQL meaning: inner
  join, left join, three-valued OR and an aggregate that skips NULL (PostgreSQL documentation,
  sections 9.1 and 9.21). The rule its comments describe is stated beside it, and the two are compared.
 */
module Barrier {
  import opened Strings
  import opened Wrappers

  // ---------------------------------------------------------------- three-valued logic

  datatype Tri = True | False | Unknown

  function Or(a: Tri, b: Tri): Tri {
    if a.True? || b.True? then True else if a.False? && b.False? then False else Unknown
  }

  function Of(b: bool): Tri {
    if b then True else False
  }

  // bool_and: a NULL input leaves the running state alone; no non-NULL input gives NULL.
  function BoolAnd(vs: seq<Tri>): Tri
    decreases |vs|
  {
    if vs == [] then Unknown
    else
      var state, v := BoolAnd(vs[..|vs| - 1]), vs[|vs| - 1];
      if v.Unknown? then state else if state.Unknown? then v else Of(state.True? && v.True?)
  }

  lemma {:induction false} BoolAndMeaning(vs: seq<Tri>)
    ensures BoolAnd(vs).False? <==> False in vs
    ensures BoolAnd(vs).True? <==> True in vs && False !in vs
    decreases |vs|
  {
    if vs != [] {
      BoolAndMeaning(vs[..|vs| - 1]);
      assert vs == vs[..|vs| - 1] + [vs[|vs| - 1]];
    }
  }

  // ---------------------------------------------------------------- the relations

  type Key = (string, string)  // entity kind and entity id

  datatype Edge = Edge(barrierId: string, key: Key, gap: bool)
  datatype Seal = Seal(key: Key, seal: int)

  datatype Tables = Tables(edges: seq<Edge>, live: seq<Seal>, staged: seq<Seal>)

  function KeyedRows(rows: seq<Seal>, key: Key): (r: seq<Seal>)
    ensures forall x :: x in r <==> x in rows && x.key == key
  {
    if rows == [] then [] else (if rows[0].key == key then [rows[0]] else []) + KeyedRows(rows[1..], key)
  }

  // The LEFT JOIN: every staged row of the key, or one row with a NULL seal.
  function StagedValues(e: Edge, l: Seal, matches: seq<Seal>): seq<Tri> {
    if matches == [] then []
    else [Or(Of(e.gap), Of(matches[0].seal == l.seal))] + StagedValues(e, l, matches[1..])
  }

  function LeftJoin(e: Edge, l: Seal, staged: seq<Seal>): seq<Tri> {
    var matches := KeyedRows(staged, e.key);
    if matches == [] then [Or(Of(e.gap), Unknown)] else StagedValues(e, l, matches)
  }

  function LiveValues(e: Edge, lives: seq<Seal>, staged: seq<Seal>): seq<Tri> {
    if lives == [] then [] else LeftJoin(e, lives[0], staged) + LiveValues(e, lives[1..], staged)
  }

  predicate Selected(e: Edge, barrierId: string, kind: string) {
    e.barrierId == barrierId && e.key.0 == kind
  }

  function JoinedValues(t: Tables, edges: seq<Edge>, barrierId: string, kind: string): seq<Tri> {
    if edges == [] then []
    else
      (if Selected(edges[0], barrierId, kind) then LiveValues(edges[0], KeyedRows(t.live, edges[0].key), t.staged) else [])
      + JoinedValues(t, edges[1..], barrierId, kind)
  }

  // What the query BarrierReadySQL builds evaluates to.
  function Ready(t: Tables, barrierId: string, kind: string): Tri {
    BoolAnd(JoinedValues(t, t.edges, barrierId, kind))
  }

  // ---------------------------------------------------------------- reading the join off the tables

  ghost predicate IsEdge(t: Tables, b: string, k: string, e: Edge) {
    e in t.edges && e.barrierId == b && e.key.0 == k
  }

  ghost predicate IsLive(t: Tables, e: Edge, l: Seal) {
    l in t.live && l.key == e.key
  }

  ghost predicate IsStaged(t: Tables, e: Edge, s: Seal) {
    s in t.staged && s.key == e.key
  }

  lemma {:induction false} StagedValuesMeaning(e: Edge, l: Seal, matches: seq<Seal>)
    ensures True in StagedValues(e, l, matches) <==> exists s :: s in matches && (e.gap || s.seal == l.seal)
    ensures False in StagedValues(e, l, matches) <==> !e.gap && exists s :: s in matches && s.seal != l.seal
  {
    if matches != [] {
      StagedValuesMeaning(e, l, matches[1..]);
      assert matches == [matches[0]] + matches[1..];
    }
  }

  lemma LeftJoinMeaning(e: Edge, l: Seal, staged: seq<Seal>)
    ensures True in LeftJoin(e, l, staged) <==> e.gap || exists s :: s in staged && s.key == e.key && s.seal == l.seal
    ensures False in LeftJoin(e, l, staged) <==> !e.gap && exists s :: s in staged && s.key == e.key && s.seal != l.seal
  {
    var matches := KeyedRows(staged, e.key);
    StagedValuesMeaning(e, l, matches);
    if matches != [] {
      assert matches[0] in matches;
    }
  }

  lemma {:induction false} LiveValuesMeaning(e: Edge, lives: seq<Seal>, staged: seq<Seal>)
    ensures True in LiveValues(e, lives, staged) <==> exists l :: l in lives && True in LeftJoin(e, l, staged)
    ensures False in LiveValues(e, lives, staged) <==> exists l :: l in lives && False in LeftJoin(e, l, staged)
  {
    hide LeftJoin;
    if lives != [] {
      LiveValuesMeaning(e, lives[1..], staged);
      assert lives == [lives[0]] + lives[1..];
    }
  }

  lemma {:induction false} JoinedMeaning(t: Tables, edges: seq<Edge>, b: string, k: string, v: Tri)
    ensures v in JoinedValues(t, edges, b, k) <==>
              exists e :: e in edges && Selected(e, b, k) && v in LiveValues(e, KeyedRows(t.live, e.key), t.staged)
  {
    hide LiveValues, Selected;
    if edges != [] {
      JoinedMeaning(t, edges[1..], b, k, v);
      assert edges == [edges[0]] + edges[1..];
    }
  }

  // Some in-edge joins a live row and is a gap, or has a staged row at that live seal.
  ghost predicate SomeTrue(t: Tables, b: string, k: string) {
    exists e, l :: IsEdge(t, b, k, e) && IsLive(t, e, l) && (e.gap || exists s :: IsStaged(t, e, s) && s.seal == l.seal)
  }

  // Some in-edge that is no gap joins a live row and a staged row at another seal.
  ghost predicate SomeFalse(t: Tables, b: string, k: string) {
    exists e, l, s :: IsEdge(t, b, k, e) && !e.gap && IsLive(t, e, l) && IsStaged(t, e, s) && s.seal != l.seal
  }

  lemma TrueRows(t: Tables, b: string, k: string)
    ensures True in JoinedValues(t, t.edges, b, k) <==> SomeTrue(t, b, k)
  {
    hide LeftJoin, LiveValues, JoinedValues;
    JoinedMeaning(t, t.edges, b, k, True);
    if True in JoinedValues(t, t.edges, b, k) {
      var e :| e in t.edges && Selected(e, b, k) && True in LiveValues(e, KeyedRows(t.live, e.key), t.staged);
      LiveValuesMeaning(e, KeyedRows(t.live, e.key), t.staged);
      var l :| l in KeyedRows(t.live, e.key) && True in LeftJoin(e, l, t.staged);
      LeftJoinMeaning(e, l, t.staged);
      assert IsEdge(t, b, k, e) && IsLive(t, e, l);
      if !e.gap {
        var s :| s in t.staged && s.key == e.key && s.seal == l.seal;
        assert IsStaged(t, e, s);
      }
    }
    if SomeTrue(t, b, k) {
      var e, l :| IsEdge(t, b, k, e) && IsLive(t, e, l) && (e.gap || exists s :: IsStaged(t, e, s) && s.seal == l.seal);
      LeftJoinMeaning(e, l, t.staged);
      LiveValuesMeaning(e, KeyedRows(t.live, e.key), t.staged);
      assert l in KeyedRows(t.live, e.key);
      assert True in LeftJoin(e, l, t.staged);
    }
  }

  lemma FalseRows(t: Tables, b: string, k: string)
    ensures False in JoinedValues(t, t.edges, b, k) <==> SomeFalse(t, b, k)
  {
    hide LeftJoin, LiveValues, JoinedValues;
    JoinedMeaning(t, t.edges, b, k, False);
    if False in JoinedValues(t, t.edges, b, k) {
      var e :| e in t.edges && Selected(e, b, k) && False in LiveValues(e, KeyedRows(t.live, e.key), t.staged);
      LiveValuesMeaning(e, KeyedRows(t.live, e.key), t.staged);
      var l :| l in KeyedRows(t.live, e.key) && False in LeftJoin(e, l, t.staged);
      LeftJoinMeaning(e, l, t.staged);
      var s :| s in t.staged && s.key == e.key && s.seal != l.seal;
      assert IsEdge(t, b, k, e) && IsLive(t, e, l) && IsStaged(t, e, s);
    }
    if SomeFalse(t, b, k) {
      var e, l, s :| IsEdge(t, b, k, e) && !e.gap && IsLive(t, e, l) && IsStaged(t, e, s) && s.seal != l.seal;
      LeftJoinMeaning(e, l, t.staged);
      LiveValuesMeaning(e, KeyedRows(t.live, e.key), t.staged);
      assert l in KeyedRows(t.live, e.key);
      assert False in LeftJoin(e, l, t.staged);
    }
  }

  // The query's value, read off the tables alone.
  lemma ReadyExactly(t: Tables, b: string, k: string)
    ensures Ready(t, b, k).False? <==> SomeFalse(t, b, k)
    ensures Ready(t, b, k).True? <==> SomeTrue(t, b, k) && !SomeFalse(t, b, k)
  {
    hide JoinedValues;
    BoolAndMeaning(JoinedValues(t, t.edges, b, k));
    TrueRows(t, b, k);
    FalseRows(t, b, k);
  }

  // The same in the columns of the three tables: TRUE iff some in-edge of this barrier and kind
  // joins a live row and is a gap or staged at that seal, and none that is no gap joins a live row
  // and a staged row of another seal; NULL iff there is neither.
  lemma ReadyInTheTables(t: Tables, b: string, k: string)
    ensures Ready(t, b, k).False? <==>
              exists e, l, s ::
                && e in t.edges && e.barrierId == b && e.key.0 == k && !e.gap
                && l in t.live && l.key == e.key && s in t.staged && s.key == e.key && s.seal != l.seal
    ensures Ready(t, b, k) == Unknown <==>
              forall e, l ::
                e in t.edges && e.barrierId == b && e.key.0 == k && l in t.live && l.key == e.key ==>
                !e.gap && forall s :: s in t.staged ==> s.key != e.key
  {
    hide Ready;
    ReadyExactly(t, b, k);
    if SomeFalse(t, b, k) {
      var e, l, s :| IsEdge(t, b, k, e) && !e.gap && IsLive(t, e, l) && IsStaged(t, e, s) && s.seal != l.seal;
    }
    forall e, l, s |
      && e in t.edges && e.barrierId == b && e.key.0 == k && !e.gap
      && l in t.live && l.key == e.key && s in t.staged && s.key == e.key && s.seal != l.seal
      ensures Ready(t, b, k).False?
    {
      assert IsEdge(t, b, k, e) && IsLive(t, e, l) && IsStaged(t, e, s);
    }
    forall e, l | e in t.edges && e.barrierId == b && e.key.0 == k && l in t.live && l.key == e.key
      ensures Ready(t, b, k) == Unknown ==> !e.gap && forall s :: s in t.staged ==> s.key != e.key
    {
      assert IsEdge(t, b, k, e) && IsLive(t, e, l);
      if s :| s in t.staged && s.key == e.key {
        assert IsStaged(t, e, s);
      }
    }
    if SomeTrue(t, b, k) {
      var e, l :| IsEdge(t, b, k, e) && IsLive(t, e, l) && (e.gap || exists s :: IsStaged(t, e, s) && s.seal == l.seal);
      if !e.gap {
        var s :| IsStaged(t, e, s) && s.seal == l.seal;
      }
    }
  }

  // Edges of other barriers and kinds, their order and their repetition have no say.
  lemma OtherEdgesHaveNoSay(t: Tables, u: Tables, b: string, k: string)
    requires forall l :: l in t.live <==> l in u.live
    requires forall s :: s in t.staged <==> s in u.staged
    requires forall e: Edge :: e.barrierId == b && e.key.0 == k ==> (e in t.edges <==> e in u.edges)
    ensures Ready(t, b, k) == Ready(u, b, k)
  {
    hide Ready;
    ReadyExactly(t, b, k);
    ReadyExactly(u, b, k);
    SomeCarriesOver(t, u, b, k);
    SomeCarriesOver(u, t, b, k);
  }

  lemma SomeCarriesOver(t: Tables, u: Tables, b: string, k: string)
    requires forall l :: l in t.live <==> l in u.live
    requires forall s :: s in t.staged <==> s in u.staged
    requires forall e: Edge :: e.barrierId == b && e.key.0 == k ==> (e in t.edges <==> e in u.edges)
    ensures SomeTrue(t, b, k) ==> SomeTrue(u, b, k)
    ensures SomeFalse(t, b, k) ==> SomeFalse(u, b, k)
  {
    if SomeTrue(t, b, k) {
      var e, l :| IsEdge(t, b, k, e) && IsLive(t, e, l) && (e.gap || exists s :: IsStaged(t, e, s) && s.seal == l.seal);
      assert IsEdge(u, b, k, e) && IsLive(u, e, l);
      if !e.gap {
        var s :| IsStaged(t, e, s) && s.seal == l.seal;
        assert IsStaged(u, e, s);
      }
    }
    if SomeFalse(t, b, k) {
      var e, l, s :| IsEdge(t, b, k, e) && !e.gap && IsLive(t, e, l) && IsStaged(t, e, s) && s.seal != l.seal;
      assert IsEdge(u, b, k, e) && IsLive(u, e, l) && IsStaged(u, e, s);
    }
  }

  // Two barriers over one kind: the stale contribution of the second does not hold back the first.
  lemma TwoBarriers()
    ensures var x, y := ("job", "x"), ("job", "y");
            var t := Tables([Edge("b1", x, false), Edge("b2", y, false)], [Seal(x, 1), Seal(y, 2)], [Seal(x, 1), Seal(y, 1)]);
            Ready(t, "b1", "job").True? && Ready(t, "b2", "job").False? && Ready(t, "b1", "node") == Unknown
  {
    hide Ready;
    var x, y := ("job", "x"), ("job", "y");
    assert x != y by {
      assert "x"[0] != "y"[0];
    }
    assert "b1" != "b2" && "job" != "node" by {
      assert "b1"[1] != "b2"[1] && "job"[0] != "node"[0];
    }
    var t := Tables([Edge("b1", x, false), Edge("b2", y, false)], [Seal(x, 1), Seal(y, 2)], [Seal(x, 1), Seal(y, 1)]);
    assert t.edges[0] in t.edges && t.edges[1] in t.edges;
    assert t.live[0] in t.live && t.live[1] in t.live;
    assert t.staged[0] in t.staged && t.staged[1] in t.staged;
    TwoEdges(t, t.edges[0], t.edges[1], "node");
  }

  lemma TwoEdges(t: Tables, e: Edge, f: Edge, k: string)
    requires e.barrierId != f.barrierId && e.key != f.key && e.key.0 == f.key.0 != k && !e.gap && !f.gap
    requires forall z :: z in t.edges <==> z == e || z == f
    requires forall z :: z in t.live <==> z == Seal(e.key, 1) || z == Seal(f.key, 2)
    requires forall z :: z in t.staged <==> z == Seal(e.key, 1) || z == Seal(f.key, 1)
    ensures Ready(t, e.barrierId, e.key.0).True? && Ready(t, f.barrierId, e.key.0).False? && Ready(t, e.barrierId, k) == Unknown
  {
    hide Ready;
    ReadyExactly(t, e.barrierId, e.key.0);
    ReadyExactly(t, f.barrierId, e.key.0);
    ReadyExactly(t, e.barrierId, k);
    assert IsEdge(t, e.barrierId, e.key.0, e) && IsLive(t, e, Seal(e.key, 1)) && IsStaged(t, e, Seal(e.key, 1));
    assert IsEdge(t, f.barrierId, e.key.0, f) && IsLive(t, f, Seal(f.key, 2)) && IsStaged(t, f, Seal(f.key, 1));
  }

  // ---------------------------------------------------------------- against the documented rule

  ghost predicate Current(t: Tables, e: Edge) {
    exists l, s :: IsLive(t, e, l) && IsStaged(t, e, s) && s.seal == l.seal
  }

  // TRUE iff every declared in-edge is a terminal gap or is staged at its entity's live seal.
  ghost predicate Documented(t: Tables, b: string, k: string) {
    forall e :: IsEdge(t, b, k, e) ==> e.gap || Current(t, e)
  }

  ghost predicate HasLive(t: Tables, e: Edge) {
    exists l :: IsLive(t, e, l)
  }

  ghost predicate HasStaged(t: Tables, e: Edge) {
    exists s :: IsStaged(t, e, s)
  }

  // An in-edge with no live row, or with none staged: the join drops it, or yields NULL.
  ghost predicate SomeOutstanding(t: Tables, b: string, k: string) {
    exists e :: IsEdge(t, b, k, e) && !e.gap && (!HasLive(t, e) || !HasStaged(t, e))
  }

  ghost predicate SomeJoined(t: Tables, b: string, k: string) {
    exists e :: IsEdge(t, b, k, e) && HasLive(t, e)
  }

  // A TRUE answer is right exactly when no contribution is outstanding.
  lemma TrueIsRightIff(t: Tables, b: string, k: string)
    requires Ready(t, b, k).True?
    ensures Documented(t, b, k) <==> !SomeOutstanding(t, b, k)
  {
    ReadyExactly(t, b, k);
    forall e | IsEdge(t, b, k, e) && !e.gap && HasLive(t, e) && HasStaged(t, e)
      ensures Current(t, e)
    {
      var l :| IsLive(t, e, l);
      var s :| IsStaged(t, e, s);
      assert s.seal == l.seal;
    }
  }

  // A barrier the rule would fire does fire exactly when no superseded staged row is left and
  // some in-edge joins a live row.
  lemma ReadyBarrierFiresIff(t: Tables, b: string, k: string)
    requires Documented(t, b, k)
    ensures Ready(t, b, k).True? <==> !SomeFalse(t, b, k) && SomeJoined(t, b, k)
  {
    ReadyExactly(t, b, k);
    if SomeJoined(t, b, k) {
      var e :| IsEdge(t, b, k, e) && HasLive(t, e);
      if e.gap {
        var l :| IsLive(t, e, l);
      } else {
        var l, s :| IsLive(t, e, l) && IsStaged(t, e, s) && s.seal == l.seal;
      }
      assert SomeTrue(t, b, k);
    }
  }

  // One live row and one staged row for each of at least one in-edge: then query and rule agree.
  ghost predicate OneEach(t: Tables, b: string, k: string) {
    && (exists e :: IsEdge(t, b, k, e))
    && (forall e :: IsEdge(t, b, k, e) ==> HasLive(t, e) && HasStaged(t, e))
    && (forall e, l, m :: IsEdge(t, b, k, e) && IsLive(t, e, l) && IsLive(t, e, m) ==> l.seal == m.seal)
    && (forall e, s, r :: IsEdge(t, b, k, e) && IsStaged(t, e, s) && IsStaged(t, e, r) ==> s.seal == r.seal)
  }

  lemma CompleteTablesAgree(t: Tables, b: string, k: string)
    requires OneEach(t, b, k)
    ensures Ready(t, b, k) == Of(Documented(t, b, k))
  {
    hide Ready;
    ReadyExactly(t, b, k);
    if Documented(t, b, k) {
      ReadyBarrierFiresIff(t, b, k);
      assert !SomeFalse(t, b, k);
    } else {
      var e :| IsEdge(t, b, k, e) && !e.gap && !Current(t, e);
      var l :| IsLive(t, e, l);
      var s :| IsStaged(t, e, s);
      assert SomeFalse(t, b, k);
    }
  }

  // A contribution that was never staged does not hold the barrier back: the comment's
  // "fail-closed" is not what the query does.
  lemma MissingContributionIsSkipped()
    ensures var x, y := ("job", "x"), ("job", "y");
            var t := Tables([Edge("b", x, false), Edge("b", y, false)], [Seal(x, 1), Seal(y, 1)], [Seal(x, 1)]);
            Ready(t, "b", "job").True? && !Documented(t, "b", "job")
  {
    var x, y := ("job", "x"), ("job", "y");
    var t := Tables([Edge("b", x, false), Edge("b", y, false)], [Seal(x, 1), Seal(y, 1)], [Seal(x, 1)]);
    ReadyExactly(t, "b", "job");
    var e, l := Edge("b", x, false), Seal(x, 1);
    assert e == t.edges[0] && l == t.live[0] && t.edges[1] == Edge("b", y, false);
    assert IsEdge(t, "b", "job", e) && IsLive(t, e, l) && IsStaged(t, e, t.staged[0]);
    assert !SomeFalse(t, "b", "job");
    assert IsEdge(t, "b", "job", Edge("b", y, false)) && !Current(t, Edge("b", y, false));
  }

  // ---------------------------------------------------------------- advancing a seal

  // Once an entity's live seal moves past what is staged for it, the barrier is FALSE, and staging
  // more rows does not bring it back while a superseded row remains.
  lemma AdvancedSealBlocks(t: Tables, b: string, k: string, e: Edge, l: Seal, stale: Seal, more: seq<Seal>)
    requires IsEdge(t, b, k, e) && !e.gap && IsLive(t, e, l)
    requires IsStaged(t, e, stale) && stale.seal < l.seal
    ensures Ready(t.(staged := t.staged + more), b, k).False?
  {
    var u := t.(staged := t.staged + more);
    assert IsEdge(u, b, k, e) && IsLive(u, e, l) && IsStaged(u, e, stale);
    ReadyExactly(u, b, k);
  }

  // ---------------------------------------------------------------- the fan-in caller

  datatype Job = Job(seat: string, attempt: nat, completed: bool)
  datatype Contribution = Contribution(seat: string, attempt: nat, live: bool)  // staged, not voided, not a recovery ref

  function MaxCompleted(jobs: seq<Job>, seat: string): Option<nat> {
    if jobs == [] then None
    else
      var rest := MaxCompleted(jobs[1..], seat);
      if jobs[0].seat == seat && jobs[0].completed && (rest.None? || rest.value < jobs[0].attempt) then Some(jobs[0].attempt) else rest
  }

  function MaxStaged(contributions: seq<Contribution>, seat: string): Option<nat> {
    if contributions == [] then None
    else
      var c, rest := contributions[0], MaxStaged(contributions[1..], seat);
      if c.seat == seat && c.live && (rest.None? || rest.value < c.attempt) then Some(c.attempt) else rest
  }

  // The three relations the caller derives: one row per declared seat in each, with 0 standing for
  // no completed attempt and -1 for nothing staged.
  function FanInTables(barrierId: string, seats: seq<string>, gaps: set<string>, jobs: seq<Job>, contributions: seq<Contribution>): Tables {
    Tables(
      seq(|seats|, i requires 0 <= i < |seats| => Edge(barrierId, ("job", seats[i]), seats[i] in gaps)),
      seq(|seats|, i requires 0 <= i < |seats| => Seal(("job", seats[i]), MaxCompleted(jobs, seats[i]).GetOr(0))),
      seq(|seats|, i requires 0 <= i < |seats| =>
        Seal(("job", seats[i]), var m := MaxStaged(contributions, seats[i]); if m.None? then -1 else m.value)))
  }

  // The seat's last completed attempt, and the last attempt of its live contributions.
  ghost predicate LastCompleted(jobs: seq<Job>, seat: string, attempt: nat) {
    && (exists j :: j in jobs && j.seat == seat && j.completed && j.attempt == attempt)
    && (forall j :: j in jobs && j.seat == seat && j.completed ==> j.attempt <= attempt)
  }

  ghost predicate LastStaged(contributions: seq<Contribution>, seat: string, attempt: nat) {
    && (exists c :: c in contributions && c.seat == seat && c.live && c.attempt == attempt)
    && (forall c :: c in contributions && c.seat == seat && c.live ==> c.attempt <= attempt)
  }

  ghost predicate SeatReady(gaps: set<string>, jobs: seq<Job>, contributions: seq<Contribution>, seat: string) {
    seat in gaps || exists attempt: nat :: LastCompleted(jobs, seat, attempt) && LastStaged(contributions, seat, attempt)
  }

  lemma {:induction false} MaxCompletedIsLast(jobs: seq<Job>, seat: string)
    ensures MaxCompleted(jobs, seat).Some? ==> LastCompleted(jobs, seat, MaxCompleted(jobs, seat).value)
    ensures MaxCompleted(jobs, seat).None? ==> forall j :: j in jobs ==> j.seat != seat || !j.completed
  {
    if jobs != [] {
      MaxCompletedIsLast(jobs[1..], seat);
      assert jobs == [jobs[0]] + jobs[1..];
    }
  }

  lemma {:induction false} MaxStagedIsLast(contributions: seq<Contribution>, seat: string)
    ensures MaxStaged(contributions, seat).Some? ==> LastStaged(contributions, seat, MaxStaged(contributions, seat).value)
    ensures MaxStaged(contributions, seat).None? ==> forall c :: c in contributions ==> c.seat != seat || !c.live
  {
    if contributions != [] {
      MaxStagedIsLast(contributions[1..], seat);
      assert contributions == [contributions[0]] + contributions[1..];
    }
  }

  lemma SeatReadyIff(gaps: set<string>, jobs: seq<Job>, contributions: seq<Contribution>, seat: string)
    ensures SeatReady(gaps, jobs, contributions, seat) <==>
              seat in gaps || (MaxCompleted(jobs, seat).Some? && MaxCompleted(jobs, seat) == MaxStaged(contributions, seat))
  {
    MaxCompletedIsLast(jobs, seat);
    MaxStagedIsLast(contributions, seat);
    if a: nat :| LastCompleted(jobs, seat, a) && LastStaged(contributions, seat, a) {
      var j :| j in jobs && j.seat == seat && j.completed && j.attempt == a;
      var c :| c in contributions && c.seat == seat && c.live && c.attempt == a;
    }
  }

  lemma {:induction false} StagedAttemptsArePositive(contributions: seq<Contribution>, seat: string)
    requires forall c :: c in contributions ==> c.attempt >= 1
    ensures MaxStaged(contributions, seat).Some? ==> MaxStaged(contributions, seat).value >= 1
  {
    if contributions != [] {
      assert contributions[0] in contributions && forall c :: c in contributions[1..] ==> c in contributions;
      StagedAttemptsArePositive(contributions[1..], seat);
    }
  }

  lemma FanInShape(b: string, seats: seq<string>, gaps: set<string>, jobs: seq<Job>, contributions: seq<Contribution>, seat: string)
    requires seat in seats
    ensures var t := FanInTables(b, seats, gaps, jobs, contributions);
            var e := Edge(b, ("job", seat), seat in gaps);
            var m := MaxStaged(contributions, seat);
            && IsEdge(t, b, "job", e)
            && (forall l :: IsLive(t, e, l) <==> l == Seal(e.key, MaxCompleted(jobs, seat).GetOr(0)))
            && (forall s :: IsStaged(t, e, s) <==> s == Seal(e.key, if m.None? then -1 else m.value))
  {
    var t := FanInTables(b, seats, gaps, jobs, contributions);
    var i :| 0 <= i < |seats| && seats[i] == seat;
    assert t.edges[i] == Edge(b, ("job", seat), seat in gaps);
    assert t.live[i] in t.live && t.staged[i] in t.staged;
  }

  // With those sentinels the query is exactly the intended rule: it is TRUE iff there is a declared
  // seat and each is an admitted gap or staged at its last completed attempt, and never NULL otherwise.
  lemma FanInIsExact(b: string, seats: seq<string>, gaps: set<string>, jobs: seq<Job>, contributions: seq<Contribution>)
    requires forall c :: c in contributions ==> c.attempt >= 1
    ensures var t := FanInTables(b, seats, gaps, jobs, contributions);
            Ready(t, b, "job") ==
              if seats == [] then Unknown else Of(forall seat :: seat in seats ==> SeatReady(gaps, jobs, contributions, seat))
  {
    hide Ready, FanInTables, SeatReady, MaxCompleted, MaxStaged;
    var t := FanInTables(b, seats, gaps, jobs, contributions);
    if seats == [] {
      EmptyFanIn(b, gaps, jobs, contributions);
      return;
    }
    forall seat | seat in seats
      ensures var e := Edge(b, ("job", seat), seat in gaps);
              IsEdge(t, b, "job", e) && HasLive(t, e) && HasStaged(t, e) && (Current(t, e) || e.gap <==>
                SeatReady(gaps, jobs, contributions, seat))
    {
      FanInShape(b, seats, gaps, jobs, contributions, seat);
      var e, m := Edge(b, ("job", seat), seat in gaps), MaxStaged(contributions, seat);
      assert IsLive(t, e, Seal(e.key, MaxCompleted(jobs, seat).GetOr(0)));
      assert IsStaged(t, e, Seal(e.key, if m.None? then -1 else m.value));
      StagedAttemptsArePositive(contributions, seat);
      SeatReadyIff(gaps, jobs, contributions, seat);
    }
    FanInEdges(b, seats, gaps, jobs, contributions);
    FanInOneEach(b, seats, gaps, jobs, contributions);
    CompleteTablesAgree(t, b, "job");
  }

  lemma EmptyFanIn(b: string, gaps: set<string>, jobs: seq<Job>, contributions: seq<Contribution>)
    ensures Ready(FanInTables(b, [], gaps, jobs, contributions), b, "job") == Unknown
  {
    assert FanInTables(b, [], gaps, jobs, contributions).edges == [];
  }

  lemma FanInEdges(b: string, seats: seq<string>, gaps: set<string>, jobs: seq<Job>, contributions: seq<Contribution>)
    ensures forall e :: IsEdge(FanInTables(b, seats, gaps, jobs, contributions), b, "job", e) ==>
              e.key.1 in seats && e == Edge(b, ("job", e.key.1), e.key.1 in gaps)
  {
  }

  lemma FanInOneEach(b: string, seats: seq<string>, gaps: set<string>, jobs: seq<Job>, contributions: seq<Contribution>)
    requires seats != []
    ensures OneEach(FanInTables(b, seats, gaps, jobs, contributions), b, "job")
  {
    hide FanInTables, MaxCompleted, MaxStaged;
    var t := FanInTables(b, seats, gaps, jobs, contributions);
    FanInEdges(b, seats, gaps, jobs, contributions);
    FanInShape(b, seats, gaps, jobs, contributions, seats[0]);
    forall e | IsEdge(t, b, "job", e)
      ensures HasLive(t, e) && HasStaged(t, e)
      ensures forall l, m :: IsLive(t, e, l) && IsLive(t, e, m) ==> l.seal == m.seal
      ensures forall s, r :: IsStaged(t, e, s) && IsStaged(t, e, r) ==> s.seal == r.seal
    {
      FanInShape(b, seats, gaps, jobs, contributions, e.key.1);
      var m := MaxStaged(contributions, e.key.1);
      assert IsLive(t, e, Seal(e.key, MaxCompleted(jobs, e.key.1).GetOr(0)));
      assert IsStaged(t, e, Seal(e.key, if m.None? then -1 else m.value));
    }
  }

  // ---------------------------------------------------------------- the identifier fence

  predicate Letter(c: char) {
    c == '_' || 'a' <= c <= 'z' || 'A' <= c <= 'Z'
  }

  predicate Digit(c: char) {
    '0' <= c <= '9'
  }

  // One bare identifier, and dot-joined lists of them.
  predicate Segment(s: string) {
    s != "" && Letter(s[0]) && forall i :: 0 <= i < |s| ==> Letter(s[i]) || Digit(s[i])
  }

  // The same language position by position: what may stand at an index, given where segments start.
  ghost predicate OkAt(s: string, i: nat)
    requires i < |s|
  {
    var start := i == 0 || s[i - 1] == '.';
    if s[i] == '.' then !start else if start then Letter(s[i]) else Letter(s[i]) || Digit(s[i])
  }

  ghost predicate Bare(s: string) {
    s != "" && s[|s| - 1] != '.' && forall i: nat :: i < |s| ==> OkAt(s, i)
  }

  method IsBareSQLIdentifier(s: string) returns (ok: bool)
    ensures ok <==> Bare(s)
  {
    if s == "" {
      return false;
    }
    var segmentStart := true;
    for i := 0 to |s|
      invariant segmentStart == (i == 0 || s[i - 1] == '.')
      invariant forall k: nat :: k < i ==> OkAt(s, k)
    {
      var c := s[i];
      if c == '.' {
        if segmentStart {
          assert !OkAt(s, i);
          return false;
        }
        segmentStart := true;
      } else if segmentStart {
        if !Letter(c) {
          assert !OkAt(s, i);
          return false;
        }
        segmentStart := false;
      } else if !Letter(c) && !Digit(c) {
        assert !OkAt(s, i);
        return false;
      }
    }
    return !segmentStart;
  }

  // In characters: letters, digits, underscores and dots, where the text and what follows a dot start
  // with a letter or an underscore, and the text does not end in a dot.
  lemma BareInCharacters(s: string)
    ensures Bare(s) <==>
              && s != "" && s[|s| - 1] != '.'
              && (forall i :: 0 <= i < |s| ==> 'a' <= s[i] <= 'z' || 'A' <= s[i] <= 'Z' || '0' <= s[i] <= '9' || s[i] == '_' || s[i] == '.')
              && !('0' <= s[0] <= '9') && s[0] != '.'
              && (forall i, j :: 0 <= i < |s| && j == i + 1 < |s| && s[i] == '.' ==> s[j] != '.' && !('0' <= s[j] <= '9'))
  {
    if Bare(s) {
      assert OkAt(s, 0);
      forall i, j | 0 <= i < |s| && j == i + 1 < |s| && s[i] == '.'
        ensures s[j] != '.' && !('0' <= s[j] <= '9')
      {
        assert OkAt(s, j);
      }
      forall i | 0 <= i < |s|
        ensures 'a' <= s[i] <= 'z' || 'A' <= s[i] <= 'Z' || '0' <= s[i] <= '9' || s[i] == '_' || s[i] == '.'
      {
        assert OkAt(s, i);
      }
    }
  }

  lemma {:induction false} JoinedSegmentsAreBare(segments: seq<string>)
    requires segments != [] && forall i :: 0 <= i < |segments| ==> Segment(segments[i])
    ensures Bare(Join(segments, '.'))
    decreases |segments|
  {
    var s, head := Join(segments, '.'), segments[0];
    if |segments| > 1 {
      var rest := Join(segments[1..], '.');
      JoinedSegmentsAreBare(segments[1..]);
      assert s == head + "." + rest;
      forall i: nat | i < |s|
        ensures OkAt(s, i)
      {
        if i > |head| {
          assert s[i] == rest[i - |head| - 1] && OkAt(rest, i - |head| - 1);
          assert i > |head| + 1 ==> s[i - 1] == rest[i - |head| - 2];
        }
      }
    }
  }

  lemma HeadIsSegment(s: string, d: nat)
    requires Bare(s) && d <= |s| && (d < |s| ==> s[d] == '.') && forall i :: 0 <= i < d ==> s[i] != '.'
    ensures Segment(s[..d])
  {
    assert OkAt(s, 0);
    forall i: nat | i < d
      ensures Letter(s[i]) || Digit(s[i])
    {
      assert OkAt(s, i);
    }
  }

  lemma RestIsBare(s: string, d: nat)
    requires Bare(s) && d < |s| && s[d] == '.'
    ensures Bare(s[d + 1..])
  {
    var rest := s[d + 1..];
    assert |rest| > 0 && rest[|rest| - 1] == s[|s| - 1];
    forall i: nat | i < |rest|
      ensures OkAt(rest, i)
    {
      assert OkAt(s, d + 1 + i);
      assert i > 0 ==> rest[i - 1] == s[d + i];
    }
  }

  lemma {:induction false} BareSplits(s: string)
    requires Bare(s)
    ensures forall i :: 0 <= i < |Split(s, '.')| ==> Segment(Split(s, '.')[i])
    decreases |s|
  {
    hide Bare, Segment;
    var d := FirstIndex(s, '.');
    HeadIsSegment(s, d);
    if d == |s| {
      assert s[..d] == s;
    } else {
      RestIsBare(s, d);
      BareSplits(s[d + 1..]);
    }
  }

  ghost predicate JoinsTo(segments: seq<string>, s: string) {
    segments != [] && (forall i :: 0 <= i < |segments| ==> Segment(segments[i])) && s == Join(segments, '.')
  }

  // What the fence lets through is exactly a dot-joined list of bare identifiers: no quote, blank,
  // bracket or semicolon, and no empty segment.
  lemma BareIffJoined(s: string)
    ensures Bare(s) <==> exists segments :: JoinsTo(segments, s)
  {
    if Bare(s) {
      BareSplits(s);
      JoinOfSplit(s, '.');
      assert JoinsTo(Split(s, '.'), s);
    }
    if segments :| JoinsTo(segments, s) {
      JoinedSegmentsAreBare(segments);
    }
  }

  datatype Spec = Spec(entityKind: string, inEdgesTable: string, liveSealTable: string, stagedContribTable: string, sealColumn: string)

  method ValidateBarrierSpec(spec: Spec) returns (ok: bool)
    ensures ok <==>
              && spec.entityKind != ""
              && Bare(spec.inEdgesTable) && Bare(spec.liveSealTable) && Bare(spec.stagedContribTable) && Bare(spec.sealColumn)
  {
    if spec.entityKind == "" {
      return false;
    }
    var values := [spec.inEdgesTable, spec.liveSealTable, spec.stagedContribTable, spec.sealColumn];
    for i := 0 to |values|
      invariant forall k :: 0 <= k < i ==> Bare(values[k])
    {
      var bare := IsBareSQLIdentifier(values[i]);
      if !bare {
        assert !Bare(values[i]);
        return false;
      }
    }
    assert Bare(values[0]) && Bare(values[1]) && Bare(values[2]) && Bare(values[3]);
    return true;
  }
}
