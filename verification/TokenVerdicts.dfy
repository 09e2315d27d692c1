/**
  When the token operations succeed, which error they give otherwise, and every column of the rows
  they leave, in the columns of the tables and the fields of the request.
 */
module TokenVerdicts {
  import opened Wrappers
  import opened Principals
  import opened Tokens
  import opened TokenAuthority

  // ---------------------------------------------------------------- the expiry

  // A time or a duration is taken as asked; without either it is one hour from now, or the replaced
  // token's expiry where that comes first and is still to come.
  lemma ExpiryAsAsked(x: Expiry, now: int, oldExpiry: Option<int>)
    ensures TokenExpiry(x, now, oldExpiry).Err? ==> TokenExpiry(x, now, oldExpiry).error == SchemaInvalid
    ensures TokenExpiry(x, now, oldExpiry).Err? <==> x == Malformed || (x.AtTime? && x.t <= now) || (x.InSeconds? && x.n <= 0)
    ensures x.AtTime? && x.t > now ==> TokenExpiry(x, now, oldExpiry) == Ok(x.t)
    ensures x.InSeconds? && x.n > 0 ==> TokenExpiry(x, now, oldExpiry) == Ok(now + x.n)
    ensures x == Unspecified ==>
              var e := TokenExpiry(x, now, oldExpiry).value;
              && now < e <= now + 3600 && (e == now + 3600 || oldExpiry == Some(e))
              && (oldExpiry.Some? && now < oldExpiry.value ==> e <= oldExpiry.value)
  {
  }

  // ---------------------------------------------------------------- revocation

  // The token exists, and no secret other than its own was presented.
  ghost predicate Presented(clients: map<string, Client>, t: Target) {
    t.client in clients && (t.secret == None || t.secret == Some(clients[t.client].secret))
  }

  // A client's row closed now, unless it was closed before.
  ghost function ClosedRow(c: Client, now: int): Client {
    Client(c.secret, c.expiresAt, if c.revokedAt == None then Some(now) else c.revokedAt)
  }

  // Every open grant of the client closed now, and every other row as it was, in place.
  ghost predicate RowsClosed(before: seq<Grant>, after: seq<Grant>, client: string, now: int) {
    && |after| == |before|
    && forall i :: 0 <= i < |before| ==>
         var g := before[i];
         after[i] == Grant(g.client, g.scope, g.expiresAt, if g.client == client && g.revokedAt == None then Some(now) else g.revokedAt)
  }

  lemma ClosedByRevocation(db: Db, client: string, now: int)
    requires client in db.clients
    ensures var after := RevokeClient(db, client, now);
            && after.clients == db.clients[client := ClosedRow(db.clients[client], now)]
            && RowsClosed(db.grants, after.grants, client, now) && after.directory == db.directory
  {
  }

  // Revocation succeeds iff the token exists and no other secret was presented.
  lemma RevokeExactly(db: Db, t: Target, now: int)
    ensures Revoke(db, t, now).Ok? <==> Presented(db.clients, t)
    ensures Revoke(db, t, now).Err? ==> Revoke(db, t, now).error == TokenInvalid
    ensures Revoke(db, t, now).Ok? ==>
              var after := Revoke(db, t, now).value;
              && after.clients == db.clients[t.client := ClosedRow(db.clients[t.client], now)]
              && RowsClosed(db.grants, after.grants, t.client, now) && after.directory == db.directory
  {
    if t.client in db.clients {
      ClosedByRevocation(db, t.client, now);
    }
  }

  // ---------------------------------------------------------------- rotation

  ghost predicate OpenAt(g: Grant, client: string, now: int) {
    g.client == client && g.revokedAt == None && (g.expiresAt == None || g.expiresAt.value > now)
  }

  ghost predicate TwoOpenOfOneScope(grants: seq<Grant>, client: string, now: int) {
    exists i, j ::
      0 <= i < j < |grants| && OpenAt(grants[i], client, now) && OpenAt(grants[j], client, now) && grants[i].scope == grants[j].scope
  }

  ghost predicate SomeOpen(grants: seq<Grant>, client: string, now: int) {
    exists i :: 0 <= i < |grants| && OpenAt(grants[i], client, now)
  }

  // The refusals, in the order in which they are looked for.
  lemma RotationRefusedExactly(db: Db, req: RotateRequest, now: int)
    ensures !Presented(db.clients, req.target) ==> RotationError(db, req, now) == Some(TokenInvalid)
    ensures Presented(db.clients, req.target) ==>
              var c, record := req.target.client, db.clients[req.target.client];
              RotationError(db, req, now) ==
                if record.revokedAt != None then Some(TokenRevoked)
                else if record.expiresAt != None && record.expiresAt.value <= now then Some(TokenExpired)
                else if TwoOpenOfOneScope(db.grants, c, now) then Some(TokenScopeAmbiguous)
                else if !SomeOpen(db.grants, c, now) then Some(CapabilityMissing)
                else if TokenExpiry(req.expiry, now, record.expiresAt).Err? then Some(SchemaInvalid)
                else None
  {
    if Presented(db.clients, req.target) {
      var c := req.target.client;
      assert forall g :: OpenAt(g, c, now) <==> Active(g, c, now);
      assert TwoOpenOfOneScope(db.grants, c, now) <==> ScopeAmbiguous(db.grants, c, now);
      NothingActiveIff(db.grants, c, now);
      ExpiryAsAsked(req.expiry, now, db.clients[c].expiresAt);
      hide TokenExpiry, OpenAt, TwoOpenOfOneScope, ScopeAmbiguous, SomeOpen, ActiveGrants;
    }
  }

  lemma {:induction false} NothingActiveIff(grants: seq<Grant>, client: string, now: int)
    ensures ActiveGrants(grants, client, now) == [] <==> !SomeOpen(grants, client, now)
    decreases |grants|
  {
    if grants != [] {
      NothingActiveIff(grants[1..], client, now);
      if SomeOpen(grants, client, now) {
        var i :| 0 <= i < |grants| && OpenAt(grants[i], client, now);
        assert i > 0 ==> grants[1..][i - 1] == grants[i];
      }
      if SomeOpen(grants[1..], client, now) {
        var i :| 0 <= i < |grants[1..]| && OpenAt(grants[1..][i], client, now);
        assert grants[i + 1] == grants[1..][i];
      }
    }
  }

  // The earlier of a grant's expiry and the new token's.
  ghost function Sooner(a: Option<int>, e: int): int {
    if a.Some? && a.value < e then a.value else e
  }

  ghost function Handed(g: Grant, id: string, e: int): Grant {
    Grant(id, g.scope, Some(Sooner(g.expiresAt, e)), None)
  }

  // The new rows: one open grant for each open one of the old token, at the sooner expiry.
  ghost predicate HandedOn(before: seq<Grant>, added: seq<Grant>, old_: string, id: string, e: int, now: int) {
    && (forall n :: n in added ==> exists i ::
          0 <= i < |before| && OpenAt(before[i], old_, now) && n == Handed(before[i], id, e))
    && (forall i :: 0 <= i < |before| && OpenAt(before[i], old_, now) ==>
          Handed(before[i], id, e) in added)
  }

  lemma AddedRow(db: Db, old_: string, id: string, e: int, now: int, n: Grant)
    ensures n in Rows(id, Capped(ActiveGrants(db.grants, old_, now), Some(e))) <==> exists i ::
        0 <= i < |db.grants| && OpenAt(db.grants[i], old_, now) && n == Handed(db.grants[i], id, e)
  {
    var gs := ActiveGrants(db.grants, old_, now);
    var added := Rows(id, Capped(gs, Some(e)));
    if n in added {
      var k :| 0 <= k < |added| && added[k] == n;
      assert gs[k] in gs;
      ActiveGrantsMembers(db.grants, old_, now, gs[k]);
    }
    if i :| 0 <= i < |db.grants| && OpenAt(db.grants[i], old_, now) && n == Handed(db.grants[i], id, e) {
      var g := NewGrant(db.grants[i].scope, db.grants[i].expiresAt);
      ActiveGrantsMembers(db.grants, old_, now, g);
      var k :| 0 <= k < |gs| && gs[k] == g;
      assert added[k] == n;
    }
  }

  // A rotation closes the old token and adds the new one: one client row with the requested secret,
  // and the rows handed on after those there were.
  lemma RotationHandsOn(db: Db, req: RotateRequest, now: int, id: string)
    requires RotationError(db, req, now).None? && id != req.target.client
    ensures var old_, after, e := req.target.client, Rotated(db, req, now, id), NewExpiry(db, req, now);
            && after.clients == db.clients[old_ := ClosedRow(db.clients[old_], now)][id := Client(req.secret, Some(e), None)]
            && |after.grants| >= |db.grants|
            && RowsClosed(db.grants, after.grants[..|db.grants|], old_, now)
            && HandedOn(db.grants, after.grants[|db.grants|..], old_, id, e, now)
  {
    hide TokenExpiry, ActiveGrants, OpenAt, Rows, Capped;
    var old_, after, e := req.target.client, Rotated(db, req, now, id), NewExpiry(db, req, now);
    ClosedByRevocation(db, old_, now);
    var closed := RevokeClient(db, old_, now).grants;
    var added := Rows(id, Capped(ActiveGrants(db.grants, old_, now), Some(e)));
    assert after.grants == closed + added;
    assert after.grants[..|db.grants|] == closed && after.grants[|db.grants|..] == added;
    forall n {
      AddedRow(db, old_, id, e, now, n);
    }
  }

  lemma RotatedIsThere(db: Db, req: RotateRequest, now: int)
    requires RotationError(db, req, now).None?
    ensures req.target.client in db.clients
  {
  }

  // In a reachable state nothing else refuses a rotation than those errors and the attribution to a
  // principal it names; an error is reported and the tables stay.
  lemma RotateExactly(db: Db, req: RotateRequest, now: int, id: string)
    requires Inv(db) && id !in db.clients && id != ""
    ensures RotationError(db, req, now).Some? ==> Rotate(db, req, now, id) == Err(RotationError(db, req, now).value)
    ensures RotationError(db, req, now).None? ==>
              var named := Attribute(db.directory, req.attribution, id);
              if req.attribution.principalId != "" && named.Err? then Rotate(db, req, now, id) == Err(named.error)
              else
                && Rotate(db, req, now, id).Ok?
                && Rotate(db, req, now, id).value.clients == Rotated(db, req, now, id).clients
                && Rotate(db, req, now, id).value.grants == Rotated(db, req, now, id).grants
  {
    hide RotationError, Rotated, GrantsOk, ValidDirectory, Attribute, CarryAcrossRotation, ActiveOwner;
    if RotationError(db, req, now).None? {
      RotatedIsThere(db, req, now);
      CarryExactly(db.directory, req.attribution, req.target.client, id);
    }
  }

  // ---------------------------------------------------------------- creation

  ghost predicate GoodScope(s: Scope) {
    && s.capability in {"read", "write", "review", "claim", "apply", "admin", "recovery", "surgical_recovery"}
    && s.repository != Some("")
  }

  // The scopes asked for: some, each of a known capability, none twice, and their repositories.
  ghost predicate ScopesAccepted(scopes: seq<Scope>) {
    && scopes != []
    && (forall s :: s in scopes ==> GoodScope(s))
    && (forall i, j :: 0 <= i < j < |scopes| ==> scopes[i] != scopes[j])
  }

  ghost predicate RepositoriesKnown(scopes: seq<Scope>, repositories: set<string>) {
    forall s :: s in scopes && s.repository != None ==> s.repository.value in repositories
  }

  // One client with the requested secret and expiry, and one open grant for each scope asked for, in order.
  ghost predicate Created(before: Db, after: Db, id: string, req: CreateRequest, e: int) {
    && after.clients == before.clients[id := Client(req.secret, Some(e), None)]
    && |after.grants| == |before.grants| + |req.grants|
    && (forall i :: 0 <= i < |before.grants| ==> after.grants[i] == before.grants[i])
    && (forall k :: 0 <= k < |req.grants| ==> after.grants[|before.grants| + k] == Grant(id, req.grants[k], Some(e), None))
  }

  lemma CheckGrantsExactly(req: CreateRequest)
    ensures CheckGrants(req) ==
      if !ScopesAccepted(req.grants) then Some(SchemaInvalid)
      else if !RepositoriesKnown(req.grants, req.repositories) then Some(NotFound)
      else None
  {
    assert forall s :: GoodScope(s) <==> WellFormedScope(s);
    hide GoodScope, WellFormedScope;
  }

  // Creation succeeds iff expiry, scopes, repositories and attribution are all accepted, and is
  // refused for the first that is not.
  lemma CreateTokenExactly(db: Db, req: CreateRequest, now: int, id: string)
    ensures var expiry, named := TokenExpiry(req.expiry, now, None), Attribute(db.directory, req.attribution, id);
            if expiry.Err? || !ScopesAccepted(req.grants) then Create(db, req, now, id) == Err(SchemaInvalid)
            else if !RepositoriesKnown(req.grants, req.repositories) then Create(db, req, now, id) == Err(NotFound)
            else if named.Err? then Create(db, req, now, id) == Err(named.error)
            else
              && Create(db, req, now, id).Ok?
              && Created(db, Create(db, req, now, id).value, id, req, expiry.value)
              && Create(db, req, now, id).value.directory == named.value
  {
    hide TokenExpiry, CheckGrants, Attribute, ScopesAccepted, RepositoriesKnown;
    ExpiryAsAsked(req.expiry, now, None);
    CheckGrantsExactly(req);
  }

  // A new token passes exactly the checks its request asked for, on the repository or on all of
  // them, until it expires, whichever of its rows is read.
  lemma CreatedAuthority(db: Db, req: CreateRequest, now: int, id: string, capability: string, repository: string, at: int)
    requires Known(db) && id !in db.clients && Create(db, req, now, id).Ok?
    ensures var after, e := Create(db, req, now, id).value, TokenExpiry(req.expiry, now, None).value;
            var asked := Scope(capability, Some(repository)) in req.grants || Scope(capability, None) in req.grants;
            && (Authorized(after, id, capability, repository, at) <==> asked && at < e)
            && (AlwaysAuthorized(after, id, capability, repository, at) <==> asked && at < e)
  {
    hide TokenExpiry, Attribute, CheckGrants, HasScope, LiveScope, AllLive, ScopesAccepted, RepositoriesKnown;
    var after, e := Create(db, req, now, id).value, TokenExpiry(req.expiry, now, None).value;
    CreateTokenExactly(db, req, now, id);
    CreatedScope(db, after, req, id, e, Scope(capability, Some(repository)), at);
    CreatedScope(db, after, req, id, e, Scope(capability, None), at);
  }

  lemma CreatedScope(db: Db, after: Db, req: CreateRequest, id: string, e: int, s: Scope, at: int)
    requires Known(db) && id !in db.clients && Created(db, after, id, req, e)
    ensures HasScope(after.grants, id, s) <==> s in req.grants
    ensures LiveScope(after.grants, id, s, at) <==> s in req.grants && at < e
    ensures at < e ==> AllLive(after.grants, id, s, at)
  {
    forall i | 0 <= i < |after.grants| && after.grants[i].client == id
      ensures after.grants[i].scope in req.grants && after.grants[i] == Grant(id, after.grants[i].scope, Some(e), None)
    {
      OwnRow(db, after, req, id, e, i);
    }
    if s in req.grants {
      var k :| 0 <= k < |req.grants| && req.grants[k] == s;
      assert after.grants[|db.grants| + k] == Grant(id, s, Some(e), None);
    }
    hide Created, Known;
  }

  lemma OwnRow(db: Db, after: Db, req: CreateRequest, id: string, e: int, i: nat)
    requires Known(db) && id !in db.clients && Created(db, after, id, req, e)
    requires i < |after.grants| && after.grants[i].client == id
    ensures after.grants[i].scope in req.grants && after.grants[i] == Grant(id, after.grants[i].scope, Some(e), None)
  {
    var n := |db.grants|;
    if i >= n {
      assert after.grants[n + (i - n)] == Grant(id, req.grants[i - n], Some(e), None);
    }
  }

  // ---------------------------------------------------------------- over runs

  // In any run, a revocation or rotation of an unknown token, or with a secret that is not the
  // token's own, leaves every table as it was.
  lemma WrongTargetChangesNothing(events: seq<Event>, t: Target, now: int, req: RotateRequest, id: string)
    requires !Presented(Run(EMPTY, events).clients, t) && req.target == t
    ensures Run(EMPTY, events + [Event.RevokeToken(t, now)]) == Run(EMPTY, events)
    ensures Run(EMPTY, events + [Event.RotateToken(req, now, id)]) == Run(EMPTY, events)
  {
    hide Presented, Revoke, RotationError;
    var db := Run(EMPTY, events);
    RevokeExactly(db, t, now);
    RotationRefusedExactly(db, req, now);
    assert (events + [Event.RevokeToken(t, now)])[..|events|] == events;
    assert (events + [Event.RotateToken(req, now, id)])[..|events|] == events;
  }

  // And one that succeeds leaves the old token with nothing: closed at that instant, or before.
  lemma PresentedTargetIsClosed(events: seq<Event>, t: Target, now: int)
    requires Presented(Run(EMPTY, events).clients, t)
    ensures var before, after := Run(EMPTY, events), Run(EMPTY, events + [Event.RevokeToken(t, now)]);
            && after.clients == before.clients[t.client := ClosedRow(before.clients[t.client], now)]
            && RowsClosed(before.grants, after.grants, t.client, now) && after.directory == before.directory
  {
    hide Presented, Revoke, ClosedRow, RowsClosed;
    RevokeExactly(Run(EMPTY, events), t, now);
    assert (events + [Event.RevokeToken(t, now)])[..|events|] == events;
  }
}
