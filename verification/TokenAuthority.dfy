/**
  What tokens may do over whole runs: invariants of the token tables, the authority a rotation
  hands on, and the authority that can never come back.
 */
module TokenAuthority {
  import opened Wrappers
  import opened Principals
  import opened Tokens

  // ---------------------------------------------------------------- authority at an instant

  ghost predicate HasScope(grants: seq<Grant>, client: string, s: Scope) {
    exists i :: 0 <= i < |grants| && grants[i].client == client && grants[i].revokedAt.None? && grants[i].scope == s
  }

  ghost predicate LiveScope(grants: seq<Grant>, client: string, s: Scope, at: int) {
    exists i :: 0 <= i < |grants| && Active(grants[i], client, at) && grants[i].scope == s
  }

  // No unrevoked row of the scope has expired.
  ghost predicate AllLive(grants: seq<Grant>, client: string, s: Scope, at: int) {
    forall i :: 0 <= i < |grants| && grants[i].client == client && grants[i].revokedAt.None? && grants[i].scope == s ==>
      Unexpired(grants[i].expiresAt, at)
  }

  ghost predicate LiveClient(db: Db, client: string, at: int) {
    client in db.clients && db.clients[client].revokedAt.None? && Unexpired(db.clients[client].expiresAt, at)
  }

  // The request check: a live token, then one of its unrevoked grants of the narrowest scope, which
  // may have expired; a repository grant hides the global one even then. The query does not say
  // which of several rows of that scope it returns, so a request passes for some answer or for every
  // answer.
  ghost predicate Authorized(db: Db, client: string, capability: string, repository: string, at: int) {
    LiveClient(db, client, at)
    && var narrow, wide := Scope(capability, Some(repository)), Scope(capability, None);
       if HasScope(db.grants, client, narrow) then LiveScope(db.grants, client, narrow, at) else LiveScope(db.grants, client, wide, at)
  }

  ghost predicate AlwaysAuthorized(db: Db, client: string, capability: string, repository: string, at: int) {
    LiveClient(db, client, at)
    && var narrow, wide := Scope(capability, Some(repository)), Scope(capability, None);
       if HasScope(db.grants, client, narrow) then AllLive(db.grants, client, narrow, at)
       else HasScope(db.grants, client, wide) && AllLive(db.grants, client, wide, at)
  }

  // ---------------------------------------------------------------- invariants

  ghost predicate Known(db: Db) {
    forall i :: 0 <= i < |db.grants| ==> db.grants[i].client in db.clients && db.grants[i].scope.repository != Some("")
  }

  // No client has two unrevoked grants of one scope.
  ghost predicate Unambiguous(db: Db) {
    forall i, j ::
      0 <= i < j < |db.grants| && db.grants[i].client == db.grants[j].client && db.grants[i].revokedAt.None? && db.grants[j].revokedAt.None? ==>
      db.grants[i].scope != db.grants[j].scope
  }

  lemma LiveIsAllLive(db: Db, client: string, s: Scope, at: int)
    requires Unambiguous(db)
    ensures LiveScope(db.grants, client, s, at) <==> HasScope(db.grants, client, s) && AllLive(db.grants, client, s, at)
  {
    if HasScope(db.grants, client, s) {
      var i :| 0 <= i < |db.grants| && db.grants[i].client == client && db.grants[i].revokedAt.None? && db.grants[i].scope == s;
      forall j | 0 <= j < |db.grants| && db.grants[j].client == client && db.grants[j].revokedAt.None? && db.grants[j].scope == s
        ensures j == i
      {
        assert !(i < j) && !(j < i);
      }
    }
  }

  // Where no client has two unrevoked grants of one scope, every answer is the same.
  lemma AnswersAgree(db: Db, client: string, capability: string, repository: string, at: int)
    requires Unambiguous(db)
    ensures AlwaysAuthorized(db, client, capability, repository, at) <==> Authorized(db, client, capability, repository, at)
  {
    hide HasScope, LiveScope, AllLive, Unambiguous;
    LiveIsAllLive(db, client, Scope(capability, Some(repository)), at);
    LiveIsAllLive(db, client, Scope(capability, None), at);
  }

  ghost predicate AtMost(a: Option<int>, b: Option<int>) {
    b.None? || (a.Some? && a.value <= b.value)
  }

  // A grant expires no later than its client, and all grants of a client expire together.
  ghost predicate Bounded(db: Db) {
    forall i :: 0 <= i < |db.grants| && db.grants[i].client in db.clients ==>
      AtMost(db.grants[i].expiresAt, db.clients[db.grants[i].client].expiresAt)
  }

  ghost predicate Uniform(db: Db) {
    forall i, j :: 0 <= i < j < |db.grants| && db.grants[i].client == db.grants[j].client ==>
      db.grants[i].expiresAt == db.grants[j].expiresAt
  }

  ghost predicate RevokedClean(db: Db) {
    forall i ::
      0 <= i < |db.grants| && db.grants[i].client in db.clients && db.clients[db.grants[i].client].revokedAt.Some? ==>
      db.grants[i].revokedAt.Some?
  }

  ghost predicate LinksKnown(db: Db) {
    ValidDirectory(db.directory) && "" !in db.clients && forall x :: ActiveOwner(db.directory.links, x).Some? ==> x in db.clients
  }

  ghost predicate GrantsOk(db: Db) {
    Known(db) && Unambiguous(db) && Bounded(db) && Uniform(db) && RevokedClean(db)
  }

  ghost predicate Inv(db: Db) {
    GrantsOk(db) && LinksKnown(db)
  }

  lemma RevokeKeepsGrants(db: Db, client: string, now: int)
    requires GrantsOk(db) && client in db.clients
    ensures GrantsOk(RevokeClient(db, client, now))
  {
    var e := RevokeClient(db, client, now);
    assert forall i :: 0 <= i < |e.grants| ==> e.grants[i] == RevokedGrant(db.grants[i], client, now);
    assert Known(e) && Bounded(e) && RevokedClean(e);
    assert Unambiguous(e);
    assert Uniform(e);
  }

  // What a new client's grants have to satisfy.
  ghost predicate GoodGrants(gs: seq<NewGrant>, e: int) {
    && (forall i :: 0 <= i < |gs| ==> gs[i].scope.repository != Some("") && AtMost(gs[i].expiresAt, Some(e)))
    && (forall i, j :: 0 <= i < j < |gs| ==> gs[i].scope != gs[j].scope && gs[i].expiresAt == gs[j].expiresAt)
  }

  lemma InsertKeepsGrants(db: Db, id: string, secret: string, e: int, gs: seq<NewGrant>)
    requires GrantsOk(db) && id !in db.clients && GoodGrants(gs, e)
    ensures GrantsOk(InsertClient(db, id, secret, e, gs))
  {
    var after, n := InsertClient(db, id, secret, e, gs), |db.grants|;
    assert forall i :: 0 <= i < |after.grants| ==>
      after.grants[i] == if i < n then db.grants[i] else Grant(id, gs[i - n].scope, gs[i - n].expiresAt, None);
    assert Known(after) && Bounded(after) && RevokedClean(after);
    assert Unambiguous(after);
    assert Uniform(after);
  }

  lemma {:induction false} ActiveGrantsMembers(grants: seq<Grant>, client: string, now: int, g: NewGrant)
    ensures g in ActiveGrants(grants, client, now) <==>
              exists i :: 0 <= i < |grants| && Active(grants[i], client, now) && g == NewGrant(grants[i].scope, grants[i].expiresAt)
    decreases |grants|
  {
    if grants != [] {
      ActiveGrantsMembers(grants[1..], client, now, g);
      assert forall i :: 0 < i < |grants| ==> grants[i] == grants[1..][i - 1];
    }
  }

  ghost predicate GoodList(gs: seq<NewGrant>) {
    && (forall i :: 0 <= i < |gs| ==> gs[i].scope.repository != Some(""))
    && (forall i, j :: 0 <= i < j < |gs| ==> gs[i].scope != gs[j].scope && gs[i].expiresAt == gs[j].expiresAt)
  }

  lemma {:induction false} ActiveGrantsAreGood(grants: seq<Grant>, client: string, now: int)
    requires forall i :: 0 <= i < |grants| ==> grants[i].scope.repository != Some("")
    requires forall i, j :: 0 <= i < j < |grants| && grants[i].client == grants[j].client == client ==>
      grants[i].expiresAt == grants[j].expiresAt && (grants[i].revokedAt.None? && grants[j].revokedAt.None? ==>
        grants[i].scope != grants[j].scope)
    ensures GoodList(ActiveGrants(grants, client, now))
    decreases |grants|
  {
    if grants != [] {
      var all, rest := ActiveGrants(grants, client, now), ActiveGrants(grants[1..], client, now);
      ActiveGrantsAreGood(grants[1..], client, now);
      if Active(grants[0], client, now) {
        forall j | 0 <= j < |rest|
          ensures rest[j].scope != grants[0].scope && rest[j].expiresAt == grants[0].expiresAt
        {
          ActiveGrantsMembers(grants[1..], client, now, rest[j]);
          assert rest[j] in rest;
        }
        assert forall k :: 0 < k < |all| ==> all[k] == rest[k - 1];
      } else {
        assert all == rest;
      }
    }
  }

  lemma CappedIsGood(gs: seq<NewGrant>, e: int)
    requires GoodList(gs)
    ensures GoodGrants(Capped(gs, Some(e)), e)
  {
  }

  // ---------------------------------------------------------------- runs

  datatype Event =
    | CreateToken(create: CreateRequest, now: int, newId: string)
    | RotateToken(rotate: RotateRequest, now: int, newId: string)
    | RevokeToken(target: Target, now: int)

  // A refused operation changes nothing; a new id that is taken fails the insert.
  function Next(db: Db, ev: Event): Db {
    if !ev.RevokeToken? && (ev.newId in db.clients || ev.newId == "") then db
    else
      var r := match ev
        case CreateToken(req, now, id) => Create(db, req, now, id)
        case RotateToken(req, now, id) => Rotate(db, req, now, id)
        case RevokeToken(t, now) => Revoke(db, t, now);
      if r.Ok? then r.value else db
  }

  function Run(db: Db, events: seq<Event>): Db
    decreases |events|
  {
    if events == [] then db else Next(Run(db, events[..|events| - 1]), events[|events| - 1])
  }

  const EMPTY := Db(map[], [], Directory(map[], []))

  lemma CreateKeepsInv(db: Db, req: CreateRequest, now: int, id: string)
    requires Inv(db) && id !in db.clients && id != "" && Create(db, req, now, id).Ok?
    ensures Inv(Create(db, req, now, id).value)
  {
    hide GrantsOk, ValidDirectory, Attribute, CAPABILITIES;
    var e := TokenExpiry(req.expiry, now, None).value;
    InsertKeepsGrants(db, id, req.secret, e, Granted(req.grants, Some(e)));
    AttributeKeepsValid(db.directory, req.attribution, id);
    GrantsIgnoreDirectory(InsertClient(db, id, req.secret, e, Granted(req.grants, Some(e))), Create(db, req, now, id).value);
  }

  lemma GrantsIgnoreDirectory(a: Db, b: Db)
    requires a.clients == b.clients && a.grants == b.grants
    ensures GrantsOk(a) <==> GrantsOk(b)
  {
  }

  lemma RotatedKeepsGrants(db: Db, req: RotateRequest, now: int, id: string)
    requires GrantsOk(db) && id !in db.clients && RotationError(db, req, now).None?
    ensures GrantsOk(Rotated(db, req, now, id))
  {
    hide ActiveGrants, GoodGrants;
    var o := req.target.client;
    var e := TokenExpiry(req.expiry, now, db.clients[o].expiresAt).value;
    ActiveGrantsAreGood(db.grants, o, now);
    CappedIsGood(ActiveGrants(db.grants, o, now), e);
    RevokeKeepsGrants(db, o, now);
    InsertKeepsGrants(RevokeClient(db, o, now), id, req.secret, e, Capped(ActiveGrants(db.grants, o, now), Some(e)));
  }

  lemma RotateKeepsInv(db: Db, req: RotateRequest, now: int, id: string)
    requires Inv(db) && id !in db.clients && id != "" && Rotate(db, req, now, id).Ok?
    ensures Inv(Rotate(db, req, now, id).value)
  {
    hide GrantsOk, ValidDirectory, CarryAcrossRotation, ActiveGrants;
    var o := req.target.client;
    RotatedKeepsGrants(db, req, now, id);
    GrantsIgnoreDirectory(Rotated(db, req, now, id), Rotate(db, req, now, id).value);
    CarryKeepsValid(db.directory, req.attribution, o, id);
  }

  // As RotationMovesOwner, without assuming the old client's id is not the empty string.
  lemma CarryKeepsValid(d: Directory, a: Attribution, oldId: string, newId: string)
    requires ValidDirectory(d) && newId != "" && oldId != newId && ActiveOwner(d.links, newId) == None
    requires CarryAcrossRotation(d, a, oldId, newId).Ok?
    ensures var e := CarryAcrossRotation(d, a, oldId, newId).value;
            ValidDirectory(e) && forall x :: x != newId && ActiveOwner(e.links, x).Some? ==> ActiveOwner(d.links, x).Some?
  {
    hide ValidDirectory, Attribute, LinkClient, UnlinkClient, ActiveOwner;
    if a.principalId != "" {
      AttributeKeepsValid(d, a, newId);
      UnlinkKeepsValid(Attribute(d, a, newId).value, oldId);
    } else if Resolve(d, oldId).Some? {
      UnlinkKeepsValid(d, oldId);
      LinkKeepsValid(UnlinkClient(d, oldId), Resolve(d, oldId).value, newId);
    }
  }

  lemma NextKeepsInv(db: Db, ev: Event)
    requires Inv(db)
    ensures Inv(Next(db, ev))
  {
    hide Inv, Create, Rotate, RevokeClient;
    if ev.RevokeToken? {
      if Revoke(db, ev.target, ev.now).Ok? {
        RevokeKeepsInv(db, ev.target.client, ev.now);
      }
    } else if ev.newId !in db.clients && ev.newId != "" {
      if ev.CreateToken? && Create(db, ev.create, ev.now, ev.newId).Ok? {
        CreateKeepsInv(db, ev.create, ev.now, ev.newId);
      } else if ev.RotateToken? && Rotate(db, ev.rotate, ev.now, ev.newId).Ok? {
        RotateKeepsInv(db, ev.rotate, ev.now, ev.newId);
      }
    }
  }

  lemma RevokeKeepsInv(db: Db, client: string, now: int)
    requires Inv(db) && client in db.clients
    ensures Inv(RevokeClient(db, client, now))
  {
    hide GrantsOk, ValidDirectory;
    RevokeKeepsGrants(db, client, now);
  }

  // In every reachable state no client has two unrevoked grants of one scope, grants expire with
  // or before their client and all at once, a revoked client has none left, and every client has
  // at most one principal.
  lemma {:induction false} RunKeepsInv(events: seq<Event>)
    ensures Inv(Run(EMPTY, events))
    decreases |events|
  {
    if events != [] {
      RunKeepsInv(events[..|events| - 1]);
      NextKeepsInv(Run(EMPTY, events[..|events| - 1]), events[|events| - 1]);
    }
  }

  // ---------------------------------------------------------------- what a rotation hands on

  // A list of new grants offers a scope, and still does at an instant.
  ghost predicate Offers(gs: seq<NewGrant>, s: Scope) {
    exists k :: 0 <= k < |gs| && gs[k].scope == s
  }

  ghost predicate OffersAt(gs: seq<NewGrant>, s: Scope, at: int) {
    exists k :: 0 <= k < |gs| && gs[k].scope == s && Unexpired(gs[k].expiresAt, at)
  }

  lemma InsertedScopes(grants: seq<Grant>, id: string, gs: seq<NewGrant>, s: Scope, at: int)
    requires forall i :: 0 <= i < |grants| ==> grants[i].client != id
    ensures HasScope(grants + Rows(id, gs), id, s) <==> Offers(gs, s)
    ensures LiveScope(grants + Rows(id, gs), id, s, at) <==> OffersAt(gs, s, at)
  {
    var after, n := grants + Rows(id, gs), |grants|;
    assert forall k :: 0 <= k < |gs| ==> after[n + k] == Grant(id, gs[k].scope, gs[k].expiresAt, None);
    if k :| 0 <= k < |gs| && gs[k].scope == s {
      assert after[n + k].scope == s;
    }
    if k :| 0 <= k < |gs| && gs[k].scope == s && Unexpired(gs[k].expiresAt, at) {
      assert after[n + k].scope == s;
    }
  }

  lemma CappedScopes(gs: seq<NewGrant>, e: int, s: Scope, at: int)
    ensures Offers(Capped(gs, Some(e)), s) <==> Offers(gs, s)
    ensures OffersAt(Capped(gs, Some(e)), s, at) <==> at < e && OffersAt(gs, s, at)
  {
    var capped := Capped(gs, Some(e));
    forall k | 0 <= k < |gs|
      ensures capped[k].scope == gs[k].scope && (Unexpired(capped[k].expiresAt, at) <==> at < e && Unexpired(gs[k].expiresAt, at))
    {
      MinIsUnexpiredIff(gs[k].expiresAt, Some(e), at);
    }
  }

  lemma ActiveScopes(grants: seq<Grant>, client: string, now: int, s: Scope, at: int)
    requires at >= now
    ensures Offers(ActiveGrants(grants, client, now), s) <==> LiveScope(grants, client, s, now)
    ensures OffersAt(ActiveGrants(grants, client, now), s, at) <==> LiveScope(grants, client, s, at)
  {
    hide ActiveGrants;
    var gs := ActiveGrants(grants, client, now);
    forall k | 0 <= k < |gs|
      ensures exists i :: 0 <= i < |grants| && Active(grants[i], client, now) && gs[k] == NewGrant(grants[i].scope, grants[i].expiresAt)
    {
      assert gs[k] in gs;
      ActiveGrantsMembers(grants, client, now, gs[k]);
    }
    forall i | 0 <= i < |grants| && Active(grants[i], client, now)
      ensures NewGrant(grants[i].scope, grants[i].expiresAt) in gs
    {
      ActiveGrantsMembers(grants, client, now, NewGrant(grants[i].scope, grants[i].expiresAt));
    }
  }

  lemma RotatedScopes(db: Db, req: RotateRequest, now: int, id: string, s: Scope, at: int)
    requires Known(db) && id !in db.clients && RotationError(db, req, now).None? && at >= now
    ensures HasScope(Rotated(db, req, now, id).grants, id, s) <==> LiveScope(db.grants, req.target.client, s, now)
    ensures LiveScope(Rotated(db, req, now, id).grants, id, s, at) <==>
              at < TokenExpiry(req.expiry, now, db.clients[req.target.client].expiresAt).value
                  && LiveScope(db.grants, req.target.client, s, at)
  {
    hide HasScope, LiveScope, Offers, OffersAt, ActiveGrants, Capped, TokenExpiry;
    var o := req.target.client;
    var e := TokenExpiry(req.expiry, now, db.clients[o].expiresAt).value;
    var gs := ActiveGrants(db.grants, o, now);
    InsertedScopes(RevokeGrants(db.grants, o, now), id, Capped(gs, Some(e)), s, at);
    CappedScopes(gs, e, s, at);
    ActiveScopes(db.grants, o, now, s, at);
  }

  // The new token's expiry.
  function NewExpiry(db: Db, req: RotateRequest, now: int): int
    requires RotationError(db, req, now).None?
  {
    TokenExpiry(req.expiry, now, db.clients[req.target.client].expiresAt).value
  }

  // The successor's authority in terms of the old token's grants.
  lemma SuccessorAuthority(db: Db, req: RotateRequest, now: int, id: string, capability: string, repository: string, at: int)
    requires Known(db) && id !in db.clients && RotationError(db, req, now).None? && at >= now
    ensures var o, narrow, wide := req.target.client, Scope(capability, Some(repository)), Scope(capability, None);
            Authorized(Rotated(db, req, now, id), id, capability, repository, at) <==>
              at < NewExpiry(db, req, now)
              && (if LiveScope(db.grants, o, narrow, now) then LiveScope(db.grants, o, narrow, at) else LiveScope(db.grants, o, wide, at))
  {
    hide HasScope, LiveScope, TokenExpiry;
    RotatedScopes(db, req, now, id, Scope(capability, Some(repository)), at);
    RotatedScopes(db, req, now, id, Scope(capability, None), at);
    RotatedClient(db, req, now, id);
  }

  lemma RotatedClient(db: Db, req: RotateRequest, now: int, id: string)
    requires id !in db.clients && RotationError(db, req, now).None?
    ensures var after := Rotated(db, req, now, id);
            id in after.clients && after.clients[id].revokedAt.None? && after.clients[id].expiresAt == Some(NewExpiry(db, req, now))
  {
  }

  // What a caller can check before rotating: no active grant outlives the old client up to the new
  // expiry, no active grant has an expired duplicate, and no active global grant is hidden by an
  // expired repository grant.
  ghost predicate Tame(db: Db, client: string, now: int, newExpiry: int)
    requires client in db.clients
  {
    && (forall i :: 0 <= i < |db.grants| && Active(db.grants[i], client, now) ==>
          AtMost(MinOptionalTime(db.grants[i].expiresAt, Some(newExpiry)), db.clients[client].expiresAt))
    && (forall s :: LiveScope(db.grants, client, s, now) ==> AllLive(db.grants, client, s, now))
    && (forall capability, repository ::
          LiveScope(db.grants, client, Scope(capability, None), now) && HasScope(db.grants, client, Scope(capability, Some(repository))) ==>
          LiveScope(db.grants, client, Scope(capability, Some(repository)), now))
  }

  // Whatever the successor may pass, the old token would have passed, whichever rows are read.
  ghost predicate NeverGrows(db: Db, req: RotateRequest, now: int, id: string)
    requires RotationError(db, req, now).None?
  {
    forall capability, repository, at :: at >= now && Authorized(Rotated(db, req, now, id), id, capability, repository, at) ==>
      AlwaysAuthorized(db, req.target.client, capability, repository, at)
  }

  // An active grant without expired duplicates is the only unrevoked one of its scope.
  lemma OneActiveRow(grants: seq<Grant>, client: string, s: Scope, now: int, at: int)
    requires !ScopeAmbiguous(grants, client, now) && at >= now
    requires LiveScope(grants, client, s, at) && AllLive(grants, client, s, now)
    ensures HasScope(grants, client, s) && LiveScope(grants, client, s, now) && AllLive(grants, client, s, at)
  {
    var i :| 0 <= i < |grants| && Active(grants[i], client, at) && grants[i].scope == s;
    assert Active(grants[i], client, now);
    forall j | 0 <= j < |grants| && grants[j].client == client && grants[j].revokedAt.None? && grants[j].scope == s
      ensures j == i
    {
      assert Active(grants[j], client, now);
    }
  }

  lemma LiveHas(grants: seq<Grant>, client: string, s: Scope, at: int)
    requires LiveScope(grants, client, s, at)
    ensures HasScope(grants, client, s)
  {
  }

  lemma TameNeverGrows(db: Db, req: RotateRequest, now: int, id: string)
    requires Known(db) && id !in db.clients && RotationError(db, req, now).None?
    requires Tame(db, req.target.client, now, NewExpiry(db, req, now))
    ensures NeverGrows(db, req, now, id)
  {
    hide TokenExpiry, Rotated, Known, ScopeAmbiguous, HasScope, AllLive;
    var o := req.target.client;
    forall capability, repository, at | at >= now && Authorized(Rotated(db, req, now, id), id, capability, repository, at)
      ensures AlwaysAuthorized(db, o, capability, repository, at)
    {
      SuccessorAuthority(db, req, now, id, capability, repository, at);
      var narrow, wide := Scope(capability, Some(repository)), Scope(capability, None);
      var s := if LiveScope(db.grants, o, narrow, now) then narrow else wide;
      var i :| 0 <= i < |db.grants| && Active(db.grants[i], o, at) && db.grants[i].scope == s;
      assert Active(db.grants[i], o, now);
      assert LiveScope(db.grants, o, s, now);
      OneActiveRow(db.grants, o, s, now, at);
    }
  }

  // A grant that outlives its client gives the successor something at the old client's expiry.
  lemma OutlivingGrows(db: Db, req: RotateRequest, now: int, id: string, i: nat)
    requires Known(db) && id !in db.clients && RotationError(db, req, now).None?
    requires i < |db.grants| && Active(db.grants[i], req.target.client, now)
    requires !AtMost(MinOptionalTime(db.grants[i].expiresAt, Some(NewExpiry(db, req, now))), db.clients[req.target.client].expiresAt)
    ensures !NeverGrows(db, req, now, id)
  {
    hide TokenExpiry, Rotated;
    var o, g := req.target.client, db.grants[i];
    var at := db.clients[o].expiresAt.value;
    var repository := g.scope.repository.GetOr("");
    MinIsUnexpiredIff(g.expiresAt, Some(NewExpiry(db, req, now)), at);
    SuccessorAuthority(db, req, now, id, g.scope.capability, repository, at);
    assert LiveScope(db.grants, o, g.scope, at) && LiveScope(db.grants, o, g.scope, now);
    assert g.scope.repository.None? ==> !HasScope(db.grants, o, Scope(g.scope.capability, Some("")));
    assert Authorized(Rotated(db, req, now, id), id, g.scope.capability, repository, at);
    assert !AlwaysAuthorized(db, o, g.scope.capability, repository, at);
  }

  // A global grant hidden by an expired repository grant comes out of hiding.
  lemma HiddenGrows(db: Db, req: RotateRequest, now: int, id: string, capability: string, repository: string)
    requires Known(db) && id !in db.clients && RotationError(db, req, now).None?
    requires var o := req.target.client;
             && LiveScope(db.grants, o, Scope(capability, None), now)
             && HasScope(db.grants, o, Scope(capability, Some(repository)))
             && !LiveScope(db.grants, o, Scope(capability, Some(repository)), now)
    ensures !NeverGrows(db, req, now, id)
  {
    hide Rotated, HasScope, LiveScope, Known;
    SuccessorAuthority(db, req, now, id, capability, repository, now);
    NotAllLive(db.grants, req.target.client, Scope(capability, Some(repository)), now);
    assert Authorized(Rotated(db, req, now, id), id, capability, repository, now);
    assert !AlwaysAuthorized(db, req.target.client, capability, repository, now);
  }

  lemma NotAllLive(grants: seq<Grant>, client: string, s: Scope, at: int)
    requires HasScope(grants, client, s) && !LiveScope(grants, client, s, at)
    ensures !AllLive(grants, client, s, at)
  {
    var i :| 0 <= i < |grants| && grants[i].client == client && grants[i].revokedAt.None? && grants[i].scope == s;
    assert !Active(grants[i], client, at);
  }

  // The successor drops an expired duplicate that the old token's request check could still meet.
  lemma DuplicateGrows(db: Db, req: RotateRequest, now: int, id: string, s: Scope)
    requires Known(db) && id !in db.clients && RotationError(db, req, now).None?
    requires LiveScope(db.grants, req.target.client, s, now) && !AllLive(db.grants, req.target.client, s, now)
    ensures !NeverGrows(db, req, now, id)
  {
    hide Rotated, LiveScope, AllLive, TokenExpiry;
    var o := req.target.client;
    var repository := s.repository.GetOr("");
    SuccessorAuthority(db, req, now, id, s.capability, repository, now);
    LiveHas(db.grants, o, s, now);
    if s.repository.None? {
      NoBlankRepository(db, o, s.capability, now);
    }
    assert s == Scope(s.capability, Some(repository)) || s == Scope(s.capability, None);
    assert Authorized(Rotated(db, req, now, id), id, s.capability, repository, now);
    assert !AlwaysAuthorized(db, o, s.capability, repository, now);
  }

  lemma NoBlankRepository(db: Db, client: string, capability: string, at: int)
    requires Known(db)
    ensures !HasScope(db.grants, client, Scope(capability, Some(""))) && !LiveScope(db.grants, client, Scope(capability, Some("")), at)
  {
  }

  // From any tables whose grants name known clients, a rotation grows authority exactly where that
  // check fails.
  lemma RotationGrowsIff(db: Db, req: RotateRequest, now: int, id: string)
    requires Known(db) && id !in db.clients && RotationError(db, req, now).None?
    ensures NeverGrows(db, req, now, id) <==> Tame(db, req.target.client, now, NewExpiry(db, req, now))
  {
    hide NeverGrows, TokenExpiry, Known, HasScope, LiveScope, AllLive;
    var o, e := req.target.client, NewExpiry(db, req, now);
    if Tame(db, o, now, e) {
      TameNeverGrows(db, req, now, id);
    } else if i: nat :|
      i < |db.grants| && Active(db.grants[i], o, now) && !AtMost(MinOptionalTime(db.grants[i].expiresAt, Some(e)), db.clients[o].expiresAt)
    {
      OutlivingGrows(db, req, now, id, i);
    } else if s :| LiveScope(db.grants, o, s, now) && !AllLive(db.grants, o, s, now) {
      DuplicateGrows(db, req, now, id, s);
    } else {
      var capability, repository :|
        && LiveScope(db.grants, o, Scope(capability, None), now)
        && HasScope(db.grants, o, Scope(capability, Some(repository)))
        && !LiveScope(db.grants, o, Scope(capability, Some(repository)), now);
      HiddenGrows(db, req, now, id, capability, repository);
    }
  }

  // The duplicate is not excluded by the ambiguity check, which counts active rows only: an expired
  // and an active grant of one scope rotate, the old token may be denied and the new one may pass.
  const EXPIRED_AND_LIVE: Db :=
    Db(map["a" := Client("secret", None, None)],
       [Grant("a", Scope("read", None), Some(5), None), Grant("a", Scope("read", None), None, None)],
       Directory(map[], []))

  lemma ExpiredDuplicateGrows()
    ensures var db, req := EXPIRED_AND_LIVE, RotateRequest(Target("a", None), InSeconds(60), "new", Attribution("", "", ""));
      && Known(db) && RotationError(db, req, 10).None?
      && Authorized(db, "a", "read", "r", 10) && !AlwaysAuthorized(db, "a", "read", "r", 10)
      && AlwaysAuthorized(Rotated(db, req, 10, "b"), "b", "read", "r", 10)
      && !NeverGrows(db, req, 10, "b")
  {
    var db, req := EXPIRED_AND_LIVE, RotateRequest(Target("a", None), InSeconds(60), "new", Attribution("", "", ""));
    var wide := Scope("read", None);
    assert db.grants[1..][1..] == [];
    assert ActiveGrants(db.grants, "a", 10) == [NewGrant(wide, None)];
    assert RotationError(db, req, 10).None?;
    assert Active(db.grants[1], "a", 10) && db.grants[0].scope == wide;
    assert LiveScope(db.grants, "a", wide, 10) && !AllLive(db.grants, "a", wide, 10);
    DuplicateGrows(db, req, 10, "b", wide);
    var rows := Rotated(db, req, 10, "b").grants;
    assert |rows| == 3 && rows[2] == Grant("b", wide, Some(70), None);
  }

  // In a reachable state every answer is the same, before and after, and the successor has, at every
  // instant from now on, exactly the old token's authority cut off at the new expiry.
  lemma RotationIsExact(db: Db, req: RotateRequest, now: int, id: string, capability: string, repository: string, at: int)
    requires Inv(db) && id !in db.clients && RotationError(db, req, now).None? && at >= now
    ensures Authorized(Rotated(db, req, now, id), id, capability, repository, at) <==>
              at < NewExpiry(db, req, now) && Authorized(db, req.target.client, capability, repository, at)
    ensures AlwaysAuthorized(Rotated(db, req, now, id), id, capability, repository, at) <==>
              at < NewExpiry(db, req, now) && AlwaysAuthorized(db, req.target.client, capability, repository, at)
  {
    RotatedKeepsGrants(db, req, now, id);
    AnswersAgree(db, req.target.client, capability, repository, at);
    AnswersAgree(Rotated(db, req, now, id), id, capability, repository, at);
    SuccessorIsExact(db, req, now, id, capability, repository, at);
    hide Known, Bounded, Uniform, RevokedClean, Unambiguous, LinksKnown, Authorized, AlwaysAuthorized, Rotated, TokenExpiry;
  }

  lemma SuccessorIsExact(db: Db, req: RotateRequest, now: int, id: string, capability: string, repository: string, at: int)
    requires Inv(db) && id !in db.clients && RotationError(db, req, now).None? && at >= now
    ensures Authorized(Rotated(db, req, now, id), id, capability, repository, at) <==>
              at < NewExpiry(db, req, now) && Authorized(db, req.target.client, capability, repository, at)
  {
    hide TokenExpiry, Rotated;
    var o, narrow, wide := req.target.client, Scope(capability, Some(repository)), Scope(capability, None);
    SuccessorAuthority(db, req, now, id, capability, repository, at);
    AllActive(db, req, now, narrow);
    if s :| (s == narrow || s == wide) && LiveScope(db.grants, o, s, at) {
      WithinClient(db, o, s, at);
    }
  }

  lemma WithinClient(db: Db, client: string, s: Scope, at: int)
    requires Known(db) && Bounded(db) && LiveScope(db.grants, client, s, at)
    ensures client in db.clients && Unexpired(db.clients[client].expiresAt, at)
  {
  }

  // All grants of a client expire together, so where one is active every unrevoked one is.
  lemma AllActive(db: Db, req: RotateRequest, now: int, s: Scope)
    requires Uniform(db) && RotationError(db, req, now).None?
    ensures HasScope(db.grants, req.target.client, s) <==> LiveScope(db.grants, req.target.client, s, now)
  {
    hide TokenExpiry;
    var o := req.target.client;
    var gs := ActiveGrants(db.grants, o, now);
    assert gs[0] in gs;
    ActiveGrantsMembers(db.grants, o, now, gs[0]);
    var j :| 0 <= j < |db.grants| && Active(db.grants[j], o, now);
    if i :| 0 <= i < |db.grants| && db.grants[i].client == o && db.grants[i].revokedAt.None? && db.grants[i].scope == s {
      assert db.grants[i].expiresAt == db.grants[j].expiresAt;
      assert Active(db.grants[i], o, now);
    }
  }

  // A rotation that names no principal moves the old client's attribution to the new one and
  // leaves every principal with as many active clients as before.
  lemma RotationKeepsPrincipal(db: Db, req: RotateRequest, now: int, id: string, principal: string)
    requires Inv(db) && id !in db.clients && id != "" && Rotate(db, req, now, id).Ok? && req.attribution.principalId == ""
    ensures var before, after := db.directory, Rotate(db, req, now, id).value.directory;
            && ActiveOwner(after.links, id) == ActiveOwner(before.links, req.target.client)
            && ActiveOwner(after.links, req.target.client) == None
            && ActiveCount(after.links, principal) == ActiveCount(before.links, principal)
  {
    hide GrantsOk, ValidDirectory, CarryAcrossRotation, ActiveOwner, ActiveCount, TokenExpiry, ActiveGrants, Rotated;
    RotationMovesOwner(db.directory, req.attribution, req.target.client, id);
    RotationConservesCounts(db.directory, req.attribution, req.target.client, id, principal);
  }

  // ---------------------------------------------------------------- what never comes back

  lemma RevokedHasNothing(db: Db, client: string, now: int, s: Scope)
    requires client in db.clients
    ensures !HasScope(RevokeClient(db, client, now).grants, client, s)
    ensures RevokeClient(db, client, now).clients[client].revokedAt.Some?
  {
    var e := RevokeClient(db, client, now);
    assert forall i :: 0 <= i < |e.grants| ==> e.grants[i] == RevokedGrant(db.grants[i], client, now);
  }

  // A client already there keeps, over one operation, at most the scopes it had; other clients
  // than the one revoked or rotated keep all of them.
  ghost predicate NoMore(before: Db, after: Db, client: string) {
    && client in after.clients && client in before.clients
    && after.clients[client].expiresAt == before.clients[client].expiresAt
    && (before.clients[client].revokedAt.Some? ==> after.clients[client].revokedAt == before.clients[client].revokedAt)
    && (after.clients[client].revokedAt.None? ==>
          && (forall s :: HasScope(after.grants, client, s) <==> HasScope(before.grants, client, s))
          && (forall s, at :: LiveScope(after.grants, client, s, at) <==> LiveScope(before.grants, client, s, at))
          && (forall s, at :: AllLive(after.grants, client, s, at) <==> AllLive(before.grants, client, s, at)))
  }

  lemma SameRows(a: seq<Grant>, b: seq<Grant>, extra: seq<Grant>, client: string, s: Scope, at: int)
    requires |a| == |b| && forall i :: 0 <= i < |a| && (a[i].client == client || b[i].client == client) ==> a[i] == b[i]
    requires forall i :: 0 <= i < |extra| ==> extra[i].client != client
    ensures HasScope(b + extra, client, s) <==> HasScope(a, client, s)
    ensures LiveScope(b + extra, client, s, at) <==> LiveScope(a, client, s, at)
    ensures AllLive(b + extra, client, s, at) <==> AllLive(a, client, s, at)
  {
    var all := b + extra;
    assert forall i :: 0 <= i < |a| ==> all[i] == b[i];
    assert forall i :: |a| <= i < |all| ==> all[i].client != client;
  }

  lemma RevokeIsNoMore(db: Db, revoked: string, now: int, client: string)
    requires revoked in db.clients && client in db.clients
    ensures NoMore(db, RevokeClient(db, revoked, now), client)
  {
    hide HasScope, LiveScope, AllLive;
    var e := RevokeClient(db, revoked, now);
    if client != revoked {
      assert e.grants + [] == e.grants;
      forall s
        ensures HasScope(e.grants, client, s) <==> HasScope(db.grants, client, s)
      {
        SameRows(db.grants, e.grants, [], client, s, now);
      }
      forall s, at
        ensures LiveScope(e.grants, client, s, at) <==> LiveScope(db.grants, client, s, at)
        ensures AllLive(e.grants, client, s, at) <==> AllLive(db.grants, client, s, at)
      {
        SameRows(db.grants, e.grants, [], client, s, at);
      }
    }
  }

  lemma InsertIsNoMore(db: Db, id: string, secret: string, e: int, gs: seq<NewGrant>, client: string)
    requires id !in db.clients && client in db.clients
    ensures NoMore(db, InsertClient(db, id, secret, e, gs), client)
  {
    hide HasScope, LiveScope, AllLive;
    var after := InsertClient(db, id, secret, e, gs);
    forall s
      ensures HasScope(after.grants, client, s) <==> HasScope(db.grants, client, s)
    {
      SameRows(db.grants, db.grants, Rows(id, gs), client, s, 0);
    }
    forall s, at
      ensures LiveScope(after.grants, client, s, at) <==> LiveScope(db.grants, client, s, at)
      ensures AllLive(after.grants, client, s, at) <==> AllLive(db.grants, client, s, at)
    {
      SameRows(db.grants, db.grants, Rows(id, gs), client, s, at);
    }
  }

  lemma NoMoreChains(a: Db, b: Db, c: Db, client: string)
    requires NoMore(a, b, client) && NoMore(b, c, client)
    ensures NoMore(a, c, client)
  {
    hide HasScope, LiveScope, AllLive;
  }

  lemma NextIsNoMore(db: Db, ev: Event, client: string)
    requires client in db.clients
    ensures NoMore(db, Next(db, ev), client)
  {
    hide HasScope, LiveScope, AllLive, Attribute, CarryAcrossRotation, CheckGrants, TokenExpiry, ActiveGrants, ScopeAmbiguous, Capped, Rows;
    match ev
    case CreateToken(req, now, id) =>
      if id !in db.clients && Create(db, req, now, id).Ok? {
        var e := TokenExpiry(req.expiry, now, None).value;
        InsertIsNoMore(db, id, req.secret, e, Granted(req.grants, Some(e)), client);
      }
    case RotateToken(req, now, id) =>
      if id !in db.clients && Rotate(db, req, now, id).Ok? {
        var o := req.target.client;
        var e := NewExpiry(db, req, now);
        var revoked := RevokeClient(db, o, now);
        var gs := Capped(ActiveGrants(db.grants, o, now), Some(e));
        RevokeIsNoMore(db, o, now, client);
        InsertIsNoMore(revoked, id, req.secret, e, gs, client);
        NoMoreChains(db, revoked, InsertClient(revoked, id, req.secret, e, gs), client);
      }
    case RevokeToken(t, now) =>
      if Revoke(db, t, now).Ok? {
        RevokeIsNoMore(db, t.client, now, client);
      }
  }

  lemma {:induction false} RunIsNoMore(db: Db, events: seq<Event>, client: string)
    requires client in db.clients
    ensures NoMore(db, Run(db, events), client)
    decreases |events|
  {
    hide HasScope, LiveScope, AllLive, Next;
    if events != [] {
      RunIsNoMore(db, events[..|events| - 1], client);
      NextIsNoMore(Run(db, events[..|events| - 1]), events[|events| - 1], client);
      NoMoreChains(db, Run(db, events[..|events| - 1]), Run(db, events), client);
    }
  }

  // Over any later run a token never gains authority, loses it only by being revoked, and once
  // revoked stays without.
  lemma AuthorityOnlyShrinks(db: Db, events: seq<Event>, client: string, capability: string, repository: string, at: int)
    requires client in db.clients
    ensures var after := Run(db, events);
            && client in after.clients
            && (db.clients[client].revokedAt.Some? ==> after.clients[client].revokedAt.Some?)
            && (Authorized(after, client, capability, repository, at) <==>
                  Authorized(db, client, capability, repository, at) && after.clients[client].revokedAt.None?)
            && (AlwaysAuthorized(after, client, capability, repository, at) <==>
                  AlwaysAuthorized(db, client, capability, repository, at) && after.clients[client].revokedAt.None?)
  {
    hide HasScope, LiveScope, AllLive, Run;
    RunIsNoMore(db, events, client);
  }
}
