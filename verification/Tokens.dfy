/**
  Daemon tokens: creation, rotation and revocation of clients and their capability grants, and the
  authority a token has at an instant. Times are in one unit of the clock; a client and its token
  go by one id.
 */
module Tokens {
  import opened Wrappers
  import opened Principals

  const DEFAULT_TTL := 3600

  const CAPABILITIES: set<string> := {"read", "write", "review", "claim", "apply", "admin", "recovery", "surgical_recovery"}

  datatype Client = Client(secret: string, expiresAt: Option<int>, revokedAt: Option<int>)

  // A capability, on one repository or on all of them.
  datatype Scope = Scope(capability: string, repository: Option<string>)

  // A row of client_capabilities without a session binding.
  datatype Grant = Grant(client: string, scope: Scope, expiresAt: Option<int>, revokedAt: Option<int>)

  datatype NewGrant = NewGrant(scope: Scope, expiresAt: Option<int>)

  datatype Db = Db(clients: map<string, Client>, grants: seq<Grant>, directory: Directory)

  datatype Expiry = AtTime(t: int) | InSeconds(n: int) | Unspecified | Malformed

  // A target names a token, with its secret when the whole token string was presented.
  datatype Target = Target(client: string, secret: Option<string>)

  datatype CreateRequest = CreateRequest(
    expiry: Expiry, grants: seq<Scope>, repositories: set<string>, secret: string, attribution: Attribution)

  datatype RotateRequest = RotateRequest(target: Target, expiry: Expiry, secret: string, attribution: Attribution)

  // ---------------------------------------------------------------- time

  predicate Unexpired(e: Option<int>, now: int) {
    e.None? || e.value > now
  }

  function MinOptionalTime(a: Option<int>, b: Option<int>): Option<int> {
    if a.None? then b else if b.None? || a.value < b.value then a else b
  }

  // Expired at the earlier of the two: the minimum is unexpired exactly when both are.
  lemma MinIsUnexpiredIff(a: Option<int>, b: Option<int>, t: int)
    ensures Unexpired(MinOptionalTime(a, b), t) <==> Unexpired(a, t) && Unexpired(b, t)
  {
  }

  function TokenExpiry(x: Expiry, now: int, oldExpiry: Option<int>): (r: Result<int, Error>)
    ensures r.Ok? ==> r.value > now
  {
    match x
    case AtTime(t) => if t > now then Ok(t) else Err(SchemaInvalid)
    case InSeconds(n) => if n > 0 then Ok(now + n) else Err(SchemaInvalid)
    case Malformed => Err(SchemaInvalid)
    case Unspecified =>
      if oldExpiry.Some? && oldExpiry.value > now && oldExpiry.value < now + DEFAULT_TTL then Ok(oldExpiry.value) else Ok(now + DEFAULT_TTL)
  }

  // ---------------------------------------------------------------- grants

  predicate Active(g: Grant, client: string, now: int) {
    g.client == client && g.revokedAt.None? && Unexpired(g.expiresAt, now)
  }

  function ActiveGrants(grants: seq<Grant>, client: string, now: int): seq<NewGrant> {
    if grants == [] then []
    else
      (if Active(grants[0], client, now) then [NewGrant(grants[0].scope, grants[0].expiresAt)] else [])
      + ActiveGrants(grants[1..], client, now)
  }

  predicate ScopeAmbiguous(grants: seq<Grant>, client: string, now: int) {
    exists i, j ::
      0 <= i < j < |grants| && Active(grants[i], client, now) && Active(grants[j], client, now) && grants[i].scope == grants[j].scope
  }

  function Capped(gs: seq<NewGrant>, e: Option<int>): seq<NewGrant> {
    seq(|gs|, i requires 0 <= i < |gs| => gs[i].(expiresAt := MinOptionalTime(gs[i].expiresAt, e)))
  }

  predicate DistinctScopes(scopes: seq<Scope>) {
    forall i, j :: 0 <= i < j < |scopes| ==> scopes[i] != scopes[j]
  }

  function Granted(scopes: seq<Scope>, e: Option<int>): seq<NewGrant> {
    seq(|scopes|, i requires 0 <= i < |scopes| => NewGrant(scopes[i], e))
  }

  // The key a scope is deduplicated by, and why it identifies the scope.
  function KeyOf(s: Scope): string {
    s.capability + "\0" + s.repository.GetOr("")
  }

  predicate WellFormedScope(s: Scope) {
    s.capability in CAPABILITIES && s.repository != Some("")
  }

  lemma KeyShape(s: Scope)
    requires WellFormedScope(s)
    ensures |KeyOf(s)| > |s.capability| && KeyOf(s)[|s.capability|] == '\0'
    ensures forall i :: 0 <= i < |s.capability| ==> KeyOf(s)[i] != '\0'
  {
  }

  lemma KeyIdentifiesScope(s: Scope, r: Scope)
    requires WellFormedScope(s) && WellFormedScope(r)
    ensures KeyOf(s) == KeyOf(r) <==> s == r
  {
    hide CAPABILITIES;
    KeyShape(s);
    KeyShape(r);
    if KeyOf(s) == KeyOf(r) {
      var n := |s.capability|;
      assert n == |r.capability|;
      assert KeyOf(s)[..n] == s.capability && KeyOf(r)[..n] == r.capability;
      assert KeyOf(s)[n + 1..] == s.repository.GetOr("") && KeyOf(r)[n + 1..] == r.repository.GetOr("");
    }
  }

  method DedupeGrants(scopes: seq<Scope>) returns (ok: bool)
    requires forall i :: 0 <= i < |scopes| ==> WellFormedScope(scopes[i])
    ensures ok <==> DistinctScopes(scopes)
  {
    var seen: set<string> := {};
    for i := 0 to |scopes|
      invariant seen == set k | 0 <= k < i :: KeyOf(scopes[k])
      invariant DistinctScopes(scopes[..i])
    {
      var key := KeyOf(scopes[i]);
      if key in seen {
        var k :| 0 <= k < i && KeyOf(scopes[k]) == key;
        KeyIdentifiesScope(scopes[k], scopes[i]);
        return false;
      }
      forall k | 0 <= k < i
        ensures scopes[k] != scopes[i]
      {
        assert KeyOf(scopes[k]) in seen;
      }
      seen := seen + {key};
    }
    assert scopes[..|scopes|] == scopes;
    return true;
  }

  // ---------------------------------------------------------------- operations

  function Rows(client: string, gs: seq<NewGrant>): seq<Grant> {
    seq(|gs|, i requires 0 <= i < |gs| => Grant(client, gs[i].scope, gs[i].expiresAt, None))
  }

  function InsertClient(db: Db, id: string, secret: string, e: int, gs: seq<NewGrant>): Db {
    db.(clients := db.clients[id := Client(secret, Some(e), None)], grants := db.grants + Rows(id, gs))
  }

  function RevokedGrant(g: Grant, client: string, now: int): Grant {
    if g.client == client && g.revokedAt.None? then g.(revokedAt := Some(now)) else g
  }

  function RevokeGrants(grants: seq<Grant>, client: string, now: int): seq<Grant> {
    seq(|grants|, i requires 0 <= i < |grants| => RevokedGrant(grants[i], client, now))
  }

  function RevokeClient(db: Db, client: string, now: int): Db
    requires client in db.clients
  {
    var c := db.clients[client];
    db.(clients := db.clients[client := c.(revokedAt := Some(c.revokedAt.GetOr(now)))],
        grants := RevokeGrants(db.grants, client, now))
  }

  function LoadToken(db: Db, t: Target): (r: Result<Client, Error>)
    ensures r.Ok? ==> t.client in db.clients && r.value == db.clients[t.client]
  {
    if t.client !in db.clients then Err(TokenInvalid)
    else if t.secret.Some? && t.secret.value != db.clients[t.client].secret then Err(TokenInvalid)
    else Ok(db.clients[t.client])
  }

  function CheckGrants(req: CreateRequest): Option<Error> {
    if req.grants == [] || exists i :: 0 <= i < |req.grants| && !WellFormedScope(req.grants[i]) then Some(SchemaInvalid)
    else if !DistinctScopes(req.grants) then Some(SchemaInvalid)
    else if exists g :: g in req.grants && g.repository.Some? && g.repository.value !in req.repositories then Some(NotFound)
    else None
  }

  function Create(db: Db, req: CreateRequest, now: int, newId: string): Result<Db, Error> {
    match TokenExpiry(req.expiry, now, None)
    case Err(e) => Err(e)
    case Ok(expiresAt) =>
      if CheckGrants(req).Some? then Err(CheckGrants(req).value)
      else
        match Attribute(db.directory, req.attribution, newId)
        case Err(e) => Err(e)
        case Ok(d) => Ok(InsertClient(db, newId, req.secret, expiresAt, Granted(req.grants, Some(expiresAt))).(directory := d))
  }

  function Revoke(db: Db, t: Target, now: int): Result<Db, Error> {
    match LoadToken(db, t)
    case Err(e) => Err(e)
    case Ok(_) => Ok(RevokeClient(db, t.client, now))
  }

  function RotationError(db: Db, req: RotateRequest, now: int): Option<Error> {
    match LoadToken(db, req.target)
    case Err(e) => Some(e)
    case Ok(record) =>
      if record.revokedAt.Some? then Some(TokenRevoked)
      else if !Unexpired(record.expiresAt, now) then Some(TokenExpired)
      else if ScopeAmbiguous(db.grants, req.target.client, now) then Some(TokenScopeAmbiguous)
      else if ActiveGrants(db.grants, req.target.client, now) == [] then Some(CapabilityMissing)
      else match TokenExpiry(req.expiry, now, record.expiresAt)
        case Err(e) => Some(e)
        case Ok(_) => None
  }

  // The token rows of a rotation that is not refused: everything active, capped at the new expiry.
  function Rotated(db: Db, req: RotateRequest, now: int, newId: string): Db
    requires RotationError(db, req, now).None?
  {
    var oldId := req.target.client;
    var e := TokenExpiry(req.expiry, now, db.clients[oldId].expiresAt).value;
    InsertClient(RevokeClient(db, oldId, now), newId, req.secret, e, Capped(ActiveGrants(db.grants, oldId, now), Some(e)))
  }

  function Rotate(db: Db, req: RotateRequest, now: int, newId: string): Result<Db, Error> {
    if RotationError(db, req, now).Some? then Err(RotationError(db, req, now).value)
    else
      match CarryAcrossRotation(db.directory, req.attribution, req.target.client, newId)
      case Err(e) => Err(e)
      case Ok(d) => Ok(Rotated(db, req, now, newId).(directory := d))
  }

  // ---------------------------------------------------------------- the service

  class TokenService {
    var clients: map<string, Client>
    var grants: seq<Grant>
    const principals: PrincipalStore

    ghost function Value(): Db
      reads this, principals
    {
      Db(clients, grants, principals.Value())
    }

    constructor ()
      ensures Value() == Db(map[], [], Directory(map[], [])) && fresh(principals)
    {
      clients, grants := map[], [];
      principals := new PrincipalStore();
    }

    method InsertTokenClient(id: string, secret: string, e: int, gs: seq<NewGrant>)
      modifies this
      ensures Value() == InsertClient(old(Value()), id, secret, e, gs)
    {
      clients := clients[id := Client(secret, Some(e), None)];
      for i := 0 to |gs|
        invariant grants == old(grants) + Rows(id, gs[..i])
        invariant clients == old(clients)[id := Client(secret, Some(e), None)]
      {
        grants := grants + [Grant(id, gs[i].scope, gs[i].expiresAt, None)];
        assert Rows(id, gs[..i + 1]) == Rows(id, gs[..i]) + [Grant(id, gs[i].scope, gs[i].expiresAt, None)];
      }
      assert gs[..|gs|] == gs;
    }

    method RevokeTokenRows(client: string, now: int)
      requires client in clients
      modifies this
      ensures Value() == RevokeClient(old(Value()), client, now)
    {
      grants := RevokeGrants(grants, client, now);
      clients := clients[client := clients[client].(revokedAt := Some(clients[client].revokedAt.GetOr(now)))];
    }

    method CreateToken(req: CreateRequest, now: int, newId: string) returns (error: Option<Error>)
      modifies this, principals
      ensures var r := Create(old(Value()), req, now, newId);
              if r.Ok? then error == None && Value() == r.value else error == Some(r.error) && Value() == old(Value())
    {
      var expiresAt := TokenExpiry(req.expiry, now, None);
      if expiresAt.Err? {
        return Some(expiresAt.error);
      }
      if req.grants == [] || exists i :: 0 <= i < |req.grants| && !WellFormedScope(req.grants[i]) {
        return Some(SchemaInvalid);
      }
      var distinct := DedupeGrants(req.grants);
      if !distinct {
        return Some(SchemaInvalid);
      }
      for i := 0 to |req.grants|
        invariant forall k :: 0 <= k < i ==> req.grants[k].repository.Some? ==> req.grants[k].repository.value in req.repositories
      {
        if req.grants[i].repository.Some? && req.grants[i].repository.value !in req.repositories {
          return Some(NotFound);
        }
      }
      var savedClients, savedGrants := clients, grants;
      var savedPrincipals, savedLinks := principals.principals, principals.links;
      InsertTokenClient(newId, req.secret, expiresAt.value, Granted(req.grants, Some(expiresAt.value)));
      error := principals.AttributeClient(req.attribution, newId);
      if error.Some? {
        clients, grants := savedClients, savedGrants;
        principals.principals, principals.links := savedPrincipals, savedLinks;
      }
    }

    method RevokeToken(t: Target, now: int) returns (error: Option<Error>)
      modifies this
      ensures var r := Revoke(old(Value()), t, now);
              if r.Ok? then error == None && Value() == r.value else error == Some(r.error) && Value() == old(Value())
      ensures error == (if t.client in old(clients) && (t.secret.None? || t.secret.value == old(clients)[t.client].secret)
                        then None else Some(TokenInvalid))
    {
      if t.client !in clients {
        return Some(TokenInvalid);
      }
      if t.secret.Some? && t.secret.value != clients[t.client].secret {
        return Some(TokenInvalid);
      }
      RevokeTokenRows(t.client, now);
      return None;
    }

    method RotateToken(req: RotateRequest, now: int, newId: string) returns (error: Option<Error>)
      modifies this, principals
      ensures var r := Rotate(old(Value()), req, now, newId);
              if r.Ok? then error == None && Value() == r.value else error == Some(r.error) && Value() == old(Value())
      ensures req.target.client !in old(clients)
              || (req.target.secret.Some? && req.target.secret.value != old(clients)[req.target.client].secret) ==>
                error == Some(TokenInvalid) && Value() == old(Value())
    {
      var target := req.target;
      if target.client !in clients {
        return Some(TokenInvalid);
      }
      var record := clients[target.client];
      if target.secret.Some? && target.secret.value != record.secret {
        return Some(TokenInvalid);
      }
      if record.revokedAt.Some? {
        return Some(TokenRevoked);
      }
      if record.expiresAt.Some? && record.expiresAt.value <= now {
        return Some(TokenExpired);
      }
      if ScopeAmbiguous(grants, target.client, now) {
        return Some(TokenScopeAmbiguous);
      }
      var gs := ActiveGrants(grants, target.client, now);
      if |gs| == 0 {
        return Some(CapabilityMissing);
      }
      var expiresAt := TokenExpiry(req.expiry, now, record.expiresAt);
      if expiresAt.Err? {
        return Some(expiresAt.error);
      }
      gs := CapGrants(gs, Some(expiresAt.value));
      var savedClients, savedGrants := clients, grants;
      var savedPrincipals, savedLinks := principals.principals, principals.links;
      RevokeTokenRows(target.client, now);
      InsertTokenClient(newId, req.secret, expiresAt.value, gs);
      error := principals.Carry(req.attribution, target.client, newId);
      if error.Some? {
        clients, grants := savedClients, savedGrants;
        principals.principals, principals.links := savedPrincipals, savedLinks;
      }
    }
  }

  method CapGrants(grants: seq<NewGrant>, e: Option<int>) returns (gs: seq<NewGrant>)
    ensures gs == Capped(grants, e)
  {
    gs := grants;
    for i := 0 to |gs|
      invariant |gs| == |grants| && gs[i..] == grants[i..]
      invariant forall k :: 0 <= k < i ==> gs[k] == Capped(grants, e)[k]
    {
      assert gs[i] == gs[i..][0];
      gs := gs[i := gs[i].(expiresAt := MinOptionalTime(gs[i].expiresAt, e))];
    }
  }
}
