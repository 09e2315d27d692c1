/**
  Principals and the clients attributed to them (RFC 0107): creation, linking, unlinking, and the
  move of an attribution from a rotated client to its replacement.
 */
module Principals {
  import opened Wrappers

  const KINDS: set<string> := {"human", "ai_operator", "service"}

  datatype Principal = Principal(kind: string, displayName: string)

  // One row of principal_clients; `active` is a NULL unlinked_at.
  datatype Link = Link(principalId: string, clientId: string, active: bool)

  datatype Directory = Directory(principals: map<string, Principal>, links: seq<Link>)

  datatype Error =
    | SchemaInvalid
    | NotFound
    | Conflict
    | TokenInvalid
    | TokenRevoked
    | TokenExpired
    | TokenScopeAmbiguous
    | CapabilityMissing

  // The optional attribution parameters of a request; an empty id attributes nothing.
  datatype Attribution = Attribution(principalId: string, kind: string, displayName: string)

  // ---------------------------------------------------------------- reading

  function ActiveOwner(links: seq<Link>, clientId: string): Option<string> {
    if links == [] then None
    else if links[0].clientId == clientId && links[0].active then Some(links[0].principalId)
    else ActiveOwner(links[1..], clientId)
  }

  function Resolve(d: Directory, clientId: string): Option<string> {
    if clientId == "" then None else ActiveOwner(d.links, clientId)
  }

  function Counted(l: Link, principalId: string): nat {
    if l.principalId == principalId && l.active then 1 else 0
  }

  function ActiveCount(links: seq<Link>, principalId: string): nat {
    if links == [] then 0 else Counted(links[0], principalId) + ActiveCount(links[1..], principalId)
  }

  // The primary key, the partial unique index and the foreign key of principal_clients.
  ghost predicate ValidDirectory(d: Directory) {
    && (forall i, j :: 0 <= i < j < |d.links| ==>
         d.links[i].principalId != d.links[j].principalId || d.links[i].clientId != d.links[j].clientId)
    && (forall i, j :: 0 <= i < j < |d.links| && d.links[i].active && d.links[j].active ==> d.links[i].clientId != d.links[j].clientId)
    && (forall i :: 0 <= i < |d.links| ==>
         d.links[i].principalId in d.principals && d.links[i].principalId != "" && d.links[i].clientId != "")
  }

  lemma {:induction false} OwnerIsActiveLink(links: seq<Link>, clientId: string)
    ensures ActiveOwner(links, clientId).Some? ==> Link(ActiveOwner(links, clientId).value, clientId, true) in links
    ensures ActiveOwner(links, clientId).None? ==> forall i :: 0 <= i < |links| && links[i].clientId == clientId ==> !links[i].active
  {
    if links != [] && !(links[0].clientId == clientId && links[0].active) {
      OwnerIsActiveLink(links[1..], clientId);
      assert links == [links[0]] + links[1..];
    }
  }

  // The answer does not depend on row order: an active link is the owner.
  lemma OwnerIs(d: Directory, principalId: string, clientId: string)
    requires ValidDirectory(d)
    ensures ActiveOwner(d.links, clientId) == Some(principalId) <==> Link(principalId, clientId, true) in d.links
  {
    OwnerIsActiveLink(d.links, clientId);
    if Link(principalId, clientId, true) in d.links {
      var i :| 0 <= i < |d.links| && d.links[i] == Link(principalId, clientId, true);
      assert ActiveOwner(d.links, clientId).Some?;
      var j :| 0 <= j < |d.links| && d.links[j] == Link(ActiveOwner(d.links, clientId).value, clientId, true);
      assert i == j;
    }
  }

  // ---------------------------------------------------------------- writing

  function CreatePrincipal(d: Directory, principalId: string, kind: string, displayName: string): Result<Directory, Error> {
    if principalId == "" || displayName == "" || kind !in KINDS then Err(SchemaInvalid)
    else if principalId in d.principals then
      if d.principals[principalId] == Principal(kind, displayName) then Ok(d) else Err(Conflict)
    else Ok(d.(principals := d.principals[principalId := Principal(kind, displayName)]))
  }

  // The row of a pair, or the end of the table.
  function PairIndex(links: seq<Link>, principalId: string, clientId: string): (k: nat)
    ensures k <= |links| && (k < |links| ==> links[k].principalId == principalId && links[k].clientId == clientId)
    ensures forall i :: 0 <= i < k ==> links[i].principalId != principalId || links[i].clientId != clientId
  {
    if links == [] || (links[0].principalId == principalId && links[0].clientId == clientId) then 0
    else 1 + PairIndex(links[1..], principalId, clientId)
  }

  // INSERT ... ON CONFLICT (principal_id, client_id) DO UPDATE: revive the pair's row or add one.
  function Upsert(links: seq<Link>, principalId: string, clientId: string): seq<Link> {
    var k := PairIndex(links, principalId, clientId);
    if k < |links| then links[k := Link(principalId, clientId, true)] else links + [Link(principalId, clientId, true)]
  }

  function LinkClient(d: Directory, principalId: string, clientId: string): Result<Directory, Error> {
    if principalId == "" || clientId == "" then Err(SchemaInvalid)
    else if principalId !in d.principals then Err(NotFound)
    else match ActiveOwner(d.links, clientId)
      case Some(current) => if current == principalId then Ok(d) else Err(Conflict)
      case None => Ok(d.(links := Upsert(d.links, principalId, clientId)))
  }

  function Unlinked(l: Link, clientId: string): Link {
    if l.clientId == clientId then l.(active := false) else l
  }

  function UnlinkRows(links: seq<Link>, clientId: string): seq<Link> {
    seq(|links|, i requires 0 <= i < |links| => Unlinked(links[i], clientId))
  }

  function UnlinkClient(d: Directory, clientId: string): Directory {
    d.(links := UnlinkRows(d.links, clientId))
  }

  function Attribute(d: Directory, a: Attribution, clientId: string): Result<Directory, Error> {
    if a.principalId == "" then Ok(d)
    else if a.principalId !in d.principals then
      if a.kind == "" || a.displayName == "" then Err(NotFound)
      else match CreatePrincipal(d, a.principalId, a.kind, a.displayName)
        case Err(e) => Err(e)
        case Ok(d1) => LinkClient(d1, a.principalId, clientId)
    else if a.kind != "" && a.displayName != "" then
      match CreatePrincipal(d, a.principalId, a.kind, a.displayName)
      case Err(e) => Err(e)
      case Ok(d1) => LinkClient(d1, a.principalId, clientId)
    else if a.kind != "" && a.kind !in KINDS then Err(SchemaInvalid)
    else LinkClient(d, a.principalId, clientId)
  }

  function CarryAcrossRotation(d: Directory, a: Attribution, oldClient: string, newClient: string): Result<Directory, Error> {
    if a.principalId != "" then
      match Attribute(d, a, newClient)
      case Err(e) => Err(e)
      case Ok(d1) => Ok(UnlinkClient(d1, oldClient))
    else match Resolve(d, oldClient)
      case None => Ok(d)
      case Some(p) => LinkClient(UnlinkClient(d, oldClient), p, newClient)
  }

  // ---------------------------------------------------------------- exactly when the writes succeed

  // A principal needs an id, a display name and one of three kinds; a known one has to be the same.
  lemma CreateExactly(d: Directory, id: string, kind: string, name: string)
    ensures var blank := id == "" || name == "" || kind !in {"human", "ai_operator", "service"};
            var known := id in d.principals;
            CreatePrincipal(d, id, kind, name) ==
              if blank then Err(SchemaInvalid)
              else if known && (d.principals[id].kind != kind || d.principals[id].displayName != name) then Err(Conflict)
              else Ok(Directory(d.principals[id := Principal(kind, name)], d.links))
  {
    if id in d.principals && d.principals[id] == Principal(kind, name) {
      assert d.principals[id := Principal(kind, name)] == d.principals;
    }
  }

  // Somebody else's active link.
  ghost predicate OwnedByOther(d: Directory, p: string, c: string) {
    exists i :: 0 <= i < |d.links| && d.links[i].clientId == c && d.links[i].active && d.links[i].principalId != p
  }

  // The row of the pair is there and active, there is no second one, and every other row is as it was.
  ghost predicate PairLinked(d: Directory, e: Directory, p: string, c: string) {
    && e.principals == d.principals
    && (forall l: Link :: l.principalId != p || l.clientId != c ==> (l in e.links <==> l in d.links))
    && Link(p, c, true) in e.links && Link(p, c, false) !in e.links
    && |e.links| == |d.links| + if Link(p, c, true) in d.links || Link(p, c, false) in d.links then 0 else 1
  }

  // Linking succeeds iff both ids are given, the principal is known and no other principal owns the
  // client; a pair unlinked before is revived in its old row.
  lemma LinkExactly(d: Directory, p: string, c: string)
    requires ValidDirectory(d)
    ensures LinkClient(d, p, c).Ok? <==> p != "" && c != "" && p in d.principals && !OwnedByOther(d, p, c)
    ensures LinkClient(d, p, c) == Err(SchemaInvalid) <==> p == "" || c == ""
    ensures LinkClient(d, p, c) == Err(NotFound) <==> p != "" && c != "" && p !in d.principals
    ensures LinkClient(d, p, c) == Err(Conflict) <==> p != "" && c != "" && p in d.principals && OwnedByOther(d, p, c)
    ensures LinkClient(d, p, c).Ok? ==> PairLinked(d, LinkClient(d, p, c).value, p, c)
  {
    OwnerIsActiveLink(d.links, c);
    var owner := ActiveOwner(d.links, c);
    if owner.Some? {
      var i :| 0 <= i < |d.links| && d.links[i] == Link(owner.value, c, true);
      if owner.value == p {
        OwnPairIsLinked(d, p, c, i);
      } else {
        assert OwnedByOther(d, p, c);
      }
    } else {
      RevivedIsLinked(d, p, c);
    }
  }

  lemma OwnPairIsLinked(d: Directory, p: string, c: string, i: nat)
    requires ValidDirectory(d) && i < |d.links| && d.links[i] == Link(p, c, true)
    ensures PairLinked(d, d, p, c) && !OwnedByOther(d, p, c)
  {
  }

  lemma RevivedIsLinked(d: Directory, p: string, c: string)
    requires ValidDirectory(d) && forall i :: 0 <= i < |d.links| && d.links[i].clientId == c ==> !d.links[i].active
    ensures PairLinked(d, d.(links := Upsert(d.links, p, c)), p, c) && !OwnedByOther(d, p, c)
  {
    var k, e := PairIndex(d.links, p, c), Upsert(d.links, p, c);
    assert e[k] == Link(p, c, true);
    assert forall i :: 0 <= i < |e| && i != k ==> e[i] == d.links[i] && (e[i].principalId != p || e[i].clientId != c);
    forall l: Link | l.principalId != p || l.clientId != c
      ensures l in e <==> l in d.links
    {
      if l in d.links {
        var i :| 0 <= i < |d.links| && d.links[i] == l;
        assert e[i] == l;
      }
    }
    if k < |d.links| {
      assert d.links[k] == Link(p, c, false);
    }
  }

  // Attribution: no id attributes nothing; an unknown principal needs a kind and a name and is
  // created; a known one may repeat both, or one, or none of them.
  lemma AttributeExactly(d: Directory, a: Attribution, c: string)
    requires ValidDirectory(d)
    ensures a.principalId == "" ==> Attribute(d, a, c) == Ok(d)
    ensures a.principalId != "" ==>
              var p, known := a.principalId, a.principalId in d.principals;
              var full, kindOk := a.kind != "" && a.displayName != "", a.kind in {"human", "ai_operator", "service"};
              var r, named := Attribute(d, a, c), Principal(a.kind, a.displayName);
              if !known && !full then r == Err(NotFound)
              else if a.kind != "" && !kindOk then r == Err(SchemaInvalid)
              else if known && full && d.principals[p] != named then r == Err(Conflict)
              else if c == "" then r == Err(SchemaInvalid)
              else if OwnedByOther(d, p, c) then r == Err(Conflict)
              else
                r.Ok? && PairLinked(d.(principals := if known then d.principals else d.principals[p := named]), r.value, p, c)
  {
    hide LinkClient, CreatePrincipal, ValidDirectory, PairLinked, OwnedByOther;
    var p := a.principalId;
    if p != "" {
      CreateExactly(d, p, a.kind, a.displayName);
      LinkExactly(d, p, c);
      var grown := Directory(d.principals[p := Principal(a.kind, a.displayName)], d.links);
      GrownDirectory(d, p, Principal(a.kind, a.displayName), c);
      LinkExactly(grown, p, c);
      if p in d.principals && d.principals[p] == Principal(a.kind, a.displayName) {
        assert grown.principals == d.principals;
        assert grown == d;
      }
    }
  }

  lemma GrownDirectory(d: Directory, p: string, principal: Principal, c: string)
    requires ValidDirectory(d)
    ensures var grown := Directory(d.principals[p := principal], d.links);
            ValidDirectory(grown) && (OwnedByOther(grown, p, c) <==> OwnedByOther(d, p, c))
  {
  }

  // Unlinking closes the client's rows and keeps every other row as it is, in place.
  lemma UnlinkExactly(d: Directory, c: string)
    ensures var e := UnlinkClient(d, c);
            && e.principals == d.principals && |e.links| == |d.links|
            && forall i :: 0 <= i < |d.links| ==>
                 e.links[i] == Link(d.links[i].principalId, d.links[i].clientId, d.links[i].active && d.links[i].clientId != c)
  {
  }

  // ---------------------------------------------------------------- what the writes keep

  lemma SameOwner(d: Directory, e: Directory, clientId: string)
    requires ValidDirectory(d) && ValidDirectory(e)
    requires forall p :: Link(p, clientId, true) in d.links <==> Link(p, clientId, true) in e.links
    ensures ActiveOwner(d.links, clientId) == ActiveOwner(e.links, clientId)
  {
    var x, y := ActiveOwner(d.links, clientId), ActiveOwner(e.links, clientId);
    if x.Some? {
      OwnerIs(d, x.value, clientId);
      OwnerIs(e, x.value, clientId);
    } else if y.Some? {
      OwnerIs(d, y.value, clientId);
      OwnerIs(e, y.value, clientId);
    }
  }

  lemma CreateKeepsLinks(d: Directory, principalId: string, kind: string, displayName: string)
    requires ValidDirectory(d) && CreatePrincipal(d, principalId, kind, displayName).Ok?
    ensures var e := CreatePrincipal(d, principalId, kind, displayName).value;
            && ValidDirectory(e) && e.links == d.links
            && e.principals == d.principals[principalId := Principal(kind, displayName)]
            && (principalId in d.principals ==> e == d)
  {
    if principalId in d.principals {
      assert d.principals[principalId := d.principals[principalId]] == d.principals;
    }
  }

  lemma UpsertMembers(links: seq<Link>, p: string, c: string, l: Link)
    requires l.clientId != c
    ensures l in Upsert(links, p, c) <==> l in links
  {
    var k := PairIndex(links, p, c);
    if l in links {
      var i :| 0 <= i < |links| && links[i] == l;
      assert Upsert(links, p, c)[i] == l;
    }
  }

  // Linking gives the client exactly this owner and no other client a different one.
  lemma LinkKeepsValid(d: Directory, p: string, c: string)
    requires ValidDirectory(d) && LinkClient(d, p, c).Ok?
    ensures ValidDirectory(LinkClient(d, p, c).value)
    ensures LinkClient(d, p, c).value.principals == d.principals
    ensures ActiveOwner(LinkClient(d, p, c).value.links, c) == Some(p)
    ensures forall x :: x != c ==> ActiveOwner(LinkClient(d, p, c).value.links, x) == ActiveOwner(d.links, x)
  {
    var e := LinkClient(d, p, c).value;
    OwnerIsActiveLink(d.links, c);
    if ActiveOwner(d.links, c).None? {
      UpsertKeepsValid(d, p, c);
      var k := PairIndex(d.links, p, c);
      assert e.links[k] == Link(p, c, true);
      OwnerIs(e, p, c);
      forall x | x != c
        ensures ActiveOwner(e.links, x) == ActiveOwner(d.links, x)
      {
        forall q
          ensures Link(q, x, true) in d.links <==> Link(q, x, true) in e.links
        {
          UpsertMembers(d.links, p, c, Link(q, x, true));
        }
        SameOwner(d, e, x);
      }
    }
  }

  lemma UpsertKeepsValid(d: Directory, p: string, c: string)
    requires ValidDirectory(d) && p in d.principals && p != "" && c != ""
    requires forall i :: 0 <= i < |d.links| && d.links[i].clientId == c ==> !d.links[i].active
    ensures ValidDirectory(d.(links := Upsert(d.links, p, c)))
  {
    var k, e := PairIndex(d.links, p, c), Upsert(d.links, p, c);
    assert forall i :: 0 <= i < |e| ==> e[i] == if i == k then Link(p, c, true) else d.links[i];
  }

  // The same pair again changes nothing; another principal is refused.
  lemma RelinkIsIdempotent(d: Directory, p: string, c: string, q: string)
    requires ValidDirectory(d) && LinkClient(d, p, c).Ok?
    ensures var e := LinkClient(d, p, c).value;
            && LinkClient(e, p, c) == Ok(e)
            && (q != p && q != "" && q in d.principals ==> LinkClient(e, q, c) == Err(Conflict))
  {
    LinkKeepsValid(d, p, c);
  }

  lemma UnlinkMembers(links: seq<Link>, c: string, l: Link)
    requires l.clientId != c
    ensures l in UnlinkRows(links, c) <==> l in links
  {
    if l in links {
      var i :| 0 <= i < |links| && links[i] == l;
      assert UnlinkRows(links, c)[i] == l;
    }
  }

  lemma UnlinkKeepsKeys(d: Directory, c: string)
    requires ValidDirectory(d)
    ensures ValidDirectory(UnlinkClient(d, c))
    ensures forall i :: 0 <= i < |UnlinkClient(d, c).links| && UnlinkClient(d, c).links[i].clientId == c ==>
        !UnlinkClient(d, c).links[i].active
  {
  }

  lemma UnlinkKeepsValid(d: Directory, c: string)
    requires ValidDirectory(d)
    ensures ValidDirectory(UnlinkClient(d, c))
    ensures ActiveOwner(UnlinkClient(d, c).links, c) == None
    ensures forall x :: x != c ==> ActiveOwner(UnlinkClient(d, c).links, x) == ActiveOwner(d.links, x)
  {
    hide ValidDirectory, UnlinkRows, ActiveOwner;
    var e := UnlinkClient(d, c);
    UnlinkKeepsKeys(d, c);
    OwnerIsActiveLink(e.links, c);
    forall x | x != c
      ensures ActiveOwner(e.links, x) == ActiveOwner(d.links, x)
    {
      forall q
        ensures Link(q, x, true) in d.links <==> Link(q, x, true) in e.links
      {
        UnlinkMembers(d.links, c, Link(q, x, true));
      }
      SameOwner(d, e, x);
    }
  }

  lemma AttributeKeepsValid(d: Directory, a: Attribution, c: string)
    requires ValidDirectory(d) && Attribute(d, a, c).Ok?
    ensures var e := Attribute(d, a, c).value;
            && ValidDirectory(e)
            && ActiveOwner(e.links, c) == (if a.principalId == "" then ActiveOwner(d.links, c) else Some(a.principalId))
            && (forall x :: x != c ==> ActiveOwner(e.links, x) == ActiveOwner(d.links, x))
            && (forall p :: p in d.principals ==> p in e.principals && e.principals[p] == d.principals[p])
  {
    hide LinkClient, CreatePrincipal;
    if a.principalId != "" {
      var created := a.principalId !in d.principals || (a.kind != "" && a.displayName != "");
      if created {
        CreateKeepsLinks(d, a.principalId, a.kind, a.displayName);
      }
      LinkKeepsValid(if created then CreatePrincipal(d, a.principalId, a.kind, a.displayName).value else d, a.principalId, c);
    }
  }

  // Rotation hands the old client's principal to the new one, or the named one instead, and leaves
  // the old client unattributed and every other client as it was.
  lemma RotationMovesOwner(d: Directory, a: Attribution, oldId: string, newId: string)
    requires ValidDirectory(d) && oldId != "" && newId != "" && oldId != newId
    requires ActiveOwner(d.links, newId) == None
    requires CarryAcrossRotation(d, a, oldId, newId).Ok?
    ensures var e := CarryAcrossRotation(d, a, oldId, newId).value;
            && ValidDirectory(e)
            && ActiveOwner(e.links, newId) == (if a.principalId != "" then Some(a.principalId) else ActiveOwner(d.links, oldId))
            && ActiveOwner(e.links, oldId) == None
            && (forall x :: x != oldId && x != newId ==> ActiveOwner(e.links, x) == ActiveOwner(d.links, x))
  {
    hide LinkClient, Attribute, UnlinkClient, ValidDirectory;
    if a.principalId != "" {
      AttributeKeepsValid(d, a, newId);
      UnlinkKeepsValid(Attribute(d, a, newId).value, oldId);
    } else if Resolve(d, oldId).Some? {
      UnlinkKeepsValid(d, oldId);
      LinkKeepsValid(UnlinkClient(d, oldId), Resolve(d, oldId).value, newId);
    }
  }

  // Without a named principal a rotation to a new, unattributed client is never refused; with one it
  // is refused exactly as the attribution is.
  lemma CarryExactly(d: Directory, a: Attribution, oldId: string, newId: string)
    requires ValidDirectory(d) && newId != "" && oldId != newId && ActiveOwner(d.links, newId) == None
    ensures a.principalId == "" ==> CarryAcrossRotation(d, a, oldId, newId).Ok?
    ensures a.principalId != "" && Attribute(d, a, newId).Err? ==> CarryAcrossRotation(d, a, oldId, newId) == Attribute(d, a, newId)
    ensures a.principalId != "" && Attribute(d, a, newId).Ok? ==> CarryAcrossRotation(d, a, oldId, newId).Ok?
  {
    hide ValidDirectory, Attribute, UnlinkClient;
    if a.principalId == "" && Resolve(d, oldId).Some? {
      var p := Resolve(d, oldId).value;
      OwnerIs(d, p, oldId);
      UnlinkKeepsValid(d, oldId);
      LinkExactly(UnlinkClient(d, oldId), p, newId);
      OwnerIsKnown(d, p, oldId);
    }
  }

  lemma OwnerIsKnown(d: Directory, p: string, c: string)
    requires ValidDirectory(d) && Link(p, c, true) in d.links
    ensures p in UnlinkClient(d, c).principals && p != ""
  {
  }

  // ---------------------------------------------------------------- counting attributions

  lemma {:induction false} CountUpdate(links: seq<Link>, k: nat, l: Link, p: string)
    requires k < |links|
    ensures ActiveCount(links[k := l], p) + Counted(links[k], p) == ActiveCount(links, p) + Counted(l, p)
    decreases |links|
  {
    if k > 0 {
      CountUpdate(links[1..], k - 1, l, p);
      assert links[k := l][1..] == links[1..][k - 1 := l];
    } else {
      assert links[k := l][1..] == links[1..];
    }
  }

  lemma {:induction false} CountSnoc(links: seq<Link>, l: Link, p: string)
    ensures ActiveCount(links + [l], p) == ActiveCount(links, p) + Counted(l, p)
    decreases |links|
  {
    if links == [] {
      assert (links + [l])[1..] == [];
    } else {
      CountSnoc(links[1..], l, p);
      assert (links + [l])[1..] == links[1..] + [l];
    }
  }

  lemma {:induction false} CountUnlink(links: seq<Link>, c: string, p: string)
    requires forall i, j :: 0 <= i < j < |links| && links[i].active && links[j].active ==> links[i].clientId != links[j].clientId
    ensures ActiveCount(links, p) ==
              ActiveCount(UnlinkRows(links, c), p) + if ActiveOwner(links, c) == Some(p) then 1 else 0
    decreases |links|
  {
    if links != [] {
      var after := UnlinkRows(links, c);
      var rest := links[1..];
      CountUnlink(rest, c, p);
      assert after[1..] == UnlinkRows(rest, c);
      OwnerIsActiveLink(rest, c);
    }
  }

  lemma LinkCounts(d: Directory, p: string, c: string, q: string)
    requires ValidDirectory(d) && LinkClient(d, p, c).Ok? && ActiveOwner(d.links, c) == None
    ensures ActiveCount(LinkClient(d, p, c).value.links, q) == ActiveCount(d.links, q) + if q == p then 1 else 0
  {
    var k := PairIndex(d.links, p, c);
    OwnerIsActiveLink(d.links, c);
    if k < |d.links| {
      CountUpdate(d.links, k, Link(p, c, true), q);
    } else {
      CountSnoc(d.links, Link(p, c, true), q);
    }
  }

  // A rotation that names no principal conserves every principal's number of active clients.
  lemma RotationConservesCounts(d: Directory, a: Attribution, oldId: string, newId: string, q: string)
    requires ValidDirectory(d) && oldId != "" && newId != "" && oldId != newId && a.principalId == ""
    requires ActiveOwner(d.links, newId) == None
    requires CarryAcrossRotation(d, a, oldId, newId).Ok?
    ensures ActiveCount(CarryAcrossRotation(d, a, oldId, newId).value.links, q) == ActiveCount(d.links, q)
  {
    if Resolve(d, oldId).Some? {
      CountUnlink(d.links, oldId, q);
      UnlinkKeepsValid(d, oldId);
      LinkCounts(UnlinkClient(d, oldId), Resolve(d, oldId).value, newId, q);
    }
  }

  // ---------------------------------------------------------------- the store

  class PrincipalStore {
    var principals: map<string, Principal>
    var links: seq<Link>

    ghost function Value(): Directory
      reads this
    {
      Directory(principals, links)
    }

    constructor ()
      ensures Value() == Directory(map[], [])
    {
      principals, links := map[], [];
    }

    method Create(principalId: string, kind: string, displayName: string) returns (error: Option<Error>)
      modifies this
      ensures var r := CreatePrincipal(old(Value()), principalId, kind, displayName);
              if r.Ok? then error == None && Value() == r.value else error == Some(r.error) && Value() == old(Value())
    {
      if principalId == "" || displayName == "" || kind !in KINDS {
        return Some(SchemaInvalid);
      }
      if principalId in principals {
        if principals[principalId].kind != kind || principals[principalId].displayName != displayName {
          return Some(Conflict);
        }
        return None;
      }
      principals := principals[principalId := Principal(kind, displayName)];
      return None;
    }

    method LinkPrincipal(principalId: string, clientId: string) returns (error: Option<Error>)
      modifies this
      ensures var r := LinkClient(old(Value()), principalId, clientId);
              if r.Ok? then error == None && Value() == r.value else error == Some(r.error) && Value() == old(Value())
    {
      if principalId == "" || clientId == "" {
        return Some(SchemaInvalid);
      }
      if principalId !in principals {
        return Some(NotFound);
      }
      var current := ActiveOwner(links, clientId);
      if current.Some? {
        if current.value == principalId {
          return None;
        }
        return Some(Conflict);
      }
      links := Upsert(links, principalId, clientId);
      return None;
    }

    method Unlink(clientId: string)
      modifies this`links
      ensures Value() == UnlinkClient(old(Value()), clientId)
    {
      links := UnlinkRows(links, clientId);
    }

    // On an error the rows written so far stay: the enclosing transaction rolls them back.
    method AttributeClient(a: Attribution, clientId: string) returns (error: Option<Error>)
      modifies this
      ensures var r := Attribute(old(Value()), a, clientId);
              if r.Ok? then error == None && Value() == r.value else error == Some(r.error)
    {
      if a.principalId == "" {
        return None;
      }
      if a.principalId !in principals {
        if a.kind == "" || a.displayName == "" {
          return Some(NotFound);
        }
        error := Create(a.principalId, a.kind, a.displayName);
        if error.Some? {
          return;
        }
      } else if a.kind != "" && a.displayName != "" {
        error := Create(a.principalId, a.kind, a.displayName);
        if error.Some? {
          return;
        }
      } else if a.kind != "" && a.kind !in KINDS {
        return Some(SchemaInvalid);
      }
      error := LinkPrincipal(a.principalId, clientId);
    }

    method Carry(a: Attribution, oldClient: string, newClient: string) returns (error: Option<Error>)
      modifies this
      ensures var r := CarryAcrossRotation(old(Value()), a, oldClient, newClient);
              if r.Ok? then error == None && Value() == r.value else error == Some(r.error)
    {
      if a.principalId != "" {
        error := AttributeClient(a, newClient);
        if error.None? {
          Unlink(oldClient);
        }
        return;
      }
      var owner := if oldClient == "" then None else ActiveOwner(links, oldClient);
      if owner.None? {
        return None;
      }
      Unlink(oldClient);
      error := LinkPrincipal(owner.value, newClient);
    }
  }
}
