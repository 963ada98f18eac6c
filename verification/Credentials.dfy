// internal/authz/service.go, internal/authz/oauth.go and the rows of internal/store/authz.go and
// internal/store/oauth.go: the transactions that change a credential, and the read-only decisions
// taken before them. Instants are nanoseconds; a stored deadline is their millisecond, rounded down.
module Credentials {
  import opened Wrappers
  import Scopes
  import Text

  type Id = string
  type CodeHash = string

  datatype TokenKind = Access | Refresh

  // A stored token hash. The digest covers the kind and the value, and is taken to be injective.
  datatype Hash = Hash(kind: TokenKind, value: string)

  datatype Kind = AdminBootstrap | OAuth

  datatype Token = Token(grant: Id, kind: TokenKind, family: Id, spent: bool, revoked: bool, expiresMs: int)

  // One row of `authorizations`. The scope columns are the sets they render (Scopes.ColumnRoundTrip).
  // expiresMs is 0 when there is no deadline.
  datatype Grant = Grant(
    kind: Kind, client: string, scopes: set<Scopes.Scope>, minted: set<Scopes.Scope>,
    generation: string, revoked: bool, expiresMs: int)

  datatype Code = Code(client: string, scopes: string, expiresMs: int, consumed: bool, grant: Option<Id>)

  datatype Db = Db(tokens: map<Hash, Token>, grants: map<Id, Grant>, codes: map<CodeHash, Code>)

  datatype TTLs = TTLs(access: int, idle: int, absolute: int)

  function Milli(ns: int): int { ns / 1_000_000 }

  function Earlier(a: int, b: int): int { if a < b then a else b }

  // ----- one SQL statement each -----

  function Spend(db: Db, h: Hash): Db
    requires h in db.tokens
  {
    db.(tokens := db.tokens[h := db.tokens[h].(spent := true)])
  }

  function RevokeFamily(db: Db, family: Id): Db {
    db.(tokens := map h | h in db.tokens ::
      if db.tokens[h].family == family then db.tokens[h].(revoked := true) else db.tokens[h])
  }

  function RevokeTokens(db: Db, grant: Id): Db {
    db.(tokens := map h | h in db.tokens ::
      if db.tokens[h].grant == grant then db.tokens[h].(revoked := true) else db.tokens[h])
  }

  function RevokeGrant(db: Db, grant: Id): Db {
    if grant in db.grants then db.(grants := db.grants[grant := db.grants[grant].(revoked := true)]) else db
  }

  function SetScopes(db: Db, grant: Id, scopes: set<Scopes.Scope>): Db
    requires grant in db.grants
  {
    db.(grants := db.grants[grant := db.grants[grant].(scopes := scopes)])
  }

  // ConsumeAuthorizationCode: a compare-and-set on consumed_at_ms.
  function Consume(db: Db, code: CodeHash, grant: Option<Id>): (Db, bool) {
    if code in db.codes && !db.codes[code].consumed then
      var row := db.codes[code].(consumed := true, grant := if grant.Some? then grant else db.codes[code].grant);
      (db.(codes := db.codes[code := row]), true)
    else (db, false)
  }

  // ----- transactions: all of it or none of it -----

  // What a new grant is made of.
  datatype Mint = Mint(id: Id, grant: Grant, family: Id, access: Hash, refresh: Hash,
                       accessMs: int, refreshMs: int)

  predicate Collides(db: Db, m: Mint) {
    m.id in db.grants || m.access in db.tokens || m.refresh in db.tokens || m.access == m.refresh
  }

  // CreateAuthorization and the two InsertTokens; a primary-key collision rolls everything back.
  function MintTx(db: Db, m: Mint): (Db, bool) {
    if Collides(db, m) then (db, false)
    else (db.(grants := db.grants[m.id := m.grant],
              tokens := db.tokens[m.access := Token(m.id, Access, m.family, false, false, m.accessMs)]
                                 [m.refresh := Token(m.id, Refresh, m.family, false, false, m.refreshMs)]), true)
  }

  // Everything the read phase of a refresh hands to its transaction.
  datatype Rotation = Rotation(
    hash: Hash, grant: Id, current: set<Scopes.Scope>, next: set<Scopes.Scope>, minted: set<Scopes.Scope>,
    narrowed: bool, accessMs: int, refreshMs: int)

  datatype RotateOutcome = RotateDone | RotateRaced | RotateFailed

  function RevokeFamilyTx(db: Db, grant: Id, family: Id): Db {
    RevokeTokens(RevokeGrant(RevokeFamily(db, family), grant), grant)
  }

  function RotateTx(db: Db, r: Rotation, access: Hash, refresh: Hash): (Db, RotateOutcome) {
    if r.hash !in db.tokens then (db, RotateFailed)
    else
      var cur := db.tokens[r.hash];
      if cur.spent || cur.revoked then (RevokeFamilyTx(db, r.grant, cur.family), RotateRaced)
      else if access in db.tokens || refresh in db.tokens || access == refresh then (db, RotateFailed)
      else if r.narrowed && r.grant !in db.grants then (db, RotateFailed)
      else
        var d := Spend(db, r.hash);
        var e := d.(tokens := d.tokens[access := Token(r.grant, Access, cur.family, false, false, r.accessMs)]
                                      [refresh := Token(r.grant, Refresh, cur.family, false, false, r.refreshMs)]);
        (if r.narrowed then SetScopes(e, r.grant, r.next) else e, RotateDone)
  }

  datatype ExchangeOutcome = ExchangeDone | ExchangeRaced | ExchangeFailed

  function ExchangeTx(db: Db, code: CodeHash, m: Mint): (Db, ExchangeOutcome) {
    var (d, ok) := Consume(db, code, Some(m.id));
    if !ok then (db, ExchangeRaced)
    else
      var (e, minted) := MintTx(d, m);
      if minted then (e, ExchangeDone) else (db, ExchangeFailed)
  }

  // Revoke these grants and every token of theirs.
  function RevokeAll(db: Db, ids: set<Id>): Db {
    db.(grants := map g | g in db.grants :: if g in ids then db.grants[g].(revoked := true) else db.grants[g],
        tokens := map h | h in db.tokens ::
          if db.tokens[h].grant in ids then db.tokens[h].(revoked := true) else db.tokens[h])
  }

  // The admin sessions some other secret minted.
  function Superseded(db: Db, generation: string): set<Id> {
    set g | g in db.grants && db.grants[g].kind == AdminBootstrap && !db.grants[g].revoked
            && db.grants[g].generation != generation
  }

  // ----- read-only phases -----

  datatype Refusal = Absent | Unknown | TokenRevoked | Expired | WrongPath | WrongClient | InvalidScope
                   | BindingFailed | StoreError

  datatype RefreshRequest = RefreshRequest(value: string, requested: seq<string>, endpoint: Kind, client: string)

  datatype Lookup = LookupRefused(why: Refusal) | LookupReuse(row: Token) | LookupFound(row: Token)

  // service.go:384-406: revoked, then expired, then spent, and all of it before kind and client.
  function LookupRefresh(db: Db, value: string, now: int): Lookup {
    var h := Hash(Refresh, value);
    if h !in db.tokens then LookupRefused(Unknown)
    else
      var row := db.tokens[h];
      if row.revoked then LookupRefused(TokenRevoked)
      else if Milli(now) >= row.expiresMs then LookupRefused(Expired)
      else if row.spent then LookupReuse(row)
      else LookupFound(row)
  }

  // The scopes a refresh ends with: the current ones, or a request that narrows both.
  function NextScopes(g: Grant, requested: seq<string>): Option<set<Scopes.Scope>> {
    if requested == [] then Some(g.scopes)
    else
      match Scopes.Parsed(requested)
      case None => None
      case Some(req) => if req == {} || !(req <= g.minted) || !(req <= g.scopes) then None else Some(req)
  }

  // service.go:408-474
  function PlanRotation(db: Db, req: RefreshRequest, row: Token, now: int, ttl: TTLs): Result<Rotation, Refusal> {
    if row.grant !in db.grants then Err(StoreError)
    else
      var g := db.grants[row.grant];
      if g.kind != req.endpoint then Err(WrongPath)
      else if req.client != "" && g.client != req.client then Err(WrongClient)
      else if g.revoked then Err(TokenRevoked)
      else if g.expiresMs != 0 && Milli(now) >= g.expiresMs then Err(Expired)
      else match NextScopes(g, req.requested)
        case None => Err(InvalidScope)
        case Some(next) =>
          var idle := now + ttl.idle;
          var refreshAt := if g.expiresMs != 0 then Earlier(idle, g.expiresMs * 1_000_000) else idle;
          Ok(Rotation(Hash(Refresh, req.value), row.grant, g.scopes, next, g.minted, next != g.scopes,
                      Milli(now + ttl.access), Milli(refreshAt)))
  }

  datatype CodeLookup =
    | CodeRefused(why: Refusal)
    | CodeReplayed(grant: Option<Id>)
    | CodeUnverified
    | CodeFound(client: string, scopes: set<Scopes.Scope>)

  // oauth.go:178-239. `verified` is the caller's binding check (PKCE, redirect URI, client, resource).
  function LookupCode(db: Db, code: CodeHash, now: int, verified: bool): CodeLookup {
    if code !in db.codes then CodeRefused(Unknown)
    else
      var row := db.codes[code];
      if row.consumed then CodeReplayed(row.grant)
      else if Milli(now) >= row.expiresMs then CodeRefused(Expired)
      else if !verified then CodeUnverified
      else match Scopes.ParsedColumn(row.scopes)
        case None => CodeRefused(InvalidScope)
        case Some(s) => if s == {} then CodeRefused(Unknown)
                        else if Scopes.ADMIN in s then CodeRefused(InvalidScope)
                        else CodeFound(row.client, s)
  }

  // The row a new grant starts with, and its two deadlines (service.go:214-219, oauth.go:246-250).
  function NewMint(id: Id, kind: Kind, client: string, scopes: set<Scopes.Scope>, generation: string,
                   family: Id, access: string, refresh: string, now: int, ttl: TTLs): Mint {
    var deadline := now + ttl.absolute;
    Mint(id, Grant(kind, client, scopes, scopes, generation, false, Milli(deadline)), family,
         Hash(Access, access), Hash(Refresh, refresh),
         Milli(now + ttl.access), Milli(Earlier(now + ttl.idle, deadline)))
  }

  // The scopes MintAdminSession grants: all four, or a requested subset (service.go:191-207).
  function AdminScopes(requested: seq<string>): Option<set<Scopes.Scope>> {
    if requested == [] then Some(Scopes.AdminBootstrap())
    else
      match Scopes.Parsed(requested)
      case None => None
      case Some(req) => if req == {} || !(req <= Scopes.AdminBootstrap()) then None else Some(req)
  }

  // Whether RevokeToken may act on the row a presented value has under one kind (oauth.go:459-488).
  predicate Revocable(db: Db, h: Hash, client: string) {
    && h in db.tokens && db.tokens[h].grant in db.grants
    && db.grants[db.tokens[h].grant].kind == OAuth && db.grants[db.tokens[h].grant].client == client
  }

  // The grant RevokeToken ends: access kind first, then refresh; nothing for a blank client.
  function RevokeTarget(db: Db, value: string, client: string): Option<Id> {
    if Text.TrimSpace(client) == "" then None
    else if Revocable(db, Hash(Access, value), client) then Some(db.tokens[Hash(Access, value)].grant)
    else if Revocable(db, Hash(Refresh, value), client) then Some(db.tokens[Hash(Refresh, value)].grant)
    else None
  }

  datatype AuthLookup = AuthRefused(why: Refusal) | AuthFound(row: Token)

  // service.go:644-661
  function LookupAccess(db: Db, value: string, now: int): AuthLookup {
    var h := Hash(Access, value);
    if Text.TrimSpace(value) == "" then AuthRefused(Absent)
    else if h !in db.tokens then AuthRefused(Unknown)
    else if db.tokens[h].revoked then AuthRefused(TokenRevoked)
    else if Milli(now) >= db.tokens[h].expiresMs then AuthRefused(Expired)
    else AuthFound(db.tokens[h])
  }

  // service.go:663-695
  function ReadCaller(db: Db, row: Token, now: int): Result<Grant, Refusal> {
    if row.grant !in db.grants then Err(Unknown)
    else
      var g := db.grants[row.grant];
      if g.revoked then Err(TokenRevoked)
      else if g.expiresMs != 0 && Milli(now) >= g.expiresMs then Err(Expired)
      else Ok(g)
  }

  // The transactions as the service runs them, statement by statement over the open transaction.
  // A statement that fails abandons the transaction, which puts every table back.
  class Service {
    var db: Db

    constructor ()
      ensures db == Db(map[], map[], map[])
    {
      db := Db(map[], map[], map[]);
    }

    // INSERT INTO tokens, where token_hash is the primary key.
    method InsertToken(h: Hash, t: Token) returns (ok: bool)
      modifies this
      ensures ok == (h !in old(db).tokens)
      ensures db == if ok then old(db).(tokens := old(db).tokens[h := t]) else old(db)
    {
      ok := h !in db.tokens;
      if ok { db := db.(tokens := db.tokens[h := t]); }
    }

    // service.go:237-269
    method Mint(m: Mint) returns (ok: bool)
      modifies this
      requires m.access.kind == Access && m.refresh.kind == Refresh
      ensures (db, ok) == MintTx(old(db), m)
    {
      var before := db;
      ok := m.id !in db.grants;
      if ok { db := db.(grants := db.grants[m.id := m.grant]); }
      if ok { ok := InsertToken(m.access, Token(m.id, Access, m.family, false, false, m.accessMs)); }
      if ok { ok := InsertToken(m.refresh, Token(m.id, Refresh, m.family, false, false, m.refreshMs)); }
      if !ok { db := before; }
    }

    // service.go:593-611
    method RevokeFamilyAndGrant(grant: Id, family: Id)
      modifies this
      ensures db == RevokeFamilyTx(old(db), grant, family)
      // The tokens of the family or of the grant, and the grant, become revoked; nothing else changes.
      ensures db.tokens.Keys == old(db).tokens.Keys && db.grants.Keys == old(db).grants.Keys
      ensures db.codes == old(db).codes
      ensures forall h :: h in db.tokens ==>
        db.tokens[h] == if old(db).tokens[h].family == family || old(db).tokens[h].grant == grant
                        then old(db).tokens[h].(revoked := true) else old(db).tokens[h]
      ensures forall g :: g in db.grants ==>
        db.grants[g] == if g == grant then old(db).grants[g].(revoked := true) else old(db).grants[g]
    {
      db := RevokeFamily(db, family);
      db := RevokeGrant(db, grant);
      db := RevokeTokens(db, grant);
    }

    // service.go:499-545
    method Rotate(r: Rotation, access: Hash, refresh: Hash) returns (outcome: RotateOutcome)
      modifies this
      ensures (db, outcome) == RotateTx(old(db), r, access, refresh)
    {
      var before := db;
      if r.hash !in db.tokens { return RotateFailed; }
      var cur := db.tokens[r.hash];
      if cur.spent || cur.revoked {
        RevokeFamilyAndGrant(r.grant, cur.family);
        return RotateRaced;
      }
      db := Spend(db, r.hash);
      var ok := InsertToken(access, Token(r.grant, Access, cur.family, false, false, r.accessMs));
      if ok { ok := InsertToken(refresh, Token(r.grant, Refresh, cur.family, false, false, r.refreshMs)); }
      if ok && r.narrowed {
        ok := r.grant in db.grants;
        if ok { db := SetScopes(db, r.grant, r.next); }
      }
      if !ok {
        db := before;
        return RotateFailed;
      }
      return RotateDone;
    }

    // oauth.go:269-317
    method Exchange(code: CodeHash, m: Mint) returns (outcome: ExchangeOutcome)
      modifies this
      requires m.access.kind == Access && m.refresh.kind == Refresh
      ensures (db, outcome) == ExchangeTx(old(db), code, m)
    {
      var before := db;
      var (after, won) := Consume(db, code, Some(m.id));
      if !won { return ExchangeRaced; }
      db := after;
      var ok := Mint(m);
      if !ok {
        db := before;
        return ExchangeFailed;
      }
      return ExchangeDone;
    }

    // oauth.go:515-539, oauth.go:343-361 and the logout of internal/api/auth.go:130-137
    method RevokeAuthorization(grant: Id)
      modifies this
      ensures db == RevokeAll(old(db), {grant})
    {
      db := RevokeTokens(db, grant);
      db := RevokeGrant(db, grant);
    }

    // store/authz.go:476-515: one row at a time, inside one transaction.
    method RevokeSuperseded(generation: string) returns (ids: set<Id>)
      modifies this
      ensures ids == Superseded(old(db), generation)
      ensures forall g :: g in ids <==>
        && g in old(db).grants && old(db).grants[g].kind == AdminBootstrap && !old(db).grants[g].revoked
        && old(db).grants[g].generation != generation
      ensures db == RevokeAll(old(db), ids)
    {
      ids := Superseded(db, generation);
      var todo := ids;
      while todo != {}
        invariant todo <= ids
        invariant db == RevokeAll(old(db), ids - todo)
        decreases todo
      {
        var id :| id in todo;
        RevokeAuthorization(id);
        todo := todo - {id};
      }
    }

    // oauth.go:458-493: the first kind under which the value names one of this client's grants.
    method FindRevocable(value: string, client: string) returns (target: Option<Id>)
      ensures target == RevokeTarget(db, value, client)
    {
      target := None;
      if Text.TrimSpace(client) == "" { return; }
      var kinds := [Access, Refresh];
      for i := 0 to |kinds|
        invariant target == None
        invariant forall j :: 0 <= j < i ==> !Revocable(db, Hash(kinds[j], value), client)
      {
        var h := Hash(kinds[i], value);
        if h !in db.tokens { continue; }
        var row := db.tokens[h];
        if row.grant !in db.grants { continue; }
        var g := db.grants[row.grant];
        if g.kind != OAuth { continue; }
        if g.client != client { continue; }
        assert i == 1 ==> !Revocable(db, Hash(kinds[0], value), client);
        return Some(row.grant);
      }
      assert !Revocable(db, Hash(kinds[0], value), client);
      assert !Revocable(db, Hash(kinds[1], value), client);
    }
  }
}
