// What every credential transaction keeps, and what no transaction ever takes back.
module CredentialInvariants {
  import opened Wrappers
  import opened Credentials
  import Scopes

  // A refresh token that a refresh may still redeem.
  predicate Live(db: Db, h: Hash, g: Id) {
    && h in db.tokens && h.kind == Refresh && db.tokens[h].grant == g
    && !db.tokens[h].spent && !db.tokens[h].revoked
  }

  ghost predicate HasLive(db: Db, g: Id) { exists h :: Live(db, h, g) }

  // Every token belongs to a stored grant, under the kind its hash was taken with.
  ghost predicate TokensOwned(db: Db) {
    forall h :: h in db.tokens ==> db.tokens[h].kind == h.kind && db.tokens[h].grant in db.grants
  }

  ghost predicate FamiliesOwned(db: Db) {
    forall h, k :: h in db.tokens && k in db.tokens && db.tokens[h].family == db.tokens[k].family
      ==> db.tokens[h].grant == db.tokens[k].grant
  }

  // A grant and its tokens are revoked together or not at all.
  ghost predicate RevokedTogether(db: Db) {
    forall h :: h in db.tokens && db.tokens[h].grant in db.grants ==>
      db.tokens[h].revoked == db.grants[db.tokens[h].grant].revoked
  }

  ghost predicate OneLive(db: Db) {
    && (forall h, k, g :: Live(db, h, g) && Live(db, k, g) ==> h == k)
    && (forall g :: g in db.grants && !db.grants[g].revoked ==> HasLive(db, g))
  }

  predicate ScopesSound(g: Grant) {
    && g.scopes <= g.minted <= Scopes.AdminBootstrap()
    && (g.kind == OAuth ==> Scopes.ADMIN !in g.minted)
  }

  ghost predicate GrantsSound(db: Db) { forall g :: g in db.grants ==> ScopesSound(db.grants[g]) }

  // No refresh token outlives the deadline fixed when its grant was minted.
  ghost predicate DeadlinesSound(db: Db) {
    forall h :: h in db.tokens && h.kind == Refresh && db.tokens[h].grant in db.grants
      && db.grants[db.tokens[h].grant].expiresMs != 0
      ==> db.tokens[h].expiresMs <= db.grants[db.tokens[h].grant].expiresMs
  }

  // c is the code whose exchange minted g.
  predicate Bought(db: Db, c: CodeHash, g: Id) { c in db.codes && db.codes[c].grant == Some(g) }

  ghost predicate HasCode(db: Db, g: Id) { exists c :: Bought(db, c, g) }

  // Codes and OAuth grants correspond one to one, and only a consumed code has a grant.
  ghost predicate CodesSound(db: Db) {
    && (forall c :: c in db.codes && db.codes[c].grant.Some? ==>
          db.codes[c].consumed && db.codes[c].grant.value in db.grants
          && db.grants[db.codes[c].grant.value].kind == OAuth)
    && (forall c, d, g :: Bought(db, c, g) && Bought(db, d, g) ==> c == d)
    && (forall g :: g in db.grants && db.grants[g].kind == OAuth ==> HasCode(db, g))
  }

  ghost predicate Sound(db: Db) {
    TokensOwned(db) && FamiliesOwned(db) && RevokedTogether(db) && OneLive(db)
    && GrantsSound(db) && DeadlinesSound(db) && CodesSound(db)
  }

  // ----- what a later state may differ in -----

  ghost predicate GrantsLater(db: Db, later: Db) {
    forall g :: g in db.grants ==>
      && g in later.grants
      && later.grants[g] == db.grants[g].(scopes := later.grants[g].scopes, revoked := later.grants[g].revoked)
      && later.grants[g].scopes <= db.grants[g].scopes
      && (db.grants[g].revoked ==> later.grants[g].revoked)
  }

  ghost predicate TokensLater(db: Db, later: Db) {
    forall h :: h in db.tokens ==>
      && h in later.tokens
      && later.tokens[h] == db.tokens[h].(spent := later.tokens[h].spent, revoked := later.tokens[h].revoked)
      && (db.tokens[h].spent ==> later.tokens[h].spent)
      && (db.tokens[h].revoked ==> later.tokens[h].revoked)
  }

  ghost predicate CodesLater(db: Db, later: Db) {
    forall c :: c in db.codes ==>
      && c in later.codes
      && later.codes[c] == db.codes[c].(consumed := later.codes[c].consumed, grant := later.codes[c].grant)
      && (db.codes[c].consumed ==> later.codes[c] == db.codes[c])
  }

  // The scopes of a grant stand still for as long as one refresh token of it stays live.
  ghost predicate ScopesHeld(db: Db, later: Db) {
    forall h, g :: Live(db, h, g) && Live(later, h, g) && g in db.grants && g in later.grants
      ==> later.grants[g].scopes == db.grants[g].scopes
  }

  ghost predicate Later(db: Db, later: Db) {
    GrantsLater(db, later) && TokensLater(db, later) && CodesLater(db, later) && ScopesHeld(db, later)
  }

  lemma LaterReflexive(db: Db)
    ensures Later(db, db)
  {}

  // ----- revocation -----

  lemma RevokeAllRows(db: Db, ids: set<Id>)
    requires Sound(db)
    ensures TokensOwned(RevokeAll(db, ids)) && RevokedTogether(RevokeAll(db, ids))
    ensures GrantsSound(RevokeAll(db, ids)) && DeadlinesSound(RevokeAll(db, ids))
  {}

  lemma RevokeAllLive(db: Db, ids: set<Id>)
    requires TokensOwned(db) && OneLive(db)
    ensures OneLive(RevokeAll(db, ids))
  {
    var d := RevokeAll(db, ids);
    forall g | g in d.grants && !d.grants[g].revoked ensures HasLive(d, g) {
      assert HasLive(db, g);
      var h :| Live(db, h, g);
      assert Live(d, h, g);
    }
    assert forall h, g :: Live(d, h, g) ==> Live(db, h, g);
  }

  lemma SameCodes(db: Db, d: Db)
    requires CodesSound(db) && d.codes == db.codes && GrantsLater(db, d)
    requires forall g :: g in d.grants && d.grants[g].kind == OAuth ==> g in db.grants
    ensures CodesSound(d)
  {
    assert forall c, g :: Bought(d, c, g) <==> Bought(db, c, g);
    forall g | g in d.grants && d.grants[g].kind == OAuth ensures HasCode(d, g) {
      assert HasCode(db, g);
      var c :| Bought(db, c, g);
      assert Bought(d, c, g);
    }
  }

  lemma RevokeAllLater(db: Db, ids: set<Id>)
    ensures Later(db, RevokeAll(db, ids))
  {}

  lemma RevokeAllKeeps(db: Db, ids: set<Id>)
    requires Sound(db)
    ensures Sound(RevokeAll(db, ids)) && Later(db, RevokeAll(db, ids))
  {
    RevokeAllRows(db, ids);
    RevokeAllLive(db, ids);
    RevokeAllLater(db, ids);
    SameCodes(db, RevokeAll(db, ids));
  }

  // Revoking a family, its grant and the grant's tokens is revoking one grant: a family never
  // holds another grant's token.
  lemma FamilyIsOneGrant(db: Db, h: Hash, grant: Id)
    requires TokensOwned(db) && FamiliesOwned(db)
    requires h in db.tokens && db.tokens[h].grant == grant
    ensures RevokeFamilyTx(db, grant, db.tokens[h].family) == RevokeAll(db, {grant})
  {}

  // ----- minting -----

  // A family id is a fresh UUID.
  predicate FreshFamily(db: Db, family: Id) {
    forall h :: h in db.tokens ==> db.tokens[h].family != family
  }

  ghost predicate MintSound(m: Mint) {
    && m.access.kind == Access && m.refresh.kind == Refresh
    && !m.grant.revoked && ScopesSound(m.grant) && m.grant.scopes == m.grant.minted
    && (m.grant.expiresMs != 0 ==> m.refreshMs <= m.grant.expiresMs)
  }

  // Everything but the code that pays for an OAuth grant.
  ghost predicate SoundButCodes(db: Db) {
    TokensOwned(db) && FamiliesOwned(db) && RevokedTogether(db) && OneLive(db)
    && GrantsSound(db) && DeadlinesSound(db)
  }

  lemma MintRows(db: Db, m: Mint)
    requires TokensOwned(db) && RevokedTogether(db) && GrantsSound(db) && MintSound(m)
    ensures var d := MintTx(db, m).0;
      TokensOwned(d) && RevokedTogether(d) && GrantsSound(d)
  {}

  lemma MintFamilies(db: Db, m: Mint)
    requires FamiliesOwned(db) && FreshFamily(db, m.family)
    ensures FamiliesOwned(MintTx(db, m).0)
  {}

  lemma MintLive(db: Db, m: Mint)
    requires TokensOwned(db) && OneLive(db) && MintSound(m)
    ensures OneLive(MintTx(db, m).0)
    ensures MintTx(db, m).1 ==> Live(MintTx(db, m).0, m.refresh, m.id)
  {
    var (d, ok) := MintTx(db, m);
    if ok {
      assert forall h, g :: Live(d, h, g) ==> (h == m.refresh && g == m.id) || (Live(db, h, g) && g != m.id);
      forall g | g in d.grants && !d.grants[g].revoked ensures HasLive(d, g) {
        if g == m.id {
          assert Live(d, m.refresh, g);
        } else {
          assert HasLive(db, g);
          var h :| Live(db, h, g);
          assert Live(d, h, g);
        }
      }
    }
  }

  lemma MintLater(db: Db, m: Mint)
    ensures Later(db, MintTx(db, m).0)
  {}

  lemma MintKeeps(db: Db, m: Mint)
    requires SoundButCodes(db) && MintSound(m) && FreshFamily(db, m.family)
    ensures SoundButCodes(MintTx(db, m).0) && Later(db, MintTx(db, m).0)
  {
    MintRows(db, m);
    MintFamilies(db, m);
    MintLive(db, m);
    MintLater(db, m);
  }

  lemma AdminMintKeeps(db: Db, m: Mint)
    requires Sound(db) && MintSound(m) && m.grant.kind == AdminBootstrap && FreshFamily(db, m.family)
    ensures Sound(MintTx(db, m).0) && Later(db, MintTx(db, m).0)
  {
    MintKeeps(db, m);
    SameCodes(db, MintTx(db, m).0);
  }

  // ----- codes -----

  // Tokens and grants untouched, codes only gone forward.
  lemma SameRows(db: Db, d: Db)
    requires SoundButCodes(db) && d.tokens == db.tokens && d.grants == db.grants && CodesLater(db, d)
    ensures SoundButCodes(d) && Later(db, d)
  {
    assert forall h, g :: Live(d, h, g) <==> Live(db, h, g);
    assert forall g :: HasLive(db, g) ==> HasLive(d, g);
  }

  lemma UnboughtCodes(db: Db, d: Db)
    requires CodesSound(db) && d.grants == db.grants
    requires forall c, g :: Bought(d, c, g) <==> Bought(db, c, g)
    requires forall c :: c in d.codes && d.codes[c].grant.Some? ==> c in db.codes && d.codes[c] == db.codes[c]
    ensures CodesSound(d)
  {
    assert forall g :: HasCode(db, g) ==> HasCode(d, g);
  }

  lemma ConsumeKeeps(db: Db, code: CodeHash)
    requires Sound(db)
    ensures Sound(Consume(db, code, None).0) && Later(db, Consume(db, code, None).0)
  {
    var d := Consume(db, code, None).0;
    SameRows(db, d);
    UnboughtCodes(db, d);
  }

  lemma ExchangeCodes(db: Db, code: CodeHash, m: Mint)
    requires CodesSound(db) && m.grant.kind == OAuth && ExchangeTx(db, code, m).1 == ExchangeDone
    ensures CodesSound(ExchangeTx(db, code, m).0)
  {
    var e := ExchangeTx(db, code, m).0;
    assert db.codes[code].grant == None;
    assert forall c, g :: Bought(e, c, g) <==> (c == code && g == m.id) || Bought(db, c, g);
    forall g | g in e.grants && e.grants[g].kind == OAuth ensures HasCode(e, g) {
      if g == m.id {
        assert Bought(e, code, g);
      } else {
        assert HasCode(db, g);
        var c :| Bought(db, c, g);
        assert Bought(e, c, g);
      }
    }
  }

  lemma ExchangeKeeps(db: Db, code: CodeHash, m: Mint)
    requires Sound(db) && MintSound(m) && m.grant.kind == OAuth && FreshFamily(db, m.family)
    ensures Sound(ExchangeTx(db, code, m).0) && Later(db, ExchangeTx(db, code, m).0)
  {
    if ExchangeTx(db, code, m).1 == ExchangeDone {
      var d := Consume(db, code, Some(m.id)).0;
      SameRows(db, d);
      MintKeeps(d, m);
      ExchangeCodes(db, code, m);
    } else {
      LaterReflexive(db);
    }
  }

  lemma IssueKeeps(db: Db, code: CodeHash, row: Code)
    requires Sound(db) && code !in db.codes && !row.consumed && row.grant == None
    ensures Sound(db.(codes := db.codes[code := row])) && Later(db, db.(codes := db.codes[code := row]))
  {
    var d := db.(codes := db.codes[code := row]);
    SameRows(db, d);
    UnboughtCodes(db, d);
  }

  // ----- rotation -----

  // What the stale plan of a refresh still means when its transaction runs. While the presented
  // token is live nothing can have narrowed the grant, so `current` is what the grant holds now.
  ghost predicate PlanStands(db: Db, r: Rotation) {
    && r.hash in db.tokens && r.hash.kind == Refresh && db.tokens[r.hash].grant == r.grant
    && r.grant in db.grants && r.minted == db.grants[r.grant].minted
    && r.next <= r.current <= r.minted
    && r.narrowed == (r.next != r.current)
    && (db.grants[r.grant].expiresMs != 0 ==> r.refreshMs <= db.grants[r.grant].expiresMs)
    && (Live(db, r.hash, r.grant) ==> db.grants[r.grant].scopes == r.current)
  }

  lemma RotateOwned(db: Db, r: Rotation, access: Hash, refresh: Hash)
    requires TokensOwned(db) && PlanStands(db, r) && access.kind == Access && refresh.kind == Refresh
    requires RotateTx(db, r, access, refresh).1 == RotateDone
    ensures TokensOwned(RotateTx(db, r, access, refresh).0)
  {}

  lemma RotateRevoked(db: Db, r: Rotation, access: Hash, refresh: Hash)
    requires RevokedTogether(db) && PlanStands(db, r)
    requires RotateTx(db, r, access, refresh).1 == RotateDone
    ensures RevokedTogether(RotateTx(db, r, access, refresh).0)
  {}

  lemma RotateGrants(db: Db, r: Rotation, access: Hash, refresh: Hash)
    requires GrantsSound(db) && PlanStands(db, r)
    requires RotateTx(db, r, access, refresh).1 == RotateDone
    ensures GrantsSound(RotateTx(db, r, access, refresh).0)
  {
    assert ScopesSound(db.grants[r.grant]);
  }

  lemma RotateDeadlines(db: Db, r: Rotation, access: Hash, refresh: Hash)
    requires DeadlinesSound(db) && PlanStands(db, r) && access.kind == Access && refresh.kind == Refresh
    requires RotateTx(db, r, access, refresh).1 == RotateDone
    ensures DeadlinesSound(RotateTx(db, r, access, refresh).0)
  {}

  lemma RotateFamilies(db: Db, r: Rotation, access: Hash, refresh: Hash)
    requires FamiliesOwned(db) && PlanStands(db, r)
    requires RotateTx(db, r, access, refresh).1 == RotateDone
    ensures FamiliesOwned(RotateTx(db, r, access, refresh).0)
  {}

  // The one live token of the grant moves from the presented hash to the new one.
  lemma RotateLive(db: Db, r: Rotation, access: Hash, refresh: Hash)
    requires TokensOwned(db) && OneLive(db)
    requires PlanStands(db, r) && access.kind == Access && refresh.kind == Refresh
    requires RotateTx(db, r, access, refresh).1 == RotateDone
    ensures OneLive(RotateTx(db, r, access, refresh).0)
    ensures var d := RotateTx(db, r, access, refresh).0;
      forall h, g :: Live(d, h, g) <==> (h == refresh && g == r.grant) || (Live(db, h, g) && g != r.grant)
  {
    var d := RotateTx(db, r, access, refresh).0;
    assert Live(db, r.hash, r.grant);
    forall h, g
      ensures Live(d, h, g) <==> (h == refresh && g == r.grant) || (Live(db, h, g) && g != r.grant)
    {
      assert Live(db, h, r.grant) ==> h == r.hash;
    }
    forall g | g in d.grants && !d.grants[g].revoked ensures HasLive(d, g) {
      if g == r.grant {
        assert Live(d, refresh, g);
      } else {
        assert HasLive(db, g);
        var h :| Live(db, h, g);
        assert Live(d, h, g);
      }
    }
  }

  lemma RotateHolds(db: Db, r: Rotation, access: Hash, refresh: Hash)
    requires TokensOwned(db) && OneLive(db)
    requires PlanStands(db, r) && access.kind == Access && refresh.kind == Refresh
    requires RotateTx(db, r, access, refresh).1 == RotateDone
    ensures ScopesHeld(db, RotateTx(db, r, access, refresh).0)
  {
    RotateLive(db, r, access, refresh);
  }

  lemma RotateLater(db: Db, r: Rotation, access: Hash, refresh: Hash)
    requires PlanStands(db, r) && RotateTx(db, r, access, refresh).1 == RotateDone
    ensures var d := RotateTx(db, r, access, refresh).0;
      GrantsLater(db, d) && TokensLater(db, d) && CodesLater(db, d)
  {
    assert Live(db, r.hash, r.grant);
  }

  lemma RotateKeeps(db: Db, r: Rotation, access: Hash, refresh: Hash)
    requires Sound(db) && PlanStands(db, r) && access.kind == Access && refresh.kind == Refresh
    ensures Sound(RotateTx(db, r, access, refresh).0) && Later(db, RotateTx(db, r, access, refresh).0)
  {
    match RotateTx(db, r, access, refresh).1
    case RotateFailed => LaterReflexive(db);
    case RotateRaced =>
      FamilyIsOneGrant(db, r.hash, r.grant);
      RevokeAllKeeps(db, {r.grant});
    case RotateDone =>
      RotateDoneTokens(db, r, access, refresh);
      RotateDoneRows(db, r, access, refresh);
      RotateDoneLater(db, r, access, refresh);
  }

  lemma RotateDoneTokens(db: Db, r: Rotation, access: Hash, refresh: Hash)
    requires Sound(db) && PlanStands(db, r) && access.kind == Access && refresh.kind == Refresh
    requires RotateTx(db, r, access, refresh).1 == RotateDone
    ensures var d := RotateTx(db, r, access, refresh).0;
      TokensOwned(d) && FamiliesOwned(d) && RevokedTogether(d) && OneLive(d)
  {
    RotateOwned(db, r, access, refresh);
    RotateRevoked(db, r, access, refresh);
    RotateFamilies(db, r, access, refresh);
    RotateLive(db, r, access, refresh);
  }

  lemma RotateDoneRows(db: Db, r: Rotation, access: Hash, refresh: Hash)
    requires Sound(db) && PlanStands(db, r) && access.kind == Access && refresh.kind == Refresh
    requires RotateTx(db, r, access, refresh).1 == RotateDone
    ensures var d := RotateTx(db, r, access, refresh).0;
      GrantsSound(d) && DeadlinesSound(d) && CodesSound(d)
  {
    RotateGrants(db, r, access, refresh);
    RotateDeadlines(db, r, access, refresh);
    SameCodes(db, RotateTx(db, r, access, refresh).0);
  }

  lemma RotateDoneLater(db: Db, r: Rotation, access: Hash, refresh: Hash)
    requires Sound(db) && PlanStands(db, r) && access.kind == Access && refresh.kind == Refresh
    requires RotateTx(db, r, access, refresh).1 == RotateDone
    ensures Later(db, RotateTx(db, r, access, refresh).0)
  {
    RotateHolds(db, r, access, refresh);
    RotateLater(db, r, access, refresh);
  }

  // ----- counting -----

  ghost function RefreshTokens(db: Db, g: Id): set<Hash> {
    set h | h in db.tokens && h.kind == Refresh && db.tokens[h].grant == g
  }

  ghost function SpentTokens(db: Db, g: Id): set<Hash> {
    set h | h in RefreshTokens(db, g) && db.tokens[h].spent
  }

  // An unrevoked grant has minted exactly one refresh token more than it has spent.
  lemma MintedIsSpentPlusOne(db: Db, g: Id)
    requires Sound(db) && g in db.grants && !db.grants[g].revoked
    ensures |RefreshTokens(db, g)| == |SpentTokens(db, g)| + 1
  {
    assert HasLive(db, g);
    var live :| Live(db, live, g);
    forall h | h in RefreshTokens(db, g) && h !in SpentTokens(db, g) ensures h == live {
      assert Live(db, h, g);
    }
    assert RefreshTokens(db, g) == SpentTokens(db, g) + {live};
  }
}
