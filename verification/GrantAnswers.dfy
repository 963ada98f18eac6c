// What an exchange, an admin session and a revocation are answered, in the terms of CredentialAnswers.
module GrantAnswers {
  import opened Wrappers
  import opened Credentials
  import opened CredentialInvariants
  import opened CredentialRuns
  import opened CredentialTheorems
  import opened CredentialAnswers
  import Scopes
  import Text

  // ----- exchanging a code -----

  // What the read of an exchange must find: the code is there, unconsumed and unexpired, its binding
  // holds, and its column names known scopes, at least one, and not admin.
  ghost predicate GoodCode(db: Db, code: CodeHash, now: int, verified: bool, scopes: set<string>) {
    && code in db.codes && !db.codes[code].consumed && Milli(now) < db.codes[code].expiresMs && verified
    && Asks(Text.Fields(db.codes[code].scopes), scopes) && scopes != {} && scopes <= MESSAGES
  }

  // The tables with a new grant, its first two tokens with it; a refresh token ends with the deadline.
  function GrantedDb(db: Db, id: Id, kind: Kind, client: string, generation: string, scopes: set<string>, family: Id,
      access: string, refresh: string, now: int, ttl: TTLs): Db {
    var deadline := Milli(now + ttl.absolute);
    var refreshMs := if ttl.idle < ttl.absolute then Milli(now + ttl.idle) else deadline;
    Db(db.tokens[Hash(Access, access) := Token(id, Access, family, false, false, Milli(now + ttl.access))]
                [Hash(Refresh, refresh) := Token(id, Refresh, family, false, false, refreshMs)],
       db.grants[id := Grant(kind, client, scopes, scopes, generation, false, deadline)],
       db.codes)
  }

  predicate NewValues(db: Db, id: Id, family: Id, access: string, refresh: string) {
    id !in db.grants && FreshFamily(db, family) && Unused(db, access, refresh)
  }

  lemma FoundIff(db: Db, code: CodeHash, now: int, verified: bool, client: string, scopes: set<string>)
    ensures LookupCode(db, code, now, verified) == CodeFound(client, scopes) <==>
      GoodCode(db, code, now, verified, scopes) && client == db.codes[code].client
  {
    if code in db.codes {
      var list := Text.Fields(db.codes[code].scopes);
      AsksIsNamed(list, Scopes.Named(list));
      ParsedWhenKnown(list, Scopes.Named(list));
      AsksIsNamed(list, scopes);
    }
  }

  lemma ExchangeReads(s: Sys, r: ReqId, code: CodeHash, now: int, verified: bool, client: string, scopes: set<string>)
    requires r !in s.reqs
    ensures var u := Step(s, BeginExchange(r, code, now, verified));
      && u.db == s.db && r in u.reqs
      && (u.reqs[r] == ExchangeReady(code, client, scopes, now) <==>
            GoodCode(s.db, code, now, verified, scopes) && client == s.db.codes[code].client)
      && (u.reqs[r].ExchangeReady? ==> u.reqs[r].code == code && u.reqs[r].now == now)
  {
    FoundIff(s.db, code, now, verified, client, scopes);
  }

  // What the read of an exchange that finds no good code is answered: a replay, a failed binding, or why
  // it is refused.
  lemma WhyNotExchanged(s: Sys, r: ReqId, code: CodeHash, now: int, verified: bool)
    requires r !in s.reqs && forall scopes :: !GoodCode(s.db, code, now, verified, scopes)
    ensures var u := Step(s, BeginExchange(r, code, now, verified));
      && u.db == s.db && r in u.reqs
      && u.reqs[r] ==
           if code !in s.db.codes then Done(Refused(Unknown))
           else if s.db.codes[code].consumed then ReplayFound(code, s.db.codes[code].grant)
           else if Milli(now) >= s.db.codes[code].expiresMs then Done(Refused(Expired))
           else if !verified then ExchangeBurn(code)
           else if Asks(Text.Fields(s.db.codes[code].scopes), {}) then Done(Refused(Unknown))
           else Done(Refused(InvalidScope))
  {
    if code in s.db.codes {
      var list := Text.Fields(s.db.codes[code].scopes);
      AsksIsNamed(list, {});
      AsksIsNamed(list, Scopes.Named(list));
      ParsedWhenKnown(list, Scopes.Named(list));
      assert !GoodCode(s.db, code, now, verified, Scopes.Named(list));
    }
  }

  // s and t are the tables at the read and the transaction of an exchange, and v what the transaction
  // leaves. It is granted for these scopes exactly when the read found a good code, nobody consumed it
  // before the transaction, and the new values are new; and then the grant is the code's client's, with
  // the code's scopes, from the instant of the read.
  ghost predicate ExchangeAnswered(s: Db, t: Db, v: Sys, r: ReqId, code: CodeHash, now: int, verified: bool, ttl: TTLs,
      id: Id, family: Id, access: string, refresh: string, scopes: set<string>)
  {
    && r in v.reqs
    && (GoodCode(s, code, now, verified, scopes) ==>
          && code in t.codes
          && (v.reqs[r] == Done(Granted(code, id)) <==>
                !t.codes[code].consumed && NewValues(t, id, family, access, refresh))
          && (v.reqs[r] == Done(Granted(code, id)) ==>
                && v.db == GrantedDb(t, id, OAuth, s.codes[code].client, "", scopes, family, access, refresh, now, ttl)
                           .(codes := t.codes[code := t.codes[code].(consumed := true, grant := Some(id))])))
    && (v.reqs[r] == Done(Granted(code, id)) ==> exists bought :: GoodCode(s, code, now, verified, bought))
  }

  lemma ExchangeCommits(t: Sys, r: ReqId, ttl: TTLs, id: Id, family: Id, access: string, refresh: string)
    requires r in t.reqs && t.reqs[r].ExchangeReady? && t.reqs[r].code in t.db.codes
    ensures var p := t.reqs[r];
      var v := Step(t, CommitExchange(r, ttl, id, family, access, refresh));
      && r in v.reqs
      && (v.reqs[r] == Done(Granted(p.code, id)) <==>
            !t.db.codes[p.code].consumed && NewValues(t.db, id, family, access, refresh))
      && (v.reqs[r] == Done(Granted(p.code, id)) ==>
            v.db == GrantedDb(t.db, id, OAuth, p.client, "", p.scopes, family, access, refresh, p.now, ttl)
                    .(codes := t.db.codes[p.code := t.db.codes[p.code].(consumed := true, grant := Some(id))]))
  {}

  lemma ExchangeEnds(s: Sys, t: Sys, r: ReqId, code: CodeHash, now: int, verified: bool, ttl: TTLs, id: Id, family: Id,
      access: string, refresh: string, scopes: set<string>)
    requires r !in s.reqs && Inv(t)
    requires r in t.reqs && t.reqs[r] == Step(s, BeginExchange(r, code, now, verified)).reqs[r]
    ensures ExchangeAnswered(s.db, t.db, Step(t, CommitExchange(r, ttl, id, family, access, refresh)),
                             r, code, now, verified, ttl, id, family, access, refresh, scopes)
  {
    var p := t.reqs[r];
    ExchangePlans(s, r, code, now, verified, scopes);
    if p.ExchangeReady? {
      assert PhaseStands(t.db, p);
      ExchangeCommits(t, r, ttl, id, family, access, refresh);
    } else {
      assert Step(t, CommitExchange(r, ttl, id, family, access, refresh)) == t;
    }
  }

  lemma ExchangePlans(s: Sys, r: ReqId, code: CodeHash, now: int, verified: bool, scopes: set<string>)
    requires r !in s.reqs
    ensures var u := Step(s, BeginExchange(r, code, now, verified));
      && r in u.reqs && !(u.reqs[r].Done? && u.reqs[r].outcome.Granted?)
      && (GoodCode(s.db, code, now, verified, scopes) ==>
            u.reqs[r] == ExchangeReady(code, s.db.codes[code].client, scopes, now))
      && (u.reqs[r].ExchangeReady? ==>
            u.reqs[r].code == code && u.reqs[r].now == now && GoodCode(s.db, code, now, verified, u.reqs[r].scopes))
  {
    if code in s.db.codes { ExchangeReads(s, r, code, now, verified, s.db.codes[code].client, scopes); }
    var p := Step(s, BeginExchange(r, code, now, verified)).reqs[r];
    if p.ExchangeReady? { ExchangeReads(s, r, code, now, verified, p.client, p.scopes); }
  }

  // Over every run, whatever is done by others in between.
  lemma ExchangeBuysWhatTheCodeSays(before: seq<Action>, r: ReqId, code: CodeHash, now: int, verified: bool,
      between: seq<Action>, ttl: TTLs, id: Id, family: Id, access: string, refresh: string, scopes: set<string>)
    requires r !in Reached(before).reqs
    requires Waits(Step(Reached(before), BeginExchange(r, code, now, verified)), between, r)
    ensures var s := Reached(before);
      var t := Run(Step(s, BeginExchange(r, code, now, verified)), between);
      ExchangeAnswered(s.db, t.db, Step(t, CommitExchange(r, ttl, id, family, access, refresh)),
                       r, code, now, verified, ttl, id, family, access, refresh, scopes)
  {
    var s := Reached(before);
    ReachedInv(before);
    StepKeeps(s, BeginExchange(r, code, now, verified));
    RunKeeps(Step(s, BeginExchange(r, code, now, verified)), between);
    ExchangeEnds(s, Run(Step(s, BeginExchange(r, code, now, verified)), between), r, code, now, verified, ttl, id,
                 family, access, refresh, scopes);
  }

  lemma ExchangeMoves(s: Sys, a: Action, r: ReqId)
    requires r in Step(s, a).reqs && (r !in s.reqs || s.reqs[r] != Step(s, a).reqs[r])
    ensures var p := Step(s, a).reqs[r];
      && (p.Done? && p.outcome.Granted? ==>
            a.CommitExchange? && a.r == r && r in s.reqs && s.reqs[r].ExchangeReady?
            && p.outcome.code == s.reqs[r].code && p.outcome.grant == a.id)
      && (p.ExchangeReady? ==> a.BeginExchange? && a.r == r && r !in s.reqs)
  {}

  // And in every run whoever was granted had passed the binding check with an unexpired code, and holds
  // what that code names, as its client, until the deadlines counted from then.
  lemma WhoeverWasGranted(actions: seq<Action>, r: ReqId, code: CodeHash, g: Id)
      returns (i: nat, j: nat, scopes: set<string>)
    requires r in Reached(actions).reqs && Reached(actions).reqs[r] == Done(Granted(code, g))
    ensures i < j < |actions| && actions[i].BeginExchange? && actions[i].code == code && actions[i].verified
    ensures actions[j].CommitExchange? && actions[j].id == g
    ensures GoodCode(Reached(actions[..i]).db, code, actions[i].now, true, scopes)
    ensures ExchangeAnswered(Reached(actions[..i]).db, Reached(actions[..j]).db, Reached(actions[..j + 1]),
                             r, code, actions[i].now, true, actions[j].ttl, g, actions[j].family,
                             actions[j].access, actions[j].refresh, scopes)
    ensures Reached(actions[..j + 1]).reqs[r] == Done(Granted(code, g))
  {
    j := Cut(actions, r);
    var t := Reached(actions[..j]);
    ExchangeMoves(t, actions[j], r);
    i := Cut(actions[..j], r);
    assert actions[..j][..i] == actions[..i] && actions[..j][..i + 1] == actions[..i + 1];
    var s, a, b := Reached(actions[..i]), actions[i], actions[j];
    ExchangeMoves(s, a, r);
    ReachedInv(actions[..j]);
    scopes := t.reqs[r].scopes;
    ExchangeReads(s, r, a.code, a.now, a.verified, t.reqs[r].client, scopes);
    ExchangeEnds(s, t, r, a.code, a.now, a.verified, b.ttl, b.id, b.family, b.access, b.refresh, scopes);
  }

  // A failed binding check consumes the code and buys nothing; where somebody else consumed it first,
  // nothing is written.
  lemma FailedBindingBurnsTheCode(before: seq<Action>, r: ReqId, code: CodeHash, now: int, between: seq<Action>)
    requires r !in Reached(before).reqs && code in Reached(before).db.codes && !Reached(before).db.codes[code].consumed
    requires Milli(now) < Reached(before).db.codes[code].expiresMs
    requires Waits(Step(Reached(before), BeginExchange(r, code, now, false)), between, r)
    ensures var t := Run(Step(Reached(before), BeginExchange(r, code, now, false)), between);
      var v := Step(t, CommitBurn(r));
      && r in v.reqs && v.reqs[r] == Done(Refused(BindingFailed))
      && code in t.db.codes && code in v.db.codes
      && (t.db.codes[code].consumed ==> v.db == t.db)
      && (!t.db.codes[code].consumed ==>
            && v.db == t.db.(codes := t.db.codes[code := t.db.codes[code].(consumed := true)])
            && v.db.codes[code].grant == None)
  {
    var s := Reached(before);
    ReachedInv(before);
    StepKeeps(s, BeginExchange(r, code, now, false));
    RunKeeps(Step(s, BeginExchange(r, code, now, false)), between);
    BurnEnds(s, Run(Step(s, BeginExchange(r, code, now, false)), between), r, code, now);
  }

  lemma BurnEnds(s: Sys, t: Sys, r: ReqId, code: CodeHash, now: int)
    requires r !in s.reqs && code in s.db.codes && !s.db.codes[code].consumed && Milli(now) < s.db.codes[code].expiresMs
    requires r in t.reqs && t.reqs[r] == Step(s, BeginExchange(r, code, now, false)).reqs[r] && Inv(t)
    ensures var v := Step(t, CommitBurn(r));
      && r in v.reqs && v.reqs[r] == Done(Refused(BindingFailed))
      && code in t.db.codes && code in v.db.codes
      && (t.db.codes[code].consumed ==> v.db == t.db)
      && (!t.db.codes[code].consumed ==>
            && v.db == t.db.(codes := t.db.codes[code := t.db.codes[code].(consumed := true)])
            && v.db.codes[code].grant == None)
  {
    assert t.reqs[r] == ExchangeBurn(code) && PhaseStands(t.db, t.reqs[r]);
    assert !t.db.codes[code].consumed ==> t.db.codes[code].grant == None;
  }

  // A code keeps the client, the scopes and the expiry it was issued with.
  lemma IssuedCodeStays(before: seq<Action>, code: CodeHash, client: string, column: string, expiresMs: int,
      after: seq<Action>)
    requires code !in Reached(before).db.codes
    ensures var db := Run(Step(Reached(before), IssueCode(code, client, column, expiresMs)), after).db;
      && code in db.codes && db.codes[code].client == client && db.codes[code].scopes == column
      && db.codes[code].expiresMs == expiresMs
  {
    ReachedInv(before);
    StepKeeps(Reached(before), IssueCode(code, client, column, expiresMs));
    RunKeeps(Step(Reached(before), IssueCode(code, client, column, expiresMs)), after);
  }

  // ----- an admin session -----

  // All four scopes when none are asked for, else exactly those asked for, known and at least one.
  ghost predicate AdminAsks(list: seq<string>, scopes: set<string>) {
    if list == [] then scopes == MESSAGES + {"admin"}
    else Asks(list, scopes) && scopes != {} && scopes <= MESSAGES + {"admin"}
  }

  lemma AdminScopesAreAsked(list: seq<string>, scopes: set<string>)
    ensures AdminScopes(list) == Some(scopes) <==> AdminAsks(list, scopes)
  {
    AsksIsNamed(list, Scopes.Named(list));
    ParsedWhenKnown(list, Scopes.Named(list));
    AsksIsNamed(list, scopes);
    assert MESSAGES + {"admin"} == Scopes.AdminBootstrap();
  }

  // A session is minted with exactly these scopes, or nothing changes.
  lemma AdminSessionHoldsWhatIsAsked(s: Sys, list: seq<string>, generation: string, now: int, ttl: TTLs, id: Id,
      family: Id, access: string, refresh: string, scopes: set<string>)
    ensures var t := Step(s, MintAdmin(list, generation, now, ttl, id, family, access, refresh));
      && (AdminAsks(list, scopes) && NewValues(s.db, id, family, access, refresh) ==>
            && t.reqs == s.reqs
            && t.db == GrantedDb(s.db, id, AdminBootstrap, "", generation, scopes, family, access, refresh, now, ttl))
      && ((forall asked :: !AdminAsks(list, asked)) || !NewValues(s.db, id, family, access, refresh) ==> t == s)
  {
    AdminScopesAreAsked(list, scopes);
    if AdminScopes(list).Some? { AdminScopesAreAsked(list, AdminScopes(list).value); }
  }

  // ----- revoking by a presented token -----

  predicate OwnsAs(db: Db, kind: TokenKind, value: string, client: string, g: Id) {
    var h := Hash(kind, value);
    && h in db.tokens && db.tokens[h].grant == g && g in db.grants
    && db.grants[g].kind == OAuth && db.grants[g].client == client
  }

  // A grant is ended exactly when the client is named and the value is a token of a grant of its own: as
  // an access token, or, when it is none, as a refresh token. Spent, expired or revoked does not matter.
  lemma RevokesIff(before: seq<Action>, r: ReqId, value: string, client: string, between: seq<Action>, g: Id)
    requires r !in Reached(before).reqs && Waits(Step(Reached(before), BeginRevokeToken(r, value, client)), between, r)
    ensures var s := Reached(before).db;
      var t := Run(Step(Reached(before), BeginRevokeToken(r, value, client)), between);
      var v := Step(t, CommitRevoke(r));
      && r in v.reqs
      && (v.reqs[r] == Done(Revoked(g)) <==>
            && !Text.Blank(client)
            && (|| OwnsAs(s, Access, value, client, g)
                || ((forall k :: !OwnsAs(s, Access, value, client, k)) && OwnsAs(s, Refresh, value, client, g))))
      && (v.reqs[r] == Done(Revoked(g)) ==> v.db == RevokeAll(t.db, {g}))
  {
    var s, b := Reached(before), BeginRevokeToken(r, value, client);
    TargetIff(s.db, value, client, g);
    assert Step(s, b).reqs[r] == match RevokeTarget(s.db, value, client)
                                 case None => Done(Refused(Unknown)) case Some(k) => RevokeReady(k, Some(client));
    RevocationEnds(Run(Step(s, b), between), r, g);
  }

  lemma RevocationEnds(t: Sys, r: ReqId, g: Id)
    requires r in t.reqs && (t.reqs[r].RevokeReady? || t.reqs[r] == Done(Refused(Unknown)))
    ensures var v := Step(t, CommitRevoke(r));
      && r in v.reqs
      && (v.reqs[r] == Done(Revoked(g)) <==> t.reqs[r].RevokeReady? && t.reqs[r].target == g)
      && (v.reqs[r] == Done(Revoked(g)) ==> v.db == RevokeAll(t.db, {g}))
  {}

  lemma TargetIff(db: Db, value: string, client: string, g: Id)
    ensures RevokeTarget(db, value, client) == Some(g) <==>
      && !Text.Blank(client)
      && (|| OwnsAs(db, Access, value, client, g)
          || ((forall k :: !OwnsAs(db, Access, value, client, k)) && OwnsAs(db, Refresh, value, client, g)))
  {
    Text.BlankIsEmptyTrimmed(client);
    assert forall k :: OwnsAs(db, Access, value, client, k) ==> Revocable(db, Hash(Access, value), client);
    if Revocable(db, Hash(Access, value), client) {
      assert OwnsAs(db, Access, value, client, db.tokens[Hash(Access, value)].grant);
    }
  }

  lemma OwnerRevokesIff(before: seq<Action>, r: ReqId, id: Id, between: seq<Action>)
    requires r !in Reached(before).reqs && Waits(Step(Reached(before), BeginOwnerRevoke(r, id)), between, r)
    ensures var t := Run(Step(Reached(before), BeginOwnerRevoke(r, id)), between);
      var v := Step(t, CommitRevoke(r));
      && r in v.reqs && (v.reqs[r] == Done(Revoked(id)) <==> id in Reached(before).db.grants)
      && (v.reqs[r] == Done(Revoked(id)) ==> v.db == RevokeAll(t.db, {id}))
  {
    var s, b := Reached(before), BeginOwnerRevoke(r, id);
    assert Step(s, b).reqs[r] == if id in s.db.grants then RevokeReady(id, None) else Done(Refused(Unknown));
    RevocationEnds(Run(Step(s, b), between), r, id);
  }
}
