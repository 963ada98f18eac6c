// The promises of the credential layer, over every run of CredentialRuns.
module CredentialTheorems {
  import opened Wrappers
  import opened Credentials
  import opened CredentialInvariants
  import opened CredentialRuns
  import Scopes

  lemma ReachedInv(actions: seq<Action>)
    ensures Inv(Reached(actions))
  {
    RunKeeps(Start(), actions);
  }

  // Between two moments of one run.
  lemma Onward(before: seq<Action>, after: seq<Action>)
    ensures Inv(Reached(before)) && Inv(Run(Reached(before), after))
    ensures Later(Reached(before).db, Run(Reached(before), after).db)
  {
    ReachedInv(before);
    RunKeeps(Reached(before), after);
  }

  // RFC 6749 section 6: a grant's scopes only shrink, and stay within what it was minted with.
  lemma ScopesOnlyShrink(before: seq<Action>, after: seq<Action>, g: Id)
    requires g in Reached(before).db.grants
    ensures var s, t := Reached(before).db, Run(Reached(before), after).db;
      g in t.grants && t.grants[g].scopes <= s.grants[g].scopes <= s.grants[g].minted == t.grants[g].minted
  {
    Onward(before, after);
    assert ScopesSound(Reached(before).db.grants[g]);
  }

  // A refresh that reaches its transaction rotates exactly when the presented token is still live
  // (and the new hashes are new). What it then reports is what the grant holds, although the plan
  // was computed from an earlier read.
  ghost predicate RotatesIffLive(db: Db, p: Rotation, access: Hash, refresh: Hash) {
    var unused := access !in db.tokens && refresh !in db.tokens;
    var (d, outcome) := RotateTx(db, p, access, refresh);
    && (outcome == RotateDone <==> Live(db, p.hash, p.grant) && unused)
    && (outcome == RotateRaced <==> !Live(db, p.hash, p.grant))
    && (outcome == RotateDone ==>
          p.grant in d.grants && d.grants[p.grant].scopes == p.next && Live(d, refresh, p.grant))
    && (outcome == RotateRaced ==> d == RevokeAll(db, {p.grant}))
    && (outcome == RotateFailed ==> d == db)
  }

  lemma RotatesIffLiveNow(db: Db, p: Rotation, access: Hash, refresh: Hash)
    requires TokensOwned(db) && FamiliesOwned(db) && PlanStands(db, p)
    requires access.kind == Access && refresh.kind == Refresh
    ensures RotatesIffLive(db, p, access, refresh)
  {
    FamilyIsOneGrant(db, p.hash, p.grant);
  }

  lemma CommitRotatesIffLive(before: seq<Action>, r: ReqId, access: string, refresh: string)
    requires r in Reached(before).reqs && Reached(before).reqs[r].RefreshReady?
    ensures
      var s := Reached(before);
      var p := s.reqs[r].plan;
      var (d, outcome) := RotateTx(s.db, p, Hash(Access, access), Hash(Refresh, refresh));
      && RotatesIffLive(s.db, p, Hash(Access, access), Hash(Refresh, refresh))
      && Step(s, CommitRefresh(r, access, refresh)) == Sys(d, s.reqs[r := RotateResult(s.reqs[r], outcome)])
  {
    ReachedInv(before);
    var s := Reached(before);
    assert PhaseStands(s.db, s.reqs[r]);
    RotatesIffLiveNow(s.db, s.reqs[r].plan, Hash(Access, access), Hash(Refresh, refresh));
  }

  // RFC 9700 section 4.14.2: of all presentations of one refresh token, at most one rotates it.
  lemma OneRotationPerToken(actions: seq<Action>, r: ReqId, q: ReqId)
    requires r in Reached(actions).reqs && q in Reached(actions).reqs && r != q
    requires Reached(actions).reqs[r].Done? && Reached(actions).reqs[r].outcome.Rotated?
    requires Reached(actions).reqs[q].Done? && Reached(actions).reqs[q].outcome.Rotated?
    ensures Reached(actions).reqs[r].outcome.hash != Reached(actions).reqs[q].outcome.hash
  {
    ReachedInv(actions);
  }

  // Nothing of a revoked grant is usable: no live refresh token, and every token of it revoked.
  ghost predicate Dead(db: Db, g: Id) {
    && g in db.grants && db.grants[g].revoked && !HasLive(db, g)
    && forall h :: h in db.tokens && db.tokens[h].grant == g ==> db.tokens[h].revoked
  }

  lemma RevokedIsDead(db: Db, g: Id)
    requires Sound(db) && g in db.grants && db.grants[g].revoked
    ensures Dead(db, g)
  {
    forall h | h in db.tokens && db.tokens[h].grant == g ensures db.tokens[h].revoked && !Live(db, h, g) {}
  }

  // ... and whoever presented the token and lost leaves the whole grant dead, the winner's new
  // tokens included, from then on.
  lemma ReuseKillsTheGrant(before: seq<Action>, after: seq<Action>, r: ReqId)
    requires r in Reached(before).reqs && Reached(before).reqs[r].Done? && Reached(before).reqs[r].outcome.Reused?
    ensures Dead(Run(Reached(before), after).db, Reached(before).reqs[r].outcome.grant)
  {
    Onward(before, after);
    assert PhaseStands(Reached(before).db, Reached(before).reqs[r]);
    RevokedIsDead(Run(Reached(before), after).db, Reached(before).reqs[r].outcome.grant);
  }

  // One live refresh token while a grant is unrevoked, none after; minted is spent plus one.
  lemma RotationArithmetic(actions: seq<Action>, g: Id)
    requires g in Reached(actions).db.grants
    ensures var db := Reached(actions).db;
      && (HasLive(db, g) <==> !db.grants[g].revoked)
      && (forall h, k :: Live(db, h, g) && Live(db, k, g) ==> h == k)
      && (!db.grants[g].revoked ==> |RefreshTokens(db, g)| == |SpentTokens(db, g)| + 1)
  {
    ReachedInv(actions);
    var db := Reached(actions).db;
    if db.grants[g].revoked { RevokedIsDead(db, g); } else { MintedIsSpentPlusOne(db, g); }
  }

  // Revocation is closed: no refresh, replay or exchange that was in flight revives anything.
  lemma RevocationIsClosed(before: seq<Action>, after: seq<Action>, g: Id)
    requires g in Reached(before).db.grants && Reached(before).db.grants[g].revoked
    ensures Dead(Run(Reached(before), after).db, g)
  {
    Onward(before, after);
    RevokedIsDead(Run(Reached(before), after).db, g);
  }

  predicate Admitted(s: Sys, r: ReqId, g: Id) {
    r in s.reqs && s.reqs[r].Done? && s.reqs[r].outcome.Authenticated? && s.reqs[r].outcome.grant == g
  }

  lemma StepAdmitsOnlyLive(s: Sys, a: Action, r: ReqId, g: Id)
    requires g in s.db.grants && s.db.grants[g].revoked && !Admitted(s, r, g)
    ensures !Admitted(Step(s, a), r, g)
  {
    if a.CommitRefresh? && a.r in s.reqs && s.reqs[a.r].RefreshReady? {
      assert !RotateResult(s.reqs[a.r], RotateFailed).outcome.Authenticated?;
    }
  }

  // No request authenticates as a grant whose row it reads after the revocation.
  lemma {:induction false} NoCallerAfterRevocation(s: Sys, after: seq<Action>, r: ReqId, g: Id)
    requires Inv(s) && g in s.db.grants && s.db.grants[g].revoked && !Admitted(s, r, g)
    ensures !Admitted(Run(s, after), r, g)
    decreases after
  {
    if after != [] {
      StepAdmitsOnlyLive(s, after[0], r, g);
      StepKeeps(s, after[0]);
      NoCallerAfterRevocation(Step(s, after[0]), after[1..], r, g);
    }
  }

  // RFC 6749 section 4.1.2: a code buys at most one grant, for at most one request.
  lemma CodeMintsOnce(actions: seq<Action>, code: CodeHash, g: Id, h: Id, r: ReqId, q: ReqId)
    ensures var s := Reached(actions);
      && (Bought(s.db, code, g) && Bought(s.db, code, h) ==> g == h)
      && (r in s.reqs && q in s.reqs && r != q && s.reqs[r] == Done(Granted(code, g)) ==>
            s.reqs[q] != Done(Granted(code, h)))
  {
    ReachedInv(actions);
  }

  // Every OAuth grant was bought by exactly one code, and that code is spent.
  lemma EveryGrantHasItsCode(actions: seq<Action>, g: Id)
    requires g in Reached(actions).db.grants && Reached(actions).db.grants[g].kind == OAuth
    ensures exists code :: Bought(Reached(actions).db, code, g) && Reached(actions).db.codes[code].consumed
    ensures forall c, d :: Bought(Reached(actions).db, c, g) && Bought(Reached(actions).db, d, g) ==> c == d
  {
    ReachedInv(actions);
    assert HasCode(Reached(actions).db, g);
    var c :| Bought(Reached(actions).db, c, g);
    assert Reached(actions).db.codes[c].consumed;
  }

  // A code consumed by a failed binding check never buys anything.
  lemma BurnedCodeNeverMints(before: seq<Action>, after: seq<Action>, code: CodeHash, g: Id)
    requires code in Reached(before).db.codes
    requires Reached(before).db.codes[code].consumed && Reached(before).db.codes[code].grant == None
    ensures !Bought(Run(Reached(before), after).db, code, g)
  {
    Onward(before, after);
  }

  // Losing the mint's compare-and-set writes nothing and leads to the replay rule.
  lemma LostExchangeReplays(before: seq<Action>, r: ReqId, ttl: TTLs, id: Id, family: Id, access: string,
      refresh: string)
    requires var s := Reached(before);
      && r in s.reqs && s.reqs[r].ExchangeReady? && s.reqs[r].code in s.db.codes
      && s.db.codes[s.reqs[r].code].consumed && FreshFamily(s.db, family)
    ensures var s := Reached(before);
      var t := Step(s, CommitExchange(r, ttl, id, family, access, refresh));
      && t.db == s.db && t.reqs[r] == ExchangeLost(s.reqs[r].code)
      && Step(Step(t, ReReadCode(r)), CommitReplay(r)).reqs[r] == Done(Replayed(s.reqs[r].code))
  {
    var s := Reached(before);
    var t := Step(s, CommitExchange(r, ttl, id, family, access, refresh));
    assert t.reqs[r] == ExchangeLost(s.reqs[r].code);
    var u := Step(t, ReReadCode(r));
    assert u.reqs[r].ReplayFound?;
  }

  // Whatever a replayed code bought is dead from then on.
  lemma ReplayKillsTheGrant(before: seq<Action>, after: seq<Action>, r: ReqId, g: Id)
    requires r in Reached(before).reqs && Reached(before).reqs[r].Done? && Reached(before).reqs[r].outcome.Replayed?
    requires Bought(Run(Reached(before), after).db, Reached(before).reqs[r].outcome.code, g)
    ensures Dead(Run(Reached(before), after).db, g)
  {
    Onward(before, after);
    assert PhaseStands(Reached(before).db, Reached(before).reqs[r]);
    RevokedIsDead(Run(Reached(before), after).db, g);
  }

  lemma OAuthNeverHoldsAdmin(actions: seq<Action>, g: Id)
    requires g in Reached(actions).db.grants && Reached(actions).db.grants[g].kind == OAuth
    ensures Scopes.ADMIN !in Reached(actions).db.grants[g].scopes
    ensures Scopes.ADMIN !in Reached(actions).db.grants[g].minted
  {
    ReachedInv(actions);
    assert ScopesSound(Reached(actions).db.grants[g]);
  }

  // The deadline fixed at mint never moves, bounds every refresh token and every success.
  lemma DeadlineIsAbsolute(before: seq<Action>, after: seq<Action>, g: Id, r: ReqId)
    requires g in Reached(before).db.grants && Reached(before).db.grants[g].expiresMs != 0
    ensures var deadline, t := Reached(before).db.grants[g].expiresMs, Run(Reached(before), after);
      && g in t.db.grants && t.db.grants[g].expiresMs == deadline
      && (forall h :: h in t.db.tokens && h.kind == Refresh && t.db.tokens[h].grant == g
            ==> t.db.tokens[h].expiresMs <= deadline)
      && (r in t.reqs && t.reqs[r].Done? ==>
            && (t.reqs[r].outcome.Authenticated? && t.reqs[r].outcome.grant == g ==>
                  Milli(t.reqs[r].outcome.now) < deadline)
            && (t.reqs[r].outcome.Rotated? && t.reqs[r].outcome.grant == g ==> Milli(t.reqs[r].outcome.now) < deadline))
  {
    Onward(before, after);
    if r in Run(Reached(before), after).reqs { SucceedsInTime(Run(Reached(before), after), r, g); }
  }

  lemma SucceedsInTime(t: Sys, r: ReqId, g: Id)
    requires Inv(t) && r in t.reqs && g in t.db.grants && t.db.grants[g].expiresMs != 0
    ensures t.reqs[r].Done? && t.reqs[r].outcome.Authenticated? && t.reqs[r].outcome.grant == g ==>
      Milli(t.reqs[r].outcome.now) < t.db.grants[g].expiresMs
    ensures t.reqs[r].Done? && t.reqs[r].outcome.Rotated? && t.reqs[r].outcome.grant == g ==>
      Milli(t.reqs[r].outcome.now) < t.db.grants[g].expiresMs
  {
    assert PhaseStands(t.db, t.reqs[r]);
  }

  // An access token's own expiry is not capped by that deadline: here it lies nine seconds past it.
  lemma AccessExpiryIsNotCapped()
    ensures var db := Reached([MintAdmin([], "gen", 0, TTLs(10_000_000_000, 1_000_000_000, 1_000_000_000),
                                         "auth", "fam", "a", "r")]).db;
      && "auth" in db.grants && db.grants["auth"].expiresMs == 1_000
      && Hash(Access, "a") in db.tokens && db.tokens[Hash(Access, "a")].expiresMs == 10_000
  {
    var a := MintAdmin([], "gen", 0, TTLs(10_000_000_000, 1_000_000_000, 1_000_000_000), "auth", "fam", "a", "r");
    assert [a][1..] == [] && Reached([a]) == Run(Step(Start(), a), [a][1..]);
  }

  // A refusal is not a write. The one exception is a failed binding check, which may consume its
  // code, and touches nothing at all when the code was consumed already.
  lemma RefusalsWriteNothing(s: Sys, a: Action)
    requires Fire(s, a).moved.Some? && Fire(s, a).moved.value.1.Done? && Fire(s, a).moved.value.1.outcome.Refused?
    ensures Fire(s, a).db.tokens == s.db.tokens && Fire(s, a).db.grants == s.db.grants
    ensures Fire(s, a).db == s.db || (a.CommitBurn? && s.reqs[a.r].ExchangeBurn?
                                      && !s.db.codes[s.reqs[a.r].code].consumed)
  {}

  lemma PresentSpent(s: Sys, r: ReqId, req: RefreshRequest, now: int)
    requires TokensOwned(s.db) && FamiliesOwned(s.db)
    requires var h := Hash(Refresh, req.value);
      r !in s.reqs && h in s.db.tokens && s.db.tokens[h].spent && !s.db.tokens[h].revoked
    ensures var row := s.db.tokens[Hash(Refresh, req.value)];
      var t := Step(Step(s, BeginRefresh(r, req, now)), CommitReuse(r));
      if Milli(now) < row.expiresMs then t.db == RevokeAll(s.db, {row.grant})
      else t.db == s.db && t.reqs[r] == Done(Refused(Expired))
  {
    var h := Hash(Refresh, req.value);
    var row := s.db.tokens[h];
    var u := Step(s, BeginRefresh(r, req, now));
    if Milli(now) < row.expiresMs {
      FamilyIsOneGrant(s.db, h, row.grant);
      assert u == Sys(s.db, s.reqs[r := ReuseFound(h, row.grant, row.family)]);
    } else {
      assert u == Sys(s.db, s.reqs[r := Done(Refused(Expired))]);
    }
  }

  // The grant belongs to the other endpoint, or to another client.
  predicate Misplaced(g: Grant, req: RefreshRequest) {
    g.kind != req.endpoint || (req.client != "" && g.client != req.client)
  }

  lemma PresentMisplaced(s: Sys, r: ReqId, req: RefreshRequest, now: int, ttl: TTLs)
    requires var h := Hash(Refresh, req.value);
      && r !in s.reqs && h in s.db.tokens && !s.db.tokens[h].revoked && Milli(now) < s.db.tokens[h].expiresMs
      && !s.db.tokens[h].spent && s.db.tokens[h].grant in s.db.grants
      && Misplaced(s.db.grants[s.db.tokens[h].grant], req)
    ensures var g := s.db.grants[s.db.tokens[Hash(Refresh, req.value)].grant];
      var t := Step(Step(Step(s, BeginRefresh(r, req, now)), ReadForRefresh(r, ttl)), CommitReuse(r));
      t.db == s.db && t.reqs == s.reqs[r := Done(Refused(if g.kind != req.endpoint then WrongPath else WrongClient))]
  {
    var row := s.db.tokens[Hash(Refresh, req.value)];
    var u := Step(s, BeginRefresh(r, req, now));
    assert u == Sys(s.db, s.reqs[r := RefreshLooked(req, row, now)]);
    assert PlanRotation(s.db, req, row, now, ttl).Err?;
  }

  // A stored, unrevoked, unexpired refresh token presented where its grant does not belong, or by a
  // client it does not belong to, ends the grant exactly when it is spent: reuse is recognised before
  // the path and the client are.
  lemma WrongPathRevokesIffSpent(before: seq<Action>, r: ReqId, req: RefreshRequest, now: int, ttl: TTLs)
    requires var s := Reached(before);
      var h := Hash(Refresh, req.value);
      && r !in s.reqs && h in s.db.tokens && !s.db.tokens[h].revoked && Milli(now) < s.db.tokens[h].expiresMs
      && s.db.tokens[h].grant in s.db.grants && Misplaced(s.db.grants[s.db.tokens[h].grant], req)
    ensures var s := Reached(before);
      var row := s.db.tokens[Hash(Refresh, req.value)];
      var g := s.db.grants[row.grant];
      var t := Step(Step(Step(s, BeginRefresh(r, req, now)), ReadForRefresh(r, ttl)), CommitReuse(r));
      && !g.revoked
      && (row.spent ==> t.db == RevokeAll(s.db, {row.grant}))
      && (!row.spent ==>
            t.db == s.db && r in t.reqs
            && t.reqs[r] == Done(Refused(if g.kind != req.endpoint then WrongPath else WrongClient)))
  {
    ReachedInv(before);
    var s := Reached(before);
    var row := s.db.tokens[Hash(Refresh, req.value)];
    assert row.revoked == s.db.grants[row.grant].revoked;
    if row.spent {
      PresentSpent(s, r, req, now);
    } else {
      PresentMisplaced(s, r, req, now, ttl);
    }
  }

  // A spent token is recognised as reused only while it is unexpired: after that its presentation is
  // refused and the grant it belongs to lives on.
  lemma SpentTokenIsCaughtIffUnexpired(before: seq<Action>, r: ReqId, req: RefreshRequest, now: int)
    requires var s := Reached(before);
      var h := Hash(Refresh, req.value);
      r !in s.reqs && h in s.db.tokens && s.db.tokens[h].spent && !s.db.tokens[h].revoked
    ensures var s := Reached(before);
      var row := s.db.tokens[Hash(Refresh, req.value)];
      var t := Step(Step(s, BeginRefresh(r, req, now)), CommitReuse(r));
      && row.grant in s.db.grants && !s.db.grants[row.grant].revoked
      && (if Milli(now) < row.expiresMs then t.db == RevokeAll(s.db, {row.grant})
          else t.db == s.db && t.reqs[r] == Done(Refused(Expired)))
  {
    ReachedInv(before);
    var s := Reached(before);
    PresentSpent(s, r, req, now);
    var row := s.db.tokens[Hash(Refresh, req.value)];
    assert row.revoked == s.db.grants[row.grant].revoked;
  }

  // A rotation half a second into a session whose refresh tokens last one second, the session ten.
  const SHORT := TTLs(1_000_000_000, 1_000_000_000, 10_000_000_000)
  const HALF_A_SECOND := 500_000_000
  const ONE_ROTATION: seq<Action> := [MintAdmin([], "gen", 0, SHORT, "auth", "fam", "a", "r")] + (
    [BeginRefresh(0, RefreshRequest("r", [], AdminBootstrap, ""), HALF_A_SECOND)] + (
    [ReadForRefresh(0, SHORT)] + [CommitRefresh(0, "a2", "r2")]))

  lemma RunFirst(s: Sys, a: Action, rest: seq<Action>)
    ensures Run(s, [a] + rest) == Run(Step(s, a), rest)
  {
    assert ([a] + rest)[1..] == rest;
  }

  lemma Minted(s: Sys)
    requires s == Step(Start(), MintAdmin([], "gen", 0, SHORT, "auth", "fam", "a", "r"))
    ensures s.reqs == map[] && "auth" in s.db.grants
    ensures s.db.grants["auth"]
         == Grant(AdminBootstrap, "", Scopes.AdminBootstrap(), Scopes.AdminBootstrap(), "gen", false, 10_000)
    ensures s.db.tokens == map[Hash(Access, "a") := Token("auth", Access, "fam", false, false, 1_000),
                               Hash(Refresh, "r") := Token("auth", Refresh, "fam", false, false, 1_000)]
  {
  }

  // The first token is spent, its grant lives, and the second token is good for half a second longer.
  ghost predicate OnceRotated(s: Sys) {
    && s.reqs.Keys == {0} && "auth" in s.db.grants
    && !s.db.grants["auth"].revoked && s.db.grants["auth"].kind == AdminBootstrap
    && Hash(Refresh, "r") in s.db.tokens && Hash(Refresh, "r2") in s.db.tokens
    && s.db.tokens[Hash(Refresh, "r")] == Token("auth", Refresh, "fam", true, false, 1_000)
    && s.db.tokens[Hash(Refresh, "r2")] == Token("auth", Refresh, "fam", false, false, 1_500)
  }

  lemma OneRotation()
    ensures OnceRotated(Reached(ONE_ROTATION))
  {
    var mint := MintAdmin([], "gen", 0, SHORT, "auth", "fam", "a", "r");
    var begin := BeginRefresh(0, RefreshRequest("r", [], AdminBootstrap, ""), HALF_A_SECOND);
    var read, commit := ReadForRefresh(0, SHORT), CommitRefresh(0, "a2", "r2");
    RunFirst(Start(), mint, [begin] + ([read] + [commit]));
    var s := Step(Start(), mint);
    Minted(s);
    RunFirst(s, begin, [read] + [commit]);
    RunFirst(Step(s, begin), read, [commit]);
    var u := Step(Step(s, begin), read);
    assert u.db == s.db && u.reqs.Keys == {0} && u.reqs[0].RefreshReady?;
    assert [commit] + [] == [commit];
    RunFirst(u, commit, []);
  }

  // So a token is presented on the wrong path and ends its grant.
  lemma AMisplacedSpentTokenEndsItsGrant()
    ensures var s := Reached(ONE_ROTATION);
      var req := RefreshRequest("r", [], OAuth, "");
      var t := Step(Step(Step(s, BeginRefresh(1, req, HALF_A_SECOND)), ReadForRefresh(1, SHORT)), CommitReuse(1));
      && OnceRotated(s) && Misplaced(s.db.grants["auth"], req)
      && "auth" in t.db.grants && t.db.grants["auth"].revoked
  {
    OneRotation();
    WrongPathRevokesIffSpent(ONE_ROTATION, 1, RefreshRequest("r", [], OAuth, ""), HALF_A_SECOND, SHORT);
  }

  // And a spent token is presented after its time and ends nothing: its grant and the token that
  // replaced it live on.
  lemma AnExpiredSpentTokenIsNotCaught()
    ensures var s := Reached(ONE_ROTATION);
      var t := Step(Step(s, BeginRefresh(1, RefreshRequest("r", [], AdminBootstrap, ""), 2 * HALF_A_SECOND)),
                    CommitReuse(1));
      && OnceRotated(s) && t.db == s.db && 1 in t.reqs && t.reqs[1] == Done(Refused(Expired))
      && Live(t.db, Hash(Refresh, "r2"), "auth")
      && Milli(2 * HALF_A_SECOND) < t.db.tokens[Hash(Refresh, "r2")].expiresMs
  {
    OneRotation();
    SpentTokenIsCaughtIffUnexpired(ONE_ROTATION, 1, RefreshRequest("r", [], AdminBootstrap, ""), 2 * HALF_A_SECOND);
  }

  // RFC 7009 section 2.1: revoking by token only ever ends an OAuth grant of the named client.
  lemma RevokeTokenStaysInItsClient(actions: seq<Action>, r: ReqId)
    requires r in Reached(actions).reqs && Reached(actions).reqs[r].RevokeReady?
    requires Reached(actions).reqs[r].onBehalfOf.Some?
    ensures var s := Reached(actions);
      var g := s.reqs[r].target;
      && g in s.db.grants && s.db.grants[g].kind == OAuth && s.db.grants[g].client == s.reqs[r].onBehalfOf.value
      && Step(s, CommitRevoke(r)).db == RevokeAll(s.db, {g})
  {
    ReachedInv(actions);
    assert PhaseStands(Reached(actions).db, Reached(actions).reqs[r]);
  }

  // After a start under a new admin secret every live admin session was minted by that secret, and
  // nothing else was ended.
  lemma OnlyThisSecretsSessions(before: seq<Action>, generation: string, g: Id)
    requires g in Reached(before).db.grants
    ensures var s, t := Reached(before).db, Step(Reached(before), Supersede(generation)).db;
      && g in t.grants
      && (t.grants[g].kind == AdminBootstrap && !t.grants[g].revoked ==> t.grants[g].generation == generation)
      && (s.grants[g].kind == OAuth || s.grants[g].generation == generation ==> t.grants[g] == s.grants[g])
      && (t.grants[g].revoked ==> Dead(t, g))
  {
    ReachedInv(before);
    StepKeeps(Reached(before), Supersede(generation));
    if Step(Reached(before), Supersede(generation)).db.grants[g].revoked {
      RevokedIsDead(Step(Reached(before), Supersede(generation)).db, g);
    }
  }
}
