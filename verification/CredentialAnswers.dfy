// What each credential request is answered, from what was asked and from what was stored when it was
// read, whatever ran in between.
module CredentialAnswers {
  import opened Wrappers
  import opened Credentials
  import opened CredentialInvariants
  import opened CredentialRuns
  import opened CredentialTheorems
  import Scopes
  import Text

  // ----- which scopes are asked for -----

  // The trimmed, non-blank entries of the list.
  ghost predicate Asks(list: seq<string>, scopes: set<string>) {
    && (forall s :: s in scopes ==> s != "" && exists e :: e in list && Text.TrimSpace(e) == s)
    && (forall e :: e in list && !Text.Blank(e) ==> Text.TrimSpace(e) in scopes)
  }

  const MESSAGES: set<string> := {"messages:read", "messages:write", "messages:delete"}

  lemma AsksIsNamed(list: seq<string>, scopes: set<string>)
    ensures Asks(list, scopes) <==> scopes == Scopes.Named(list)
  {
    forall e | e in list ensures Text.TrimSpace(e) == "" <==> Text.Blank(e) { Text.BlankIsEmptyTrimmed(e); }
  }

  // The known ones among them, when all are.
  lemma ParsedWhenKnown(list: seq<string>, scopes: set<string>)
    requires Asks(list, scopes)
    ensures Scopes.Parsed(list) == if scopes <= MESSAGES + {"admin"} then Some(scopes) else None
  {
    AsksIsNamed(list, scopes);
    assert forall s :: s in MESSAGES + {"admin"} <==> Scopes.Known(s);
  }

  // A column the program wrote asks for what it was written from.
  lemma StoredScopesAreAsked(scopes: set<string>)
    requires scopes <= MESSAGES + {"admin"}
    ensures Asks(Text.Fields(Scopes.Rendered(scopes)), scopes)
  {
    assert forall s :: s in MESSAGES + {"admin"} <==> Scopes.Known(s);
    Scopes.ColumnRoundTrip(scopes);
    AsksIsNamed(Text.Fields(Scopes.Rendered(scopes)), scopes);
  }

  // ----- where a request stands -----

  // Whatever has run, the request stands where it stood.
  ghost predicate Waits(s: Sys, actions: seq<Action>, r: ReqId) {
    r in s.reqs && r in Run(s, actions).reqs && Run(s, actions).reqs[r] == s.reqs[r]
  }

  function Actor(a: Action): Option<ReqId> {
    match a
    case MintAdmin(_, _, _, _, _, _, _, _) => None
    case IssueCode(_, _, _, _) => None
    case Supersede(_) => None
    case _ => Some(a.r)
  }

  // Only its own calls move a request.
  lemma {:induction false} OthersDoNotMoveIt(s: Sys, actions: seq<Action>, r: ReqId)
    requires r in s.reqs && forall a :: a in actions ==> Actor(a) != Some(r)
    ensures Waits(s, actions, r)
    decreases actions
  {
    if actions != [] {
      StepOfAnother(s, actions[0], r);
      OthersDoNotMoveIt(Step(s, actions[0]), actions[1..], r);
    }
  }

  lemma StepOfAnother(s: Sys, a: Action, r: ReqId)
    requires r in s.reqs && Actor(a) != Some(r)
    ensures r in Step(s, a).reqs && Step(s, a).reqs[r] == s.reqs[r]
  {}

  // Every request stands where some call of its own put it.
  lemma {:induction false} Cut(actions: seq<Action>, r: ReqId) returns (i: nat)
    requires r in Reached(actions).reqs
    ensures i < |actions|
    ensures var s, t := Reached(actions[..i]), Reached(actions[..i + 1]);
      && t == Step(s, actions[i]) && r in t.reqs && t.reqs[r] == Reached(actions).reqs[r]
      && (r !in s.reqs || s.reqs[r] != t.reqs[r])
    decreases |actions|
  {
    var n := |actions| - 1;
    assert actions == actions[..n] + [actions[n]] && actions[..n + 1] == actions;
    RunLast(Start(), actions[..n], actions[n]);
    var s := Reached(actions[..n]);
    if r in s.reqs && s.reqs[r] == Reached(actions).reqs[r] {
      i := Cut(actions[..n], r);
      assert actions[..n][..i] == actions[..i] && actions[..n][..i + 1] == actions[..i + 1];
    } else {
      i := n;
    }
  }

  lemma {:induction false} RunLast(s: Sys, actions: seq<Action>, a: Action)
    ensures Run(s, actions + [a]) == Step(Run(s, actions), a)
    decreases actions
  {
    if actions == [] {
      assert [] + [a] == [a];
    } else {
      assert (actions + [a])[1..] == actions[1..] + [a];
      RunLast(Step(s, actions[0]), actions[1..], a);
    }
  }

  // A stored instant is the millisecond the reading falls in.
  lemma MilliRoundsDown(ns: int)
    ensures 1_000_000 * Milli(ns) <= ns < 1_000_000 * (Milli(ns) + 1)
  {}

  // ----- authentication -----

  predicate GoodAccess(db: Db, value: string, now: int, g: Id) {
    var h := Hash(Access, value);
    && !Text.Blank(value) && h in db.tokens && db.tokens[h].grant == g
    && !db.tokens[h].revoked && Milli(now) < db.tokens[h].expiresMs
  }

  predicate GoodGrant(db: Db, g: Id, now: int) {
    && g in db.grants && !db.grants[g].revoked
    && (db.grants[g].expiresMs == 0 || Milli(now) < db.grants[g].expiresMs)
  }

  lemma AuthenticationStep(s: Sys, t: Sys, r: ReqId, value: string, now: int, g: Id, scopes: set<string>)
    requires r !in s.reqs && r in t.reqs && t.reqs[r] == Step(s, BeginAuthenticate(r, value, now)).reqs[r]
    ensures var u := Step(t, ReadForAuthenticate(r));
      && r in u.reqs
      && (u.reqs[r] == Done(Authenticated(g, scopes, now)) <==>
            GoodAccess(s.db, value, now, g) && GoodGrant(t.db, g, now) && scopes == t.db.grants[g].scopes)
  {
    Text.BlankIsEmptyTrimmed(value);
  }

  // Why a value is not let in, the first of what is wrong at the first read and then at the second.
  function AccessFault(first: Db, second: Db, value: string, now: int): Option<Refusal> {
    var h := Hash(Access, value);
    if Text.Blank(value) then Some(Absent)
    else if h !in first.tokens then Some(Unknown)
    else if first.tokens[h].revoked then Some(TokenRevoked)
    else if Milli(now) >= first.tokens[h].expiresMs then Some(Expired)
    else GrantFault(second, first.tokens[h].grant, now, Unknown)
  }

  function GrantFault(db: Db, g: Id, now: int, missing: Refusal): Option<Refusal> {
    if g !in db.grants then Some(missing)
    else if db.grants[g].revoked then Some(TokenRevoked)
    else if db.grants[g].expiresMs != 0 && Milli(now) >= db.grants[g].expiresMs then Some(Expired)
    else None
  }

  lemma AccessFaultFound(first: Db, second: Db, value: string, now: int)
    ensures AccessFault(first, second, value, now) ==
      match LookupAccess(first, value, now)
      case AuthRefused(why) => Some(why)
      case AuthFound(row) => (match ReadCaller(second, row, now) case Err(why) => Some(why) case Ok(_) => None)
  {
    Text.BlankIsEmptyTrimmed(value);
  }

  lemma WhyNotLetIn(s: Sys, t: Sys, r: ReqId, value: string, now: int, why: Refusal)
    requires r !in s.reqs && r in t.reqs && t.reqs[r] == Step(s, BeginAuthenticate(r, value, now)).reqs[r]
    ensures r in Step(t, ReadForAuthenticate(r)).reqs
    ensures Step(t, ReadForAuthenticate(r)).reqs[r] == Done(Refused(why)) <==>
      AccessFault(s.db, t.db, value, now) == Some(why)
  {
    AccessFaultFound(s.db, t.db, value, now);
  }

  // A presented value is answered with a grant and its scopes exactly when it is the unexpired,
  // unrevoked access token of that grant at the first read, and the grant is good at the second; the
  // scopes are those the grant holds then.
  lemma AuthenticatesIff(before: seq<Action>, r: ReqId, value: string, now: int, between: seq<Action>, g: Id,
      scopes: set<string>)
    requires r !in Reached(before).reqs && Waits(Step(Reached(before), BeginAuthenticate(r, value, now)), between, r)
    ensures var s := Reached(before);
      var t := Run(Step(s, BeginAuthenticate(r, value, now)), between);
      var u := Step(t, ReadForAuthenticate(r));
      && r in u.reqs
      && (u.reqs[r] == Done(Authenticated(g, scopes, now)) <==>
            GoodAccess(s.db, value, now, g) && GoodGrant(t.db, g, now) && scopes == t.db.grants[g].scopes)
  {
    var s := Reached(before);
    AuthenticationStep(s, Run(Step(s, BeginAuthenticate(r, value, now)), between), r, value, now, g, scopes);
  }

  lemma AuthenticationMoves(s: Sys, a: Action, r: ReqId)
    requires r in Step(s, a).reqs && (r !in s.reqs || s.reqs[r] != Step(s, a).reqs[r])
    ensures var p := Step(s, a).reqs[r];
      && (p.Done? && p.outcome.Authenticated? ==> a == ReadForAuthenticate(r) && r in s.reqs && s.reqs[r].AccessLooked?)
      && (p.AccessLooked? ==> a.BeginAuthenticate? && a.r == r && r !in s.reqs)
  {
    if a.CommitRefresh? && a.r in s.reqs && s.reqs[a.r].RefreshReady? {
      assert forall o :: !RotateResult(s.reqs[a.r], o).outcome.Authenticated?;
    }
  }

  // So in every run whoever was let in had presented such a token, and gets what the grant held when it
  // was read, not what it was minted with.
  lemma WhoeverIsLetIn(actions: seq<Action>, r: ReqId, g: Id, scopes: set<string>, now: int)
      returns (i: nat, k: nat)
    requires r in Reached(actions).reqs && Reached(actions).reqs[r] == Done(Authenticated(g, scopes, now))
    ensures i < k < |actions| && actions[i].BeginAuthenticate? && actions[i].now == now
    ensures GoodAccess(Reached(actions[..i]).db, actions[i].value, now, g)
    ensures GoodGrant(Reached(actions[..k]).db, g, now) && scopes == Reached(actions[..k]).db.grants[g].scopes
  {
    k := Cut(actions, r);
    var t := Reached(actions[..k]);
    AuthenticationMoves(t, actions[k], r);
    i := Cut(actions[..k], r);
    assert actions[..k][..i] == actions[..i] && actions[..k][..i + 1] == actions[..i + 1];
    var s, a := Reached(actions[..i]), actions[i];
    AuthenticationMoves(s, a, r);
    assert t.reqs[r].now == a.now by { assert Step(s, a).reqs[r] == t.reqs[r]; }
    AuthenticationStep(s, t, r, a.value, a.now, g, scopes);
  }

  // ----- refreshing -----

  predicate GoodRefresh(db: Db, req: RefreshRequest, now: int, g: Id) {
    var h := Hash(Refresh, req.value);
    && h in db.tokens && db.tokens[h].grant == g && !db.tokens[h].revoked && !db.tokens[h].spent
    && Milli(now) < db.tokens[h].expiresMs
  }

  // Nothing asked for is everything held; anything else is exactly what is asked, and must be known and
  // within both what is held and what was minted.
  ghost predicate Narrows(g: Grant, list: seq<string>, scopes: set<string>) {
    if list == [] then scopes == g.scopes
    else
      && Asks(list, scopes) && scopes != {} && scopes <= MESSAGES + {"admin"}
      && scopes <= g.scopes && scopes <= g.minted
  }

  // What the two reads of a refresh must find for it to go on to its transaction.
  ghost predicate MayRefresh(first: Db, second: Db, req: RefreshRequest, now: int, g: Id, scopes: set<string>) {
    && GoodRefresh(first, req, now, g) && GoodGrant(second, g, now)
    && !Misplaced(second.grants[g], req) && Narrows(second.grants[g], req.requested, scopes)
  }

  // Where the refresh stands after its two reads.
  ghost predicate Planned(p: Phase, second: Db, req: RefreshRequest, now: int, ttl: TTLs, g: Id, scopes: set<string>)
    requires g in second.grants
  {
    && p.RefreshReady? && p.now == now
    && p.plan.hash == Hash(Refresh, req.value) && p.plan.grant == g && p.plan.next == scopes
    && p.plan.narrowed == (scopes != second.grants[g].scopes)
    && p.plan.accessMs == Milli(now + ttl.access)
    && p.plan.refreshMs == NoLater(now + ttl.idle, second.grants[g].expiresMs)
  }

  // A deadline of 0 is none.
  function NoLater(ns: int, deadlineMs: int): int {
    if deadlineMs == 0 || Milli(ns) <= deadlineMs then Milli(ns) else deadlineMs
  }

  lemma OneNarrowing(g: Grant, list: seq<string>, a: set<string>, b: set<string>)
    requires Narrows(g, list, a) && Narrows(g, list, b)
    ensures a == b
  {
    if list != [] {
      AsksIsNamed(list, a);
      AsksIsNamed(list, b);
    }
  }

  lemma NextIsNarrowed(g: Grant, list: seq<string>, scopes: set<string>)
    ensures NextScopes(g, list) == Some(scopes) <==> Narrows(g, list, scopes)
  {
    AsksIsNamed(list, Scopes.Named(list));
    ParsedWhenKnown(list, Scopes.Named(list));
    AsksIsNamed(list, scopes);
  }

  lemma RefreshReads(s: Sys, t: Sys, r: ReqId, req: RefreshRequest, now: int, ttl: TTLs, g: Id, scopes: set<string>)
    requires r !in s.reqs && r in t.reqs && t.reqs[r] == Step(s, BeginRefresh(r, req, now)).reqs[r]
    ensures var u := Step(t, ReadForRefresh(r, ttl));
      && u.db == t.db && r in u.reqs
      && (u.reqs[r].RefreshReady? && u.reqs[r].plan.grant == g && u.reqs[r].plan.next == scopes <==>
            MayRefresh(s.db, t.db, req, now, g, scopes))
      && (MayRefresh(s.db, t.db, req, now, g, scopes) ==> Planned(u.reqs[r], t.db, req, now, ttl, g, scopes))
  {
    if g in t.db.grants { NextIsNarrowed(t.db.grants[g], req.requested, scopes); }
  }

  // Why a refresh is refused: what is wrong with the token at the first read; then, at the second, a grant
  // of the other endpoint or of another client, what is wrong with the grant, and a request that asks
  // for nothing, for something unknown or for more than is held.
  ghost predicate RefreshFault(first: Db, second: Db, req: RefreshRequest, now: int, why: Refusal) {
    var h := Hash(Refresh, req.value);
    if h !in first.tokens then why == Unknown
    else
      var row := first.tokens[h];
      if row.revoked then why == TokenRevoked
      else if Milli(now) >= row.expiresMs then why == Expired
      else if row.spent then false
      else if row.grant !in second.grants then why == StoreError
      else
        var g := second.grants[row.grant];
        if g.kind != req.endpoint then why == WrongPath
        else if req.client != "" && g.client != req.client then why == WrongClient
        else
          match GrantFault(second, row.grant, now, Unknown)
          case Some(fault) => why == fault
          case None => why == InvalidScope && forall scopes :: !Narrows(g, req.requested, scopes)
  }

  lemma RefreshFaultFound(first: Db, second: Db, req: RefreshRequest, now: int, ttl: TTLs, why: Refusal)
    ensures RefreshFault(first, second, req, now, why) <==>
      match LookupRefresh(first, req.value, now)
      case LookupRefused(fault) => why == fault
      case LookupReuse(_) => false
      case LookupFound(row) => PlanRotation(second, req, row, now, ttl) == Err(why)
  {
    var h := Hash(Refresh, req.value);
    if h in first.tokens && first.tokens[h].grant in second.grants {
      var g := second.grants[first.tokens[h].grant];
      forall scopes ensures NextScopes(g, req.requested) == Some(scopes) <==> Narrows(g, req.requested, scopes) {
        NextIsNarrowed(g, req.requested, scopes);
      }
    }
  }

  lemma WhyNotRefreshed(s: Sys, t: Sys, r: ReqId, req: RefreshRequest, now: int, ttl: TTLs, why: Refusal)
    requires r !in s.reqs && r in t.reqs && t.reqs[r] == Step(s, BeginRefresh(r, req, now)).reqs[r]
    ensures r in Step(t, ReadForRefresh(r, ttl)).reqs
    ensures Step(t, ReadForRefresh(r, ttl)).reqs[r] == Done(Refused(why)) <==>
      RefreshFault(s.db, t.db, req, now, why)
  {
    RefreshFaultFound(s.db, t.db, req, now, ttl, why);
  }

  // What a rotation leaves: the presented token spent, two new ones of its family, the scopes asked for.
  function RotatedDb(db: Db, h: Hash, access: Hash, refresh: Hash, accessMs: int, refreshMs: int,
      scopes: set<string>): Db
    requires h in db.tokens && db.tokens[h].grant in db.grants
  {
    var row := db.tokens[h];
    Db(db.tokens[h := row.(spent := true)]
                [access := Token(row.grant, Access, row.family, false, false, accessMs)]
                [refresh := Token(row.grant, Refresh, row.family, false, false, refreshMs)],
       db.grants[row.grant := db.grants[row.grant].(scopes := scopes)],
       db.codes)
  }

  predicate Unused(db: Db, access: string, refresh: string) {
    Hash(Access, access) !in db.tokens && Hash(Refresh, refresh) !in db.tokens
  }

  lemma RefreshCommits(u: Sys, r: ReqId, access: string, refresh: string)
    requires TokensOwned(u.db) && r in u.reqs && u.reqs[r].RefreshReady? && PhaseStands(u.db, u.reqs[r])
    ensures var p := u.reqs[r].plan;
      var v := Step(u, CommitRefresh(r, access, refresh));
      && r in v.reqs && p.hash in u.db.tokens && u.db.tokens[p.hash].grant == p.grant && p.grant in u.db.grants
      && (v.reqs[r] == Done(Rotated(p.hash, p.grant, p.next, u.reqs[r].now)) <==>
            Live(u.db, p.hash, p.grant) && Unused(u.db, access, refresh))
      && (v.reqs[r].outcome.Rotated? ==>
            && v.reqs[r] == Done(Rotated(p.hash, p.grant, p.next, u.reqs[r].now))
            && v.db == RotatedDb(u.db, p.hash, Hash(Access, access), Hash(Refresh, refresh), p.accessMs, p.refreshMs,
                                 p.next)
            && (!p.narrowed ==> v.db.grants == u.db.grants))
  {
    var p := u.reqs[r].plan;
    if Live(u.db, p.hash, p.grant) && !p.narrowed {
      assert u.db.grants[p.grant := u.db.grants[p.grant].(scopes := p.next)] == u.db.grants;
    }
  }

  // s, t and u are the tables at the first read, the second read and the transaction of a refresh, and v
  // what the transaction leaves. It is answered with a rotation to these scopes exactly when its two
  // reads found what they must, its token was still live at the transaction and the new values are new;
  // then the grant holds exactly the scopes answered, and the new tokens last as long as the TTLs and
  // the deadline say.
  ghost predicate RefreshAnswered(s: Db, t: Db, u: Db, v: Sys, r: ReqId, req: RefreshRequest, now: int, ttl: TTLs,
      access: string, refresh: string, g: Id, scopes: set<string>)
  {
    var h := Hash(Refresh, req.value);
    && r in v.reqs
    && (v.reqs[r] == Done(Rotated(h, g, scopes, now)) <==>
          MayRefresh(s, t, req, now, g, scopes) && Live(u, h, g) && Unused(u, access, refresh))
    && (v.reqs[r] == Done(Rotated(h, g, scopes, now)) ==>
          && g in t.grants && h in u.tokens && u.tokens[h].grant == g && g in u.grants
          && v.db == RotatedDb(u, h, Hash(Access, access), Hash(Refresh, refresh), Milli(now + ttl.access),
                               NoLater(now + ttl.idle, t.grants[g].expiresMs), scopes)
          && (req.requested == [] ==> v.db.grants == u.grants))
  }

  lemma RefreshEnds(s: Sys, t: Sys, u: Sys, r: ReqId, req: RefreshRequest, now: int, ttl: TTLs, access: string,
      refresh: string, g: Id, scopes: set<string>)
    requires r !in s.reqs && r in t.reqs && t.reqs[r] == Step(s, BeginRefresh(r, req, now)).reqs[r]
    requires r in u.reqs && u.reqs[r] == Step(t, ReadForRefresh(r, ttl)).reqs[r] && Inv(u)
    ensures RefreshAnswered(s.db, t.db, u.db, Step(u, CommitRefresh(r, access, refresh)), r, req, now, ttl,
                            access, refresh, g, scopes)
  {
    RefreshReads(s, t, r, req, now, ttl, g, scopes);
    if u.reqs[r].RefreshReady? {
      assert PhaseStands(u.db, u.reqs[r]);
      RefreshCommits(u, r, access, refresh);
    }
  }

  // Over every run, whatever is done by others between its calls.
  lemma RefreshDoesWhatIsAsked(before: seq<Action>, r: ReqId, req: RefreshRequest, now: int, between: seq<Action>,
      ttl: TTLs, later: seq<Action>, access: string, refresh: string, g: Id, scopes: set<string>)
    requires r !in Reached(before).reqs && Waits(Step(Reached(before), BeginRefresh(r, req, now)), between, r)
    requires var t := Run(Step(Reached(before), BeginRefresh(r, req, now)), between);
      Waits(Step(t, ReadForRefresh(r, ttl)), later, r)
    ensures var s := Reached(before);
      var t := Run(Step(s, BeginRefresh(r, req, now)), between);
      var u := Run(Step(t, ReadForRefresh(r, ttl)), later);
      RefreshAnswered(s.db, t.db, u.db, Step(u, CommitRefresh(r, access, refresh)), r, req, now, ttl,
                      access, refresh, g, scopes)
  {
    var s := Reached(before);
    var t := Run(Step(s, BeginRefresh(r, req, now)), between);
    ReachedInv(before);
    StepKeeps(s, BeginRefresh(r, req, now));
    RunKeeps(Step(s, BeginRefresh(r, req, now)), between);
    StepKeeps(t, ReadForRefresh(r, ttl));
    RunKeeps(Step(t, ReadForRefresh(r, ttl)), later);
    RefreshEnds(s, t, Run(Step(t, ReadForRefresh(r, ttl)), later), r, req, now, ttl, access, refresh, g, scopes);
  }

  lemma RefreshMoves(s: Sys, a: Action, r: ReqId)
    requires r in Step(s, a).reqs && (r !in s.reqs || s.reqs[r] != Step(s, a).reqs[r])
    ensures var p := Step(s, a).reqs[r];
      && (p.Done? && p.outcome.Rotated? ==>
            a.CommitRefresh? && a.r == r && r in s.reqs && s.reqs[r].RefreshReady?
            && p.outcome.hash == s.reqs[r].plan.hash)
      && (p.RefreshReady? ==> a.ReadForRefresh? && a.r == r && r in s.reqs && s.reqs[r].RefreshLooked?)
      && (p.RefreshLooked? ==> a.BeginRefresh? && a.r == r && r !in s.reqs)
  {}

  // And every run in which a refresh was answered with a rotation is of that form.
  lemma WhoeverRotated(actions: seq<Action>, r: ReqId, h: Hash, g: Id, scopes: set<string>, now: int)
      returns (i: nat, k: nat, j: nat)
    requires r in Reached(actions).reqs && Reached(actions).reqs[r] == Done(Rotated(h, g, scopes, now))
    ensures i < k < j < |actions|
    ensures actions[i].BeginRefresh? && actions[k].ReadForRefresh? && actions[j].CommitRefresh?
    ensures actions[i].now == now && h == Hash(Refresh, actions[i].req.value)
    ensures MayRefresh(Reached(actions[..i]).db, Reached(actions[..k]).db, actions[i].req, now, g, scopes)
    ensures RefreshAnswered(Reached(actions[..i]).db, Reached(actions[..k]).db, Reached(actions[..j]).db,
                            Reached(actions[..j + 1]), r, actions[i].req, now, actions[k].ttl,
                            actions[j].access, actions[j].refresh, g, scopes)
  {
    j := Cut(actions, r);
    var u := Reached(actions[..j]);
    RefreshMoves(u, actions[j], r);
    k := Cut(actions[..j], r);
    assert actions[..j][..k] == actions[..k] && actions[..j][..k + 1] == actions[..k + 1];
    var t := Reached(actions[..k]);
    RefreshMoves(t, actions[k], r);
    i := Cut(actions[..k], r);
    assert actions[..k][..i] == actions[..i] && actions[..k][..i + 1] == actions[..i + 1];
    var s, a := Reached(actions[..i]), actions[i];
    RefreshMoves(s, a, r);
    ReachedInv(actions[..j]);
    ReadySays(s, t, u, r, a, actions[k]);
    RefreshEnds(s, t, u, r, a.req, a.now, actions[k].ttl, actions[j].access, actions[j].refresh, g, scopes);
  }

  lemma ReadySays(s: Sys, t: Sys, u: Sys, r: ReqId, a: Action, b: Action)
    requires a.BeginRefresh? && a.r == r && b.ReadForRefresh? && b.r == r
    requires r !in s.reqs && r in t.reqs && t.reqs[r] == Step(s, a).reqs[r]
    requires r in u.reqs && u.reqs[r] == Step(t, b).reqs[r] && u.reqs[r].RefreshReady?
    ensures u.reqs[r].now == a.now && u.reqs[r].plan.hash == Hash(Refresh, a.req.value)
  {}
}
