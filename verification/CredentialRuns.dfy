// The credential service under concurrency. A request is a sequence of separate store calls; between
// two of them any other request may run. Each action below is one such call, and a run is any list
// of actions. An action whose guard does not hold changes nothing.
module CredentialRuns {
  import opened Wrappers
  import opened Credentials
  import opened CredentialInvariants
  import Scopes

  type ReqId = nat

  datatype Outcome =
    | Refused(why: Refusal)
    | Rotated(hash: Hash, grant: Id, scopes: set<Scopes.Scope>, now: int)
    | Reused(hash: Hash, grant: Id)
    | Granted(code: CodeHash, grant: Id)
    | Replayed(code: CodeHash)
    | Revoked(grant: Id)
    | Authenticated(grant: Id, scopes: set<Scopes.Scope>, now: int)

  // Where an in-flight request stands, with everything it read so far.
  datatype Phase =
    | RefreshLooked(req: RefreshRequest, row: Token, now: int)
    | RefreshReady(plan: Rotation, now: int)
    | ReuseFound(hash: Hash, grant: Id, family: Id)
    | ExchangeReady(code: CodeHash, client: string, scopes: set<Scopes.Scope>, now: int)
    | ExchangeBurn(code: CodeHash)
    | ExchangeLost(code: CodeHash)
    | ReplayFound(code: CodeHash, bought: Option<Id>)
    | RevokeReady(target: Id, onBehalfOf: Option<string>)
    | AccessLooked(row: Token, now: int)
    | Done(outcome: Outcome)

  datatype Action =
    | BeginRefresh(r: ReqId, req: RefreshRequest, now: int)
    | ReadForRefresh(r: ReqId, ttl: TTLs)
    | CommitRefresh(r: ReqId, access: string, refresh: string)
    | CommitReuse(r: ReqId)
    | MintAdmin(requested: seq<string>, generation: string, now: int, ttl: TTLs,
                id: Id, family: Id, access: string, refresh: string)
    | IssueCode(code: CodeHash, client: string, column: string, expiresMs: int)
    | BeginExchange(r: ReqId, code: CodeHash, now: int, verified: bool)
    | CommitBurn(r: ReqId)
    | CommitExchange(r: ReqId, ttl: TTLs, id: Id, family: Id, access: string, refresh: string)
    | ReReadCode(r: ReqId)
    | CommitReplay(r: ReqId)
    | BeginRevokeToken(r: ReqId, value: string, client: string)
    | BeginOwnerRevoke(r: ReqId, id: Id)
    | CommitRevoke(r: ReqId)
    | Supersede(generation: string)
    | BeginAuthenticate(r: ReqId, value: string, now: int)
    | ReadForAuthenticate(r: ReqId)

  datatype Sys = Sys(db: Db, reqs: map<ReqId, Phase>)

  function Start(): Sys { Sys(Db(map[], map[], map[]), map[]) }

  // What an action does: the new database, and the phase one request moves to.
  datatype Effect = Effect(db: Db, moved: Option<(ReqId, Phase)>)

  function Idle(s: Sys): Effect { Effect(s.db, None) }

  function Move(db: Db, r: ReqId, p: Phase): Effect { Effect(db, Some((r, p))) }

  function RotateResult(p: Phase, outcome: RotateOutcome): Phase
    requires p.RefreshReady?
  {
    match outcome
    case RotateDone => Done(Rotated(p.plan.hash, p.plan.grant, p.plan.next, p.now))
    case RotateRaced => Done(Reused(p.plan.hash, p.plan.grant))
    case RotateFailed => Done(Refused(StoreError))
  }

  function ExchangeResult(code: CodeHash, id: Id, outcome: ExchangeOutcome): Phase {
    match outcome
    case ExchangeDone => Done(Granted(code, id))
    case ExchangeRaced => ExchangeLost(code)
    case ExchangeFailed => Done(Refused(StoreError))
  }

  function MintFor(p: Phase, ttl: TTLs, id: Id, family: Id, access: string, refresh: string): Mint
    requires p.ExchangeReady?
  {
    NewMint(id, OAuth, p.client, p.scopes, "", family, access, refresh, p.now, ttl)
  }

  function Fire(s: Sys, a: Action): Effect {
    match a
    case BeginRefresh(r, req, now) =>
      if r in s.reqs then Idle(s)
      else Move(s.db, r, match LookupRefresh(s.db, req.value, now)
                         case LookupRefused(why) => Done(Refused(why))
                         case LookupReuse(row) => ReuseFound(Hash(Refresh, req.value), row.grant, row.family)
                         case LookupFound(row) => RefreshLooked(req, row, now))
    case ReadForRefresh(r, ttl) =>
      if r !in s.reqs || !s.reqs[r].RefreshLooked? then Idle(s)
      else
        var p := s.reqs[r];
        Move(s.db, r, match PlanRotation(s.db, p.req, p.row, p.now, ttl)
                      case Err(why) => Done(Refused(why))
                      case Ok(plan) => RefreshReady(plan, p.now))
    case CommitRefresh(r, access, refresh) =>
      if r !in s.reqs || !s.reqs[r].RefreshReady? then Idle(s)
      else
        var p := s.reqs[r];
        var (db, outcome) := RotateTx(s.db, p.plan, Hash(Access, access), Hash(Refresh, refresh));
        Move(db, r, RotateResult(p, outcome))
    case CommitReuse(r) =>
      if r !in s.reqs || !s.reqs[r].ReuseFound? then Idle(s)
      else
        var p := s.reqs[r];
        Move(RevokeFamilyTx(s.db, p.grant, p.family), r, Done(Reused(p.hash, p.grant)))
    case MintAdmin(requested, generation, now, ttl, id, family, access, refresh) =>
      if !FreshFamily(s.db, family) then Idle(s)
      else (match AdminScopes(requested)
            case None => Idle(s)
            case Some(scopes) =>
              Effect(MintTx(s.db, NewMint(id, AdminBootstrap, "", scopes, generation, family, access, refresh,
                                          now, ttl)).0, None))
    case IssueCode(code, client, column, expiresMs) =>
      if code in s.db.codes then Idle(s)
      else Effect(s.db.(codes := s.db.codes[code := Code(client, column, expiresMs, false, None)]), None)
    case BeginExchange(r, code, now, verified) =>
      if r in s.reqs then Idle(s)
      else Move(s.db, r, match LookupCode(s.db, code, now, verified)
                         case CodeRefused(why) => Done(Refused(why))
                         case CodeReplayed(grant) => ReplayFound(code, grant)
                         case CodeUnverified => ExchangeBurn(code)
                         case CodeFound(client, scopes) => ExchangeReady(code, client, scopes, now))
    case CommitBurn(r) =>
      if r !in s.reqs || !s.reqs[r].ExchangeBurn? then Idle(s)
      else Move(Consume(s.db, s.reqs[r].code, None).0, r, Done(Refused(BindingFailed)))
    case CommitExchange(r, ttl, id, family, access, refresh) =>
      if r !in s.reqs || !s.reqs[r].ExchangeReady? || !FreshFamily(s.db, family) then Idle(s)
      else
        var p := s.reqs[r];
        var (db, outcome) := ExchangeTx(s.db, p.code, MintFor(p, ttl, id, family, access, refresh));
        Move(db, r, ExchangeResult(p.code, id, outcome))
    case ReReadCode(r) =>
      if r !in s.reqs || !s.reqs[r].ExchangeLost? then Idle(s)
      else
        var code := s.reqs[r].code;
        Move(s.db, r, if code in s.db.codes then ReplayFound(code, s.db.codes[code].grant)
                      else Done(Refused(Unknown)))
    case CommitReplay(r) =>
      if r !in s.reqs || !s.reqs[r].ReplayFound? then Idle(s)
      else
        var p := s.reqs[r];
        Move(if p.bought.Some? then RevokeAll(s.db, {p.bought.value}) else s.db, r, Done(Replayed(p.code)))
    case BeginRevokeToken(r, value, client) =>
      if r in s.reqs then Idle(s)
      else Move(s.db, r, match RevokeTarget(s.db, value, client)
                         case None => Done(Refused(Unknown))
                         case Some(g) => RevokeReady(g, Some(client)))
    case BeginOwnerRevoke(r, id) =>
      if r in s.reqs then Idle(s)
      else Move(s.db, r, if id in s.db.grants then RevokeReady(id, None) else Done(Refused(Unknown)))
    case CommitRevoke(r) =>
      if r !in s.reqs || !s.reqs[r].RevokeReady? then Idle(s)
      else Move(RevokeAll(s.db, {s.reqs[r].target}), r, Done(Revoked(s.reqs[r].target)))
    case Supersede(generation) => Effect(RevokeAll(s.db, Superseded(s.db, generation)), None)
    case BeginAuthenticate(r, value, now) =>
      if r in s.reqs then Idle(s)
      else Move(s.db, r, match LookupAccess(s.db, value, now)
                         case AuthRefused(why) => Done(Refused(why))
                         case AuthFound(row) => AccessLooked(row, now))
    case ReadForAuthenticate(r) =>
      if r !in s.reqs || !s.reqs[r].AccessLooked? then Idle(s)
      else
        var p := s.reqs[r];
        Move(s.db, r, match ReadCaller(s.db, p.row, p.now)
                      case Err(why) => Done(Refused(why))
                      case Ok(g) => Done(Authenticated(p.row.grant, g.scopes, p.now)))
  }

  function Apply(s: Sys, e: Effect): Sys {
    Sys(e.db, if e.moved.Some? then s.reqs[e.moved.value.0 := e.moved.value.1] else s.reqs)
  }

  function Step(s: Sys, a: Action): Sys { Apply(s, Fire(s, a)) }

  function Run(s: Sys, actions: seq<Action>): Sys
    decreases actions
  {
    if actions == [] then s else Run(Step(s, actions[0]), actions[1..])
  }

  function Reached(actions: seq<Action>): Sys { Run(Start(), actions) }

  // ----- what a request may rely on, whatever has run since it read -----

  predicate BeforeDeadline(db: Db, g: Id, now: int) {
    g in db.grants && (db.grants[g].expiresMs != 0 ==> Milli(now) < db.grants[g].expiresMs)
  }

  ghost predicate OutcomeStands(db: Db, o: Outcome) {
    match o
    case Refused(_) => true
    case Rotated(hash, g, scopes, now) =>
      && hash in db.tokens && db.tokens[hash].grant == g && db.tokens[hash].spent
      && BeforeDeadline(db, g, now) && db.grants[g].scopes <= scopes <= db.grants[g].minted
    case Reused(hash, g) =>
      hash in db.tokens && db.tokens[hash].grant == g && g in db.grants && db.grants[g].revoked
    case Granted(code, g) => Bought(db, code, g) && db.codes[code].consumed
    case Replayed(code) =>
      && code in db.codes && db.codes[code].consumed
      && (db.codes[code].grant.Some? ==>
            db.codes[code].grant.value in db.grants && db.grants[db.codes[code].grant.value].revoked)
    case Revoked(g) => g in db.grants && db.grants[g].revoked
    case Authenticated(g, scopes, now) =>
      BeforeDeadline(db, g, now) && db.grants[g].scopes <= scopes <= db.grants[g].minted
  }

  predicate SameRow(db: Db, h: Hash, row: Token) {
    h in db.tokens && db.tokens[h] == row.(spent := db.tokens[h].spent, revoked := db.tokens[h].revoked)
  }

  ghost predicate PhaseStands(db: Db, p: Phase) {
    match p
    case RefreshLooked(req, row, now) => SameRow(db, Hash(Refresh, req.value), row)
    case RefreshReady(plan, now) => PlanStands(db, plan) && BeforeDeadline(db, plan.grant, now)
    case ReuseFound(hash, g, family) =>
      hash in db.tokens && db.tokens[hash].grant == g && db.tokens[hash].family == family
    case ExchangeReady(code, client, scopes, now) =>
      code in db.codes && scopes <= Scopes.AdminBootstrap() && Scopes.ADMIN !in scopes
    case ExchangeBurn(code) => code in db.codes
    case ExchangeLost(code) => code in db.codes && db.codes[code].consumed
    case ReplayFound(code, bought) =>
      code in db.codes && db.codes[code].consumed && db.codes[code].grant == bought
    case RevokeReady(g, client) =>
      && g in db.grants
      && (client.Some? ==> db.grants[g].kind == OAuth && db.grants[g].client == client.value)
    case AccessLooked(row, now) => row.grant in db.grants
    case Done(o) => OutcomeStands(db, o)
  }

  lemma PhaseOutlasts(db: Db, later: Db, p: Phase)
    requires Later(db, later) && PhaseStands(db, p)
    ensures PhaseStands(later, p)
  {
    match p
    case RefreshReady(plan, now) => assert Live(later, plan.hash, plan.grant) ==> Live(db, plan.hash, plan.grant);
    case _ =>
  }

  // One rotation per token, one grant per code.
  ghost predicate OneWinner(reqs: map<ReqId, Phase>) {
    forall r, q :: r in reqs && q in reqs && r != q && reqs[r].Done? && reqs[q].Done? ==>
      && (reqs[r].outcome.Rotated? && reqs[q].outcome.Rotated? ==> reqs[r].outcome.hash != reqs[q].outcome.hash)
      && (reqs[r].outcome.Granted? && reqs[q].outcome.Granted? ==> reqs[r].outcome.code != reqs[q].outcome.code)
  }

  ghost predicate Inv(s: Sys) {
    && Sound(s.db)
    && (forall r :: r in s.reqs ==> PhaseStands(s.db, s.reqs[r]))
    && OneWinner(s.reqs)
  }

  // A phase that claims to have won was won just now.
  ghost predicate WonNow(db: Db, p: Phase) {
    && (p.Done? && p.outcome.Rotated? ==> p.outcome.hash in db.tokens && !db.tokens[p.outcome.hash].spent)
    && (p.Done? && p.outcome.Granted? ==> p.outcome.code in db.codes && !db.codes[p.outcome.code].consumed)
  }

  lemma PhasesOutlast(s: Sys, e: Effect)
    requires Later(s.db, e.db) && forall r :: r in s.reqs ==> PhaseStands(s.db, s.reqs[r])
    requires e.moved.Some? ==> PhaseStands(e.db, e.moved.value.1)
    ensures forall r :: r in Apply(s, e).reqs ==> PhaseStands(e.db, Apply(s, e).reqs[r])
  {
    var t := Apply(s, e);
    forall r | r in t.reqs ensures PhaseStands(e.db, t.reqs[r]) {
      if e.moved.Some? && r == e.moved.value.0 {
      } else {
        PhaseOutlasts(s.db, e.db, s.reqs[r]);
      }
    }
  }

  lemma WinnersOutlast(s: Sys, e: Effect)
    requires OneWinner(s.reqs) && forall r :: r in s.reqs ==> PhaseStands(s.db, s.reqs[r])
    requires e.moved.Some? ==> WonNow(s.db, e.moved.value.1)
    ensures OneWinner(Apply(s, e).reqs)
  {
    forall r | r in s.reqs && s.reqs[r].Done?
      ensures OutcomeStands(s.db, s.reqs[r].outcome)
    {
      assert PhaseStands(s.db, s.reqs[r]);
    }
  }

  // What it takes for one action to be harmless.
  ghost predicate Fired(db: Db, e: Effect) {
    && Sound(e.db) && Later(db, e.db)
    && (e.moved.Some? ==> PhaseStands(e.db, e.moved.value.1) && WonNow(db, e.moved.value.1))
  }

  lemma PlanStandsAtRead(db: Db, req: RefreshRequest, row: Token, now: int, ttl: TTLs)
    requires GrantsSound(db) && PhaseStands(db, RefreshLooked(req, row, now))
    ensures PlanRotation(db, req, row, now, ttl).Ok? ==>
      PhaseStands(db, RefreshReady(PlanRotation(db, req, row, now, ttl).value, now))
  {
    if row.grant in db.grants { assert ScopesSound(db.grants[row.grant]); }
  }

  lemma RotateResultStands(db: Db, p: Phase, access: Hash, refresh: Hash)
    requires TokensOwned(db) && p.RefreshReady? && PhaseStands(db, p)
    requires access.kind == Access && refresh.kind == Refresh
    ensures var (d, outcome) := RotateTx(db, p.plan, access, refresh);
      PhaseStands(d, RotateResult(p, outcome)) && WonNow(db, RotateResult(p, outcome))
  {
    if RotateTx(db, p.plan, access, refresh).1 == RotateDone { assert Live(db, p.plan.hash, p.plan.grant); }
  }

  lemma ExchangeFires(db: Db, r: ReqId, code: CodeHash, m: Mint)
    requires Sound(db) && code in db.codes && MintSound(m) && m.grant.kind == OAuth && FreshFamily(db, m.family)
    ensures var (d, outcome) := ExchangeTx(db, code, m);
      Fired(db, Move(d, r, ExchangeResult(code, m.id, outcome)))
  {
    ExchangeKeeps(db, code, m);
  }

  lemma AdminMintFires(s: Sys, a: Action)
    requires Sound(s.db) && a.MintAdmin?
    ensures Fired(s.db, Fire(s, a))
  {
    LaterReflexive(s.db);
    if FreshFamily(s.db, a.family) && AdminScopes(a.requested).Some? {
      var scopes := AdminScopes(a.requested).value;
      AdminMintKeeps(s.db, NewMint(a.id, AdminBootstrap, "", scopes, a.generation, a.family, a.access, a.refresh,
                                   a.now, a.ttl));
    }
  }

  predicate ReadOnly(a: Action) {
    a.BeginRefresh? || a.ReadForRefresh? || a.BeginExchange? || a.ReReadCode? || a.BeginRevokeToken?
    || a.BeginOwnerRevoke? || a.BeginAuthenticate? || a.ReadForAuthenticate?
  }

  lemma CallerStands(db: Db, row: Token, now: int)
    requires GrantsSound(db) && ReadCaller(db, row, now).Ok?
    ensures OutcomeStands(db, Authenticated(row.grant, ReadCaller(db, row, now).value.scopes, now))
  {
    assert ScopesSound(db.grants[row.grant]);
  }

  // The first read of a request, which needs nothing from an earlier one.
  ghost predicate ReadStands(s: Sys, a: Action) {
    var e := Fire(s, a);
    e.moved.Some? ==> PhaseStands(s.db, e.moved.value.1) && WonNow(s.db, e.moved.value.1)
  }

  lemma RefreshReadStands(s: Sys, a: Action)
    requires a.BeginRefresh?
    ensures ReadStands(s, a)
  {}

  lemma ExchangeReadStands(s: Sys, a: Action)
    requires a.BeginExchange?
    ensures ReadStands(s, a)
  {}

  lemma RevokeReadStands(s: Sys, a: Action)
    requires a.BeginRevokeToken? || a.BeginOwnerRevoke?
    ensures ReadStands(s, a)
  {}

  lemma AccessReadStands(s: Sys, a: Action)
    requires TokensOwned(s.db) && a.BeginAuthenticate?
    ensures ReadStands(s, a)
  {}

  lemma FirstReadStands(s: Sys, a: Action)
    requires TokensOwned(s.db)
    requires a.BeginRefresh? || a.BeginExchange? || a.BeginRevokeToken? || a.BeginOwnerRevoke? || a.BeginAuthenticate?
    ensures ReadStands(s, a)
  {
    match a
    case BeginRefresh(_, _, _) => RefreshReadStands(s, a);
    case BeginExchange(_, _, _, _) => ExchangeReadStands(s, a);
    case BeginAuthenticate(_, _, _) => AccessReadStands(s, a);
    case _ => RevokeReadStands(s, a);
  }

  lemma ReadPhaseStands(s: Sys, a: Action)
    requires TokensOwned(s.db) && GrantsSound(s.db) && ReadOnly(a) && Fire(s, a).moved.Some?
    requires forall r :: r in s.reqs ==> PhaseStands(s.db, s.reqs[r])
    ensures PhaseStands(s.db, Fire(s, a).moved.value.1) && WonNow(s.db, Fire(s, a).moved.value.1)
  {
    match a
    case ReadForRefresh(r, ttl) =>
      PlanStandsAtRead(s.db, s.reqs[r].req, s.reqs[r].row, s.reqs[r].now, ttl);
    case ReReadCode(r) => assert PhaseStands(s.db, s.reqs[r]);
    case ReadForAuthenticate(r) =>
      if ReadCaller(s.db, s.reqs[r].row, s.reqs[r].now).Ok? {
        CallerStands(s.db, s.reqs[r].row, s.reqs[r].now);
      }
    case _ => FirstReadStands(s, a);
  }

  lemma ReadActionFires(s: Sys, a: Action)
    requires Inv(s) && ReadOnly(a)
    ensures Fired(s.db, Fire(s, a))
  {
    LaterReflexive(s.db);
    assert Fire(s, a).db == s.db;
    if Fire(s, a).moved.Some? {
      ReadPhaseStands(s, a);
    }
  }

  lemma ExchangeActionFires(s: Sys, a: Action)
    requires Inv(s) && a.CommitExchange?
    ensures Fired(s.db, Fire(s, a))
  {
    LaterReflexive(s.db);
    if a.r in s.reqs && s.reqs[a.r].ExchangeReady? && FreshFamily(s.db, a.family) {
      var p := s.reqs[a.r];
      assert PhaseStands(s.db, p);
      ExchangeFires(s.db, a.r, p.code, MintFor(p, a.ttl, a.id, a.family, a.access, a.refresh));
    }
  }

  lemma RefreshActionFires(s: Sys, a: Action)
    requires Inv(s) && a.CommitRefresh?
    ensures Fired(s.db, Fire(s, a))
  {
    LaterReflexive(s.db);
    if a.r in s.reqs && s.reqs[a.r].RefreshReady? {
      assert PhaseStands(s.db, s.reqs[a.r]);
      RotateKeeps(s.db, s.reqs[a.r].plan, Hash(Access, a.access), Hash(Refresh, a.refresh));
      RotateResultStands(s.db, s.reqs[a.r], Hash(Access, a.access), Hash(Refresh, a.refresh));
    }
  }

  lemma ReuseActionFires(s: Sys, a: Action)
    requires Inv(s) && a.CommitReuse?
    ensures Fired(s.db, Fire(s, a))
  {
    LaterReflexive(s.db);
    if a.r in s.reqs && s.reqs[a.r].ReuseFound? {
      assert PhaseStands(s.db, s.reqs[a.r]);
      FamilyIsOneGrant(s.db, s.reqs[a.r].hash, s.reqs[a.r].grant);
      RevokeAllKeeps(s.db, {s.reqs[a.r].grant});
    }
  }

  lemma IssueActionFires(s: Sys, a: Action)
    requires Inv(s) && a.IssueCode?
    ensures Fired(s.db, Fire(s, a))
  {
    LaterReflexive(s.db);
    if a.code !in s.db.codes { IssueKeeps(s.db, a.code, Code(a.client, a.column, a.expiresMs, false, None)); }
  }

  lemma BurnActionFires(s: Sys, a: Action)
    requires Inv(s) && a.CommitBurn?
    ensures Fired(s.db, Fire(s, a))
  {
    LaterReflexive(s.db);
    if a.r in s.reqs && s.reqs[a.r].ExchangeBurn? { ConsumeKeeps(s.db, s.reqs[a.r].code); }
  }

  lemma ReplayActionFires(s: Sys, a: Action)
    requires Inv(s) && a.CommitReplay?
    ensures Fired(s.db, Fire(s, a))
  {
    LaterReflexive(s.db);
    if a.r in s.reqs && s.reqs[a.r].ReplayFound? {
      assert PhaseStands(s.db, s.reqs[a.r]);
      if s.reqs[a.r].bought.Some? { RevokeAllKeeps(s.db, {s.reqs[a.r].bought.value}); }
    }
  }

  lemma RevokeActionFires(s: Sys, a: Action)
    requires Inv(s) && a.CommitRevoke?
    ensures Fired(s.db, Fire(s, a))
  {
    LaterReflexive(s.db);
    if a.r in s.reqs && s.reqs[a.r].RevokeReady? {
      assert PhaseStands(s.db, s.reqs[a.r]);
      RevokeAllKeeps(s.db, {s.reqs[a.r].target});
    }
  }

  lemma SupersedeFires(s: Sys, a: Action)
    requires Sound(s.db) && a.Supersede?
    ensures Fired(s.db, Fire(s, a))
  {
    RevokeAllKeeps(s.db, Superseded(s.db, a.generation));
  }

  // Every action, in every state the invariant allows.
  lemma ActionFires(s: Sys, a: Action)
    requires Inv(s)
    ensures Fired(s.db, Fire(s, a))
  {
    match a
    case CommitRefresh(_, _, _) => RefreshActionFires(s, a);
    case CommitReuse(_) => ReuseActionFires(s, a);
    case MintAdmin(_, _, _, _, _, _, _, _) => AdminMintFires(s, a);
    case IssueCode(_, _, _, _) => IssueActionFires(s, a);
    case CommitBurn(_) => BurnActionFires(s, a);
    case CommitExchange(_, _, _, _, _, _) => ExchangeActionFires(s, a);
    case CommitReplay(_) => ReplayActionFires(s, a);
    case CommitRevoke(_) => RevokeActionFires(s, a);
    case Supersede(_) => SupersedeFires(s, a);
    case _ => ReadActionFires(s, a);
  }

  lemma StepKeeps(s: Sys, a: Action)
    requires Inv(s)
    ensures Inv(Step(s, a)) && Later(s.db, Step(s, a).db)
  {
    ActionFires(s, a);
    PhasesOutlast(s, Fire(s, a));
    WinnersOutlast(s, Fire(s, a));
  }

  lemma {:induction false} RunKeeps(s: Sys, actions: seq<Action>)
    requires Inv(s)
    ensures Inv(Run(s, actions)) && Later(s.db, Run(s, actions).db)
    decreases actions
  {
    if actions == [] {
      LaterReflexive(s.db);
    } else {
      StepKeeps(s, actions[0]);
      RunKeeps(Step(s, actions[0]), actions[1..]);
    }
  }
}
