// internal/accounts/supervisor.go and internal/accounts/lifecycle.go under concurrency: starts, stops,
// state changes and rebalances in any order, each step one critical section or one store call.
module SupervisorRuns {
  import opened Supervisor
  import opened Wrappers

  // What one rebalance call is doing: about to look, about to start the account it picked, connecting
  // it, or on its way out.
  datatype Round =
    | Looking(tried: set<Id>)
    | Picked(tried: set<Id>, id: Id)
    | Starting(tried: set<Id>, id: Id)
    | Closing(tried: set<Id>)

  datatype Sys = Sys(sup: Sup, rebalancing: bool, rounds: map<nat, Round>)

  datatype Action =
    | Register(id: Id)
    | Begin(id: Id)                          // the first critical section of Start
    | End(id: Id, answer: Connect)           // its outcome
    | Stop(id: Id)
    | Move(id: Id, state: AccountState)      // any other transition of a row
    | Limit(n: int)                          // SetMaxConcurrent
    | Enter(p: nat)                          // rebalance sets the flag, or returns
    | Look(p: nat)                           // and looks for a slot and a candidate
    | Try(p: nat)                            // the first critical section of the start it makes
    | Answer(p: nat, answer: Connect)        // and its outcome
    | Exit(p: nat)                           // and clears the flag
    | Insert(row: Row)                       // pairing adds an account
    | Drop(id: Id)                           // an abandoned pairing is swept
    | Touch(order: seq<Row>)                 // events change the order of the table

  predicate HasRow(rows: seq<Row>, id: Id) { exists i :: 0 <= i < |rows| && rows[i].id == id }

  function Without(rows: seq<Row>, id: Id): seq<Row> {
    if rows == [] then [] else (if rows[0].id == id then [] else [rows[0]]) + Without(rows[1..], id)
  }

  lemma {:induction false} WithoutKeeps(rows: seq<Row>, id: Id)
    ensures forall r :: r in Without(rows, id) <==> r in rows && r.id != id
  {
    if rows != [] { WithoutKeeps(rows[1..], id); }
  }

  function LookStep(s: Sys, p: nat): Sys {
    if p !in s.rounds || !s.rounds[p].Looking? then s
    else
      var tried := s.rounds[p].tried;
      var queue := Candidates(s.sup, tried, s.sup.rows);
      s.(rounds := s.rounds[p := if !Free(s.sup) || queue == [] then Closing(tried)
                                 else Picked(tried + {queue[0]}, queue[0])])
  }

  function TryStep(s: Sys, p: nat): Sys {
    if p !in s.rounds || !s.rounds[p].Picked? || s.rounds[p].id !in s.sup.accounts then s
    else
      var tried, id := s.rounds[p].tried, s.rounds[p].id;
      s.(sup := TakeSlot(s.sup, id),
         rounds := s.rounds[p := if s.sup.accounts[id] || !Free(s.sup) then Looking(tried) else Starting(tried, id)])
  }

  function AnswerStep(s: Sys, p: nat, answer: Connect): Sys {
    if p !in s.rounds || !s.rounds[p].Starting? || s.rounds[p].id !in s.sup.accounts then s
    else s.(sup := Settle(s.sup, s.rounds[p].id, answer), rounds := s.rounds[p := Looking(s.rounds[p].tried)])
  }

  function Step(s: Sys, action: Action): Sys {
    match action
    case Register(id) => if id in s.sup.accounts then s else s.(sup := s.sup.(accounts := s.sup.accounts[id := false]))
    case Begin(id) => if id in s.sup.accounts then s.(sup := TakeSlot(s.sup, id)) else s
    case End(id, answer) => if id in s.sup.accounts then s.(sup := Settle(s.sup, id, answer)) else s
    case Stop(id) => if id in s.sup.accounts then s.(sup := Mark(s.sup, id, false)) else s
    case Move(id, state) => s.(sup := s.sup.(rows := SetState(s.sup.rows, id, state)))
    case Limit(n) => s.(sup := s.sup.(max := n))
    case Enter(p) =>
      if s.rebalancing || p in s.rounds then s
      else s.(rebalancing := true, rounds := s.rounds[p := Looking({})])
    case Look(p) => LookStep(s, p)
    case Try(p) => TryStep(s, p)
    case Answer(p, answer) => AnswerStep(s, p, answer)
    case Exit(p) =>
      if p !in s.rounds || !s.rounds[p].Closing? then s
      else s.(rebalancing := false, rounds := s.rounds - {p})
    case Insert(row) =>
      if HasRow(s.sup.rows, row.id) then s else s.(sup := s.sup.(rows := s.sup.rows + [row]))
    case Drop(id) => s.(sup := s.sup.(rows := Without(s.sup.rows, id)))
    case Touch(order) =>
      if multiset(order) == multiset(s.sup.rows) then s.(sup := s.sup.(rows := order)) else s
  }

  // What pairing, sweeping, events and a new limit leave: one row more, an account's rows gone and the
  // others in their order, the same rows in another order, and the limit.
  lemma TheTableChanges(s: Sys, row: Row, id: Id, order: seq<Row>, n: int)
    ensures !HasRow(s.sup.rows, row.id) ==> Step(s, Insert(row)) == s.(sup := s.sup.(rows := s.sup.rows + [row]))
    ensures HasRow(s.sup.rows, row.id) ==> Step(s, Insert(row)) == s
    ensures Step(s, Drop(id)) == s.(sup := s.sup.(rows := Without(s.sup.rows, id)))
    ensures multiset(order) == multiset(s.sup.rows) ==> Step(s, Touch(order)) == s.(sup := s.sup.(rows := order))
    ensures Step(s, Limit(n)) == s.(sup := s.sup.(max := n))
  {}

  // Exactly the rows of other accounts are left.
  lemma {:induction false} WithoutDrops(rows: seq<Row>, id: Id)
    ensures forall r: Row :: multiset(Without(rows, id))[r] == if r.id == id then 0 else multiset(rows)[r]
  {
    if rows != [] {
      assert rows == [rows[0]] + rows[1..];
      WithoutDrops(rows[1..], id);
    }
  }

  // Dropping an account after adding it takes it out again, and one that is not there changes nothing.
  lemma {:induction false} DroppedAgain(rows: seq<Row>, row: Row)
    requires !HasRow(rows, row.id)
    ensures Without(rows + [row], row.id) == rows
  {
    if rows == [] {
      assert [row][1..] == [];
    } else {
      assert rows[0] == rows[0] && (rows + [row])[1..] == rows[1..] + [row];
      assert forall i :: 0 <= i < |rows[1..]| ==> rows[1..][i] == rows[i + 1];
      DroppedAgain(rows[1..], row);
    }
  }

  function Run(s: Sys, actions: seq<Action>): Sys
    decreases actions
  {
    if actions == [] then s else Run(Step(s, actions[0]), actions[1..])
  }

  function Count(s: Sys): nat { |Running(s.sup.accounts)| }

  lemma FewerRunning(accounts: map<Id, bool>, id: Id)
    requires id in accounts
    ensures |Running(accounts[id := false])| <= |Running(accounts)|
  {
    assert Running(accounts[id := false]) == Running(accounts) - {id};
  }

  lemma TakingStaysWithin(s: Sup, id: Id)
    requires id in s.accounts
    ensures var t := TakeSlot(s, id);
      |Running(t.accounts)| > |Running(s.accounts)| ==> s.max <= 0 || |Running(t.accounts)| <= s.max
  {
    if !s.accounts[id] { RunningGrows(s.accounts, id); }
  }

  lemma SettlingRaisesNothing(s: Sup, id: Id, answer: Connect)
    requires id in s.accounts
    ensures |Running(Settle(s, id, answer).accounts)| <= |Running(s.accounts)|
  {
    FewerRunning(s.accounts, id);
  }

  // A step that raises the running count leaves it within the limit in force.
  lemma RaiseStaysWithin(s: Sys, action: Action)
    ensures Count(Step(s, action)) > Count(s) ==> s.sup.max <= 0 || Count(Step(s, action)) <= s.sup.max
  {
    match action
    case Register(id) =>
      if id !in s.sup.accounts { assert Running(s.sup.accounts[id := false]) == Running(s.sup.accounts); }
    case Begin(id) => if id in s.sup.accounts { TakingStaysWithin(s.sup, id); }
    case End(id, answer) => if id in s.sup.accounts { SettlingRaisesNothing(s.sup, id, answer); }
    case Stop(id) => if id in s.sup.accounts { FewerRunning(s.sup.accounts, id); }
    case Try(p) =>
      if p in s.rounds && s.rounds[p].Picked? {
        if s.rounds[p].id in s.sup.accounts { TakingStaysWithin(s.sup, s.rounds[p].id); }
      }
    case Answer(p, answer) =>
      if p in s.rounds && s.rounds[p].Starting? {
        if s.rounds[p].id in s.sup.accounts { SettlingRaisesNothing(s.sup, s.rounds[p].id, answer); }
      }
    case _ =>
  }

  // Under any interleaving: while every limit in force is between one and `most`, no more than
  // `most` accounts ever run.
  lemma {:induction false} SlotSafety(s: Sys, actions: seq<Action>, most: nat)
    requires 0 < s.sup.max <= most && Count(s) <= most
    requires forall a :: a in actions && a.Limit? ==> 0 < a.n <= most
    ensures Count(Run(s, actions)) <= most
    decreases actions
  {
    if actions != [] {
      RaiseStaysWithin(s, actions[0]);
      var max := Step(s, actions[0]).sup.max;
      assert max == s.sup.max || (actions[0].Limit? && max == actions[0].n);
      SlotSafety(Step(s, actions[0]), actions[1..], most);
    }
  }

  // ----- connected clients -----

  predicate Fails(answer: Connect) { answer.PrepareFails? || answer.ConnectFails? }

  // The system with what no field of it holds: which starts have a slot and no outcome yet, and which
  // accounts have a connected client.
  datatype Watch = Watch(sys: Sys, pending: set<Id>, clients: set<Id>)

  predicate GetsSlot(s: Sup, id: Id) { id in s.accounts && !s.accounts[id] && Free(s) }

  // The account whose start this step ends, and how.
  function Outcome(s: Sys, action: Action): Option<(Id, Connect)> {
    match action
    case End(id, answer) => if id in s.sup.accounts then Some((id, answer)) else None
    case Answer(p, answer) =>
      if p in s.rounds && s.rounds[p].Starting? && s.rounds[p].id in s.sup.accounts
      then Some((s.rounds[p].id, answer)) else None
    case _ => None
  }

  function Pending(s: Sys, action: Action, pending: set<Id>): set<Id> {
    match action
    case Begin(id) => if GetsSlot(s.sup, id) then pending + {id} else pending
    case Try(p) =>
      if p in s.rounds && s.rounds[p].Picked? && GetsSlot(s.sup, s.rounds[p].id)
      then pending + {s.rounds[p].id} else pending
    case _ => if Outcome(s, action).Some? then pending - {Outcome(s, action).value.0} else pending
  }

  // A connect that succeeds leaves a client, whatever fails after it; a stop of a running account ends it.
  function Clients(s: Sys, action: Action, clients: set<Id>): set<Id> {
    match Outcome(s, action)
    case Some(o) => if Fails(o.1) then clients - {o.0} else clients + {o.0}
    case None =>
      if action.Stop? && action.id in s.sup.accounts && s.sup.accounts[action.id] then clients - {action.id}
      else clients
  }

  // An outcome leaves a client exactly when the connect worked, whatever failed after it; nobody else's
  // comes or goes with it.
  lemma OutcomeLeavesAClient(s: Sys, action: Action, clients: set<Id>, other: Id)
    requires Outcome(s, action).Some? && other != Outcome(s, action).value.0
    ensures var (id, answer) := Outcome(s, action).value;
      id in Clients(s, action, clients) <==> answer in {Succeeds, PersistFails, ListFails}
    ensures other in Clients(s, action, clients) <==> other in clients
  {}

  function WatchStep(w: Watch, action: Action): Watch {
    Watch(Step(w.sys, action), Pending(w.sys, action, w.pending), Clients(w.sys, action, w.clients))
  }

  function WatchRun(w: Watch, actions: seq<Action>): Watch
    decreases actions
  {
    if actions == [] then w else WatchRun(WatchStep(w, actions[0]), actions[1..])
  }

  lemma {:induction false} WatchesTheRun(w: Watch, actions: seq<Action>)
    ensures WatchRun(w, actions).sys == Run(w.sys, actions)
    decreases actions
  {
    if actions != [] { WatchesTheRun(WatchStep(w, actions[0]), actions[1..]); }
  }

  // A start's outcome comes while it is pending, and no stop of its account comes before.
  predicate Undisturbed(w: Watch, action: Action) {
    && (action.Stop? ==> action.id !in w.pending)
    && (Outcome(w.sys, action).Some? ==> Outcome(w.sys, action).value.0 in w.pending)
  }

  predicate AllUndisturbed(w: Watch, actions: seq<Action>)
    decreases actions
  {
    actions == [] || (Undisturbed(w, actions[0]) && AllUndisturbed(WatchStep(w, actions[0]), actions[1..]))
  }

  // Whoever is being connected or has a client holds a slot.
  ghost predicate Counted(w: Watch) {
    w.pending <= Running(w.sys.sup.accounts) && w.clients <= Running(w.sys.sup.accounts)
  }

  lemma OutcomeRuns(s: Sys, action: Action)
    requires Outcome(s, action).Some?
    ensures var o := Outcome(s, action).value;
      var later := Step(s, action).sup.accounts;
      Running(later) == if Fails(o.1) then Running(s.sup.accounts) - {o.0} else Running(s.sup.accounts)
  {
    var o := Outcome(s, action).value;
    assert Step(s, action).sup == Settle(s.sup, o.0, o.1);
    assert Running(s.sup.accounts[o.0 := false]) == Running(s.sup.accounts) - {o.0};
  }

  lemma StopRuns(s: Sys, id: Id)
    ensures Running(Step(s, Stop(id)).sup.accounts) == Running(s.sup.accounts) - {id}
  {}

  lemma SlotRuns(s: Sup, id: Id)
    requires id in s.accounts
    ensures Running(TakeSlot(s, id).accounts) == Running(s.accounts) + (if GetsSlot(s, id) then {id} else {})
  {
    if GetsSlot(s, id) { RunningGrows(s.accounts, id); }
  }

  lemma OthersRun(s: Sys, action: Action)
    requires Outcome(s, action).None? && !action.Stop? && !action.Begin? && !action.Try?
    ensures Running(Step(s, action).sup.accounts) == Running(s.sup.accounts)
  {}

  lemma CountedStep(w: Watch, action: Action)
    requires Counted(w) && Undisturbed(w, action)
    ensures Counted(WatchStep(w, action))
  {
    if Outcome(w.sys, action).Some? {
      OutcomeRuns(w.sys, action);
    } else if action.Stop? {
      StopRuns(w.sys, action.id);
    } else if action.Begin? {
      if action.id in w.sys.sup.accounts { SlotRuns(w.sys.sup, action.id); }
    } else if action.Try? {
      if action.p in w.sys.rounds && w.sys.rounds[action.p].Picked? && w.sys.rounds[action.p].id in w.sys.sup.accounts {
        SlotRuns(w.sys.sup, w.sys.rounds[action.p].id);
      }
    } else {
      OthersRun(w.sys, action);
    }
  }

  // While no stop falls between a start and its outcome, no more clients are connected than the limit
  // allows.
  lemma {:induction false} ClientsStayWithin(w: Watch, actions: seq<Action>, most: nat)
    requires Counted(w) && AllUndisturbed(w, actions)
    requires 0 < w.sys.sup.max <= most && Count(w.sys) <= most
    requires forall a :: a in actions && a.Limit? ==> 0 < a.n <= most
    ensures |WatchRun(w, actions).clients| <= most
  {
    AllCounted(w, actions);
    WatchesTheRun(w, actions);
    SlotSafety(w.sys, actions, most);
    SubsetSize(WatchRun(w, actions).clients, Running(Run(w.sys, actions).sup.accounts));
  }

  lemma {:induction false} AllCounted(w: Watch, actions: seq<Action>)
    requires Counted(w) && AllUndisturbed(w, actions)
    ensures Counted(WatchRun(w, actions))
    decreases actions
  {
    if actions != [] {
      CountedStep(w, actions[0]);
      AllCounted(WatchStep(w, actions[0]), actions[1..]);
    }
  }

  lemma SubsetSize(a: set<Id>, b: set<Id>)
    requires a <= b
    ensures |a| <= |b|
  {
    assert b == a + (b - a);
  }

  // A stop that does fall there leaves a client no slot counts: with a limit of one, two are connected.
  lemma AStoppedStartKeepsItsClient(rows: seq<Row>)
    ensures var w := Watch(Sys(Sup(rows, map["a" := false, "b" := false], 1), false, map[]), {}, {});
      var t := WatchRun(w, [Begin("a"), Stop("a")] + [Begin("b"), End("a", Succeeds), End("b", Succeeds)]);
      t.clients == {"a", "b"} && Running(t.sys.sup.accounts) == {"b"} && t.sys.sup.max == 1
  {
    var none := map["a" := false, "b" := false];
    var w := Watch(Sys(Sup(rows, none, 1), false, map[]), {}, {});
    assert Running(none) == {};
    BeginAndStop(w, "a", [Begin("b"), End("a", Succeeds), End("b", Succeeds)]);
    ThenTheOther(w.(pending := {"a"}), rows);
  }

  lemma ThenTheOther(w: Watch, rows: seq<Row>)
    requires w == Watch(Sys(Sup(rows, map["a" := false, "b" := false], 1), false, map[]), {"a"}, {})
    ensures var t := WatchRun(w, [Begin("b"), End("a", Succeeds), End("b", Succeeds)]);
      t.clients == {"a", "b"} && Running(t.sys.sup.accounts) == {"b"} && t.sys.sup.max == 1
  {
    var none, b := map["a" := false, "b" := false], map["a" := false, "b" := true];
    assert Running(none) == {} && none["b" := true] == b;
    WatchFirst(w, Begin("b"), [End("a", Succeeds), End("b", Succeeds)]);
    assert {"a"} + {"b"} == {"a", "b"};
    assert WatchStep(w, Begin("b")) == Watch(Sys(Sup(rows, b, 1), false, map[]), {"a", "b"}, {});
    BothConnect(rows, b);
    assert "b" in Running(b) && "a" !in Running(b);
    assert Running(b) == {"b"};
  }

  lemma BeginAndStop(w: Watch, id: Id, rest: seq<Action>)
    requires GetsSlot(w.sys.sup, id) && w.clients == {} && w.pending == {}
    ensures WatchRun(w, [Begin(id), Stop(id)] + rest) == WatchRun(w.(pending := {id}), rest)
  {
    var accounts := w.sys.sup.accounts;
    assert [Begin(id), Stop(id)] + rest == [Begin(id)] + ([Stop(id)] + rest);
    WatchFirst(w, Begin(id), [Stop(id)] + rest);
    var begun := Watch(w.sys.(sup := Mark(w.sys.sup, id, true)), {id}, {});
    assert WatchStep(w, Begin(id)) == begun;
    WatchFirst(begun, Stop(id), rest);
    assert accounts[id := true][id := false] == accounts;
    assert WatchStep(begun, Stop(id)) == w.(pending := {id});
  }

  lemma WatchFirst(w: Watch, action: Action, rest: seq<Action>)
    ensures WatchRun(w, [action] + rest) == WatchRun(WatchStep(w, action), rest)
  {
    assert ([action] + rest)[1..] == rest;
  }

  lemma BothConnect(rows: seq<Row>, accounts: map<Id, bool>)
    requires accounts == map["a" := false, "b" := true]
    ensures var w := Watch(Sys(Sup(rows, accounts, 1), false, map[]), {"a", "b"}, {});
      var t := WatchRun(w, [End("a", Succeeds), End("b", Succeeds)]);
      t.clients == {"a", "b"} && t.sys.sup.accounts == accounts && t.sys.sup.max == 1
  {
    var w := Watch(Sys(Sup(rows, accounts, 1), false, map[]), {"a", "b"}, {});
    WatchFirst(w, End("a", Succeeds), [End("b", Succeeds)]);
    var u := WatchStep(w, End("a", Succeeds));
    WatchFirst(u, End("b", Succeeds), []);
  }

  // ----- who is left waiting for a free slot -----

  // A slot is free for an account this round has not tried.
  predicate Owed(s: Sup, tried: set<Id>) { Free(s) && Candidates(s, tried, s.rows) != [] }

  lemma {:induction false} NoCandidates(s: Sup, tried: set<Id>, rows: seq<Row>)
    ensures Candidates(s, tried, rows) == [] <==> forall i :: 0 <= i < |rows| ==> !Eligible(s, tried, rows[i])
  {
    if rows != [] {
      NoCandidates(s, tried, rows[1..]);
      assert forall i :: 0 <= i < |rows[1..]| ==> rows[1..][i] == rows[i + 1];
      assert rows[0] == rows[0];
    }
  }

  // The steps that can free a slot or give one a new taker.
  predicate Freeing(action: Action) {
    match action
    case Stop(_) => true
    case Limit(_) => true
    case Register(_) => true
    case Move(_, state) => state == Parked
    case End(_, answer) => Fails(answer)
    case Answer(_, answer) => Fails(answer)
    case Insert(row) => row.state == Parked
    case _ => false
  }

  // The steps that can take a slot, or take an account out of those that want one.
  predicate Taking(action: Action) {
    match action
    case Begin(_) => true
    case Try(_) => true
    case Limit(_) => true
    case Move(_, state) => state != Parked
    case End(_, answer) => Settles(answer)
    case Answer(_, answer) => Settles(answer)
    case Drop(_) => true
    case _ => false
  }

  predicate Settles(answer: Connect) { answer.Succeeds? || Fails(answer) }

  // No account becomes eligible and no slot becomes free.
  ghost predicate Narrower(s: Sup, t: Sup, tried: set<Id>) {
    && (Free(t) ==> Free(s))
    && |t.rows| == |s.rows|
    && (Free(t) ==> forall i :: 0 <= i < |s.rows| && Eligible(t, tried, t.rows[i]) ==> Eligible(s, tried, s.rows[i]))
  }

  lemma NarrowerOwes(s: Sup, t: Sup, tried: set<Id>)
    requires Narrower(s, t, tried) && !Owed(s, tried)
    ensures !Owed(t, tried)
  {
    NoCandidates(s, tried, s.rows);
    NoCandidates(t, tried, t.rows);
  }

  // A slot is owed exactly when one is free and some row is that of an account that may take it.
  lemma OwedIff(s: Sup, tried: set<Id>)
    ensures Owed(s, tried) <==> Free(s) && exists r :: r in s.rows && Eligible(s, tried, r)
  {
    NoCandidates(s, tried, s.rows);
    if exists r :: r in s.rows && Eligible(s, tried, r) {
      var r :| r in s.rows && Eligible(s, tried, r);
      var i :| 0 <= i < |s.rows| && s.rows[i] == r;
    }
  }

  // Only the rows of the table count, not their order.
  lemma SameRowsOwe(s: Sup, t: Sup, tried: set<Id>)
    requires t.accounts == s.accounts && t.max == s.max
    requires forall r :: r in t.rows && Eligible(t, tried, r) ==> r in s.rows
    requires !Owed(s, tried)
    ensures !Owed(t, tried)
  {
    OwedIff(s, tried);
    OwedIff(t, tried);
  }

  lemma ReorderedRows(rows: seq<Row>, order: seq<Row>)
    requires multiset(order) == multiset(rows)
    ensures forall r :: r in order <==> r in rows
  {
    forall r ensures r in order <==> r in rows {
      assert r in order <==> r in multiset(order);
      assert r in rows <==> r in multiset(rows);
    }
  }

  lemma TakingNarrows(s: Sup, id: Id, tried: set<Id>)
    requires id in s.accounts
    ensures Narrower(s, TakeSlot(s, id), tried)
  {
    if !s.accounts[id] { RunningGrows(s.accounts, id); }
  }

  lemma SettlingNarrows(s: Sup, id: Id, answer: Connect, tried: set<Id>)
    requires id in s.accounts && !Fails(answer)
    ensures Narrower(s, Settle(s, id, answer), tried)
  {}

  lemma OnlyFreeingOwes(s: Sys, action: Action, tried: set<Id>)
    requires !Owed(s.sup, tried) && !Freeing(action)
    ensures !Owed(Step(s, action).sup, tried)
  {
    var t := Step(s, action).sup;
    match action
    case Begin(id) => if id in s.sup.accounts { TakingNarrows(s.sup, id, tried); NarrowerOwes(s.sup, t, tried); }
    case End(id, answer) =>
      if id in s.sup.accounts { SettlingNarrows(s.sup, id, answer, tried); NarrowerOwes(s.sup, t, tried); }
    case Move(id, state) => NarrowerOwes(s.sup, t, tried);
    case Try(p) =>
      if t != s.sup { TakingNarrows(s.sup, s.rounds[p].id, tried); NarrowerOwes(s.sup, t, tried); }
    case Answer(p, answer) =>
      if t != s.sup { SettlingNarrows(s.sup, s.rounds[p].id, answer, tried); NarrowerOwes(s.sup, t, tried); }
    case Insert(row) => SameRowsOwe(s.sup, t, tried);
    case Drop(id) =>
      WithoutKeeps(s.sup.rows, id);
      SameRowsOwe(s.sup, t, tried);
    case Touch(order) => if multiset(order) == multiset(s.sup.rows) {
      ReorderedRows(s.sup.rows, order);
      SameRowsOwe(s.sup, t, tried);
    }
    case _ =>
  }

  lemma RegisterWidens(s: Sup, id: Id, tried: set<Id>)
    requires id !in s.accounts
    ensures Narrower(s.(accounts := s.accounts[id := false]), s, tried)
  {
    assert Running(s.accounts[id := false]) == Running(s.accounts);
  }

  lemma StopWidens(s: Sup, id: Id, tried: set<Id>)
    requires id in s.accounts
    ensures Narrower(Mark(s, id, false), s, tried)
  {
    FewerRunning(s.accounts, id);
  }

  // What is owed stays owed until a step takes it.
  lemma OnlyTakingTakes(s: Sys, action: Action, tried: set<Id>)
    requires Owed(s.sup, tried) && !Taking(action)
    ensures Owed(Step(s, action).sup, tried)
  {
    var t := Step(s, action).sup;
    if !Owed(t, tried) {
      match action
      case Register(id) => if id !in s.sup.accounts { RegisterWidens(s.sup, id, tried); NarrowerOwes(t, s.sup, tried); }
      case Stop(id) => if id in s.sup.accounts { StopWidens(s.sup, id, tried); NarrowerOwes(t, s.sup, tried); }
      case Move(id, state) => NarrowerOwes(t, s.sup, tried);
      case Insert(row) => SameRowsOwe(t, s.sup, tried);
      case Touch(order) => if multiset(order) == multiset(s.sup.rows) {
        ReorderedRows(s.sup.rows, order);
        SameRowsOwe(t, s.sup, tried);
      }
      case _ =>
    }
  }

  lemma {:induction false} NothingTakenStaysOwed(s: Sys, actions: seq<Action>, tried: set<Id>)
    requires Owed(s.sup, tried) && forall a :: a in actions ==> !Taking(a)
    ensures Owed(Run(s, actions).sup, tried)
    decreases actions
  {
    if actions != [] {
      OnlyTakingTakes(s, actions[0], tried);
      NothingTakenStaysOwed(Step(s, actions[0]), actions[1..], tried);
    }
  }

  // From the look that makes a round close, and for as long as nothing is freed, no slot is free for
  // an account it has not tried -- whatever starts, moves and other rebalances do meanwhile.
  lemma {:induction false} NothingFreedNothingOwed(s: Sys, actions: seq<Action>, tried: set<Id>)
    requires !Owed(s.sup, tried) && forall a :: a in actions ==> !Freeing(a)
    ensures !Owed(Run(s, actions).sup, tried)
    decreases actions
  {
    if actions != [] {
      OnlyFreeingOwes(s, actions[0], tried);
      NothingFreedNothingOwed(Step(s, actions[0]), actions[1..], tried);
    }
  }

  lemma ClosingLooks(s: Sys, p: nat, actions: seq<Action>)
    requires p in s.rounds && s.rounds[p].Looking? && Step(s, Look(p)).rounds[p].Closing?
    requires forall a :: a in actions ==> !Freeing(a)
    ensures !Owed(Run(Step(s, Look(p)), actions).sup, s.rounds[p].tried)
  {
    NothingFreedNothingOwed(Step(s, Look(p)), actions, s.rounds[p].tried);
  }

  // The state after the first i steps.
  function At(s: Sys, actions: seq<Action>, i: nat): Sys
    requires i <= |actions|
  {
    Run(s, actions[..i])
  }

  lemma {:induction false} RunLast(s: Sys, actions: seq<Action>, action: Action)
    ensures Run(s, actions + [action]) == Step(Run(s, actions), action)
    decreases actions
  {
    if actions == [] {
      assert [] + [action] == [action] && [action][1..] == [];
    } else {
      assert (actions + [action])[1..] == actions[1..] + [action];
      RunLast(Step(s, actions[0]), actions[1..], action);
    }
  }

  lemma NextAt(s: Sys, actions: seq<Action>, i: nat)
    requires i < |actions|
    ensures At(s, actions, i + 1) == Step(At(s, actions, i), actions[i])
  {
    assert actions[..i + 1] == actions[..i] + [actions[i]];
    RunLast(s, actions[..i], actions[i]);
  }

  // One rebalance at a time: the flag is set exactly while there is one.
  ghost predicate OneRound(s: Sys) {
    && (s.rebalancing <==> s.rounds != map[])
    && forall p, q :: p in s.rounds && q in s.rounds ==> p == q
  }

  lemma OneRoundStep(s: Sys, action: Action)
    requires OneRound(s)
    ensures OneRound(Step(s, action))
  {
    match action
    case Enter(p) => assert Step(s, action).rebalancing ==> s.rebalancing || p in Step(s, action).rounds;
    case Look(p) => assert p in s.rounds ==> p in Step(s, action).rounds;
    case Try(p) => assert p in s.rounds ==> p in Step(s, action).rounds;
    case Answer(p, answer) => assert p in s.rounds ==> p in Step(s, action).rounds;
    case Exit(p) =>
      if p in s.rounds && s.rounds[p].Closing? {
        assert forall q :: q in s.rounds ==> q == p;
        assert s.rounds - {p} == map[];
      }
    case _ =>
  }

  lemma {:induction false} OneRoundAt(s: Sys, actions: seq<Action>, i: nat)
    requires OneRound(s) && i <= |actions|
    ensures OneRound(At(s, actions, i))
    decreases i
  {
    if i > 0 {
      OneRoundAt(s, actions, i - 1);
      NextAt(s, actions, i - 1);
      OneRoundStep(At(s, actions, i - 1), actions[i - 1]);
    }
  }

  predicate ClosingAt(s: Sys, p: nat, tried: set<Id>) { p in s.rounds && s.rounds[p] == Closing(tried) }

  // p's last look was step k, and p has been on its way out ever since.
  ghost predicate LastLook(s: Sys, actions: seq<Action>, p: nat, tried: set<Id>, k: nat) {
    && k < |actions| && actions[k] == Look(p)
    && p in At(s, actions, k).rounds && At(s, actions, k).rounds[p] == Looking(tried)
    && forall j :: k < j <= |actions| ==> ClosingAt(At(s, actions, j), p, tried)
  }

  // A round that is on its way out at the end, and was not at the start, had a last look.
  lemma {:induction false} FindLastLook(s: Sys, actions: seq<Action>, p: nat, tried: set<Id>) returns (k: nat)
    requires !ClosingAt(s, p, tried) && ClosingAt(Run(s, actions), p, tried)
    ensures LastLook(s, actions, p, tried, k)
    decreases |actions|
  {
    var n := |actions| - 1;
    assert actions[..n + 1] == actions;
    NextAt(s, actions, n);
    if ClosingAt(At(s, actions, n), p, tried) {
      k := FindLastLook(s, actions[..n], p, tried);
      forall j | 0 <= j <= n ensures At(s, actions[..n], j) == At(s, actions, j) {
        assert actions[..n][..j] == actions[..j];
      }
      assert At(s, actions, n + 1) == Run(s, actions);
    } else {
      k := n;
    }
  }

  lemma LastLookOwesNothing(s: Sys, actions: seq<Action>, p: nat, tried: set<Id>, k: nat)
    requires LastLook(s, actions, p, tried, k)
    ensures ClosingAt(At(s, actions, k + 1), p, tried) && !OwedAt(s, actions, tried, k + 1)
  {
    NextAt(s, actions, k);
    assert ClosingAt(At(s, actions, k + 1), p, tried);
  }

  predicate OwedAt(s: Sys, actions: seq<Action>, tried: set<Id>, i: nat)
    requires i <= |actions|
  {
    Owed(At(s, actions, i).sup, tried)
  }

  // Step i freed a slot for an account that wants one.
  predicate Opens(s: Sys, actions: seq<Action>, tried: set<Id>, i: nat)
    requires i < |actions|
  {
    Freeing(actions[i]) && !OwedAt(s, actions, tried, i) && OwedAt(s, actions, tried, i + 1)
  }

  // Step j took the last such slot, or the last such account.
  predicate Takes(s: Sys, actions: seq<Action>, tried: set<Id>, j: nat)
    requires j < |actions|
  {
    Taking(actions[j]) && OwedAt(s, actions, tried, j) && !OwedAt(s, actions, tried, j + 1)
  }

  ghost predicate NobodyTakes(s: Sys, actions: seq<Action>, tried: set<Id>, i: nat) {
    forall j :: i <= j < |actions| ==> !Takes(s, actions, tried, j)
  }

  // Some step after step k freed a slot, and no step after that one took it.
  ghost predicate FreedAndNotTaken(s: Sys, actions: seq<Action>, tried: set<Id>, k: nat) {
    exists i :: k < i < |actions| && Opens(s, actions, tried, i) && NobodyTakes(s, actions, tried, i + 1)
  }

  // Steps change what is owed only by freeing or by taking.
  lemma OwedNext(s: Sys, actions: seq<Action>, tried: set<Id>, i: nat)
    requires i < |actions|
    ensures !OwedAt(s, actions, tried, i) && OwedAt(s, actions, tried, i + 1) ==> Opens(s, actions, tried, i)
    ensures OwedAt(s, actions, tried, i) && !OwedAt(s, actions, tried, i + 1) ==> Takes(s, actions, tried, i)
  {
    NextAt(s, actions, i);
    if !OwedAt(s, actions, tried, i) {
      if !Freeing(actions[i]) { OnlyFreeingOwes(At(s, actions, i), actions[i], tried); }
    } else if !Taking(actions[i]) {
      OnlyTakingTakes(At(s, actions, i), actions[i], tried);
    }
  }

  lemma {:induction false} FindOpening(s: Sys, actions: seq<Action>, tried: set<Id>, k: nat, n: nat) returns (i: nat)
    requires k <= n <= |actions| && !OwedAt(s, actions, tried, k) && OwedAt(s, actions, tried, n)
    requires NobodyTakes(s, actions, tried, n)
    ensures k <= i < |actions| && Opens(s, actions, tried, i) && NobodyTakes(s, actions, tried, i + 1)
    decreases n
  {
    OwedNext(s, actions, tried, n - 1);
    if OwedAt(s, actions, tried, n - 1) {
      i := FindOpening(s, actions, tried, k, n - 1);
    } else {
      i := n - 1;
    }
  }

  lemma {:induction false} NotTakenStays(s: Sys, actions: seq<Action>, tried: set<Id>, i: nat)
    requires i <= |actions| && OwedAt(s, actions, tried, i) && NobodyTakes(s, actions, tried, i)
    ensures OwedAt(s, actions, tried, |actions|)
    decreases |actions| - i
  {
    if i < |actions| {
      OwedNext(s, actions, tried, i);
      assert !Takes(s, actions, tried, i);
      NotTakenStays(s, actions, tried, i + 1);
    }
  }

  lemma OwedAtTheEndIff(s: Sys, actions: seq<Action>, tried: set<Id>, k: nat)
    requires k < |actions| && !OwedAt(s, actions, tried, k + 1)
    ensures OwedAt(s, actions, tried, |actions|) <==> FreedAndNotTaken(s, actions, tried, k)
  {
    if OwedAt(s, actions, tried, |actions|) {
      var i := FindOpening(s, actions, tried, k + 1, |actions|);
    } else if FreedAndNotTaken(s, actions, tried, k) {
      var i :| k < i < |actions| && Opens(s, actions, tried, i) && NobodyTakes(s, actions, tried, i + 1);
      NotTakenStays(s, actions, tried, i + 1);
    }
  }

  lemma OwedAtTheEnd(s: Sys, actions: seq<Action>, tried: set<Id>)
    ensures OwedAt(s, actions, tried, |actions|) == Owed(Run(s, actions).sup, tried)
  {
    assert actions[..|actions|] == actions;
  }

  // Exactly when a rebalance leaves a free slot behind as it exits: some step after its last look
  // freed one and no later step took it; every rebalance called meanwhile found the flag set.
  lemma SlotLeftAtExitIff(s: Sys, actions: seq<Action>, p: nat, tried: set<Id>) returns (k: nat)
    requires s.rounds == map[] && !s.rebalancing && ClosingAt(Run(s, actions), p, tried)
    ensures LastLook(s, actions, p, tried, k)
    ensures !OwedAt(s, actions, tried, k + 1)
    ensures forall j :: k < j <= |actions| ==> At(s, actions, j).rebalancing
    ensures forall j :: k < j < |actions| && actions[j].Enter? ==> At(s, actions, j + 1) == At(s, actions, j)
    ensures Owed(Run(s, actions).sup, tried) <==> FreedAndNotTaken(s, actions, tried, k)
    ensures Step(Run(s, actions), Exit(p)).sup == Run(s, actions).sup && !Step(Run(s, actions), Exit(p)).rebalancing
  {
    k := FindLastLook(s, actions, p, tried);
    LastLookOwesNothing(s, actions, p, tried, k);
    forall j | k < j <= |actions| ensures At(s, actions, j).rebalancing {
      OneRoundAt(s, actions, j);
      assert ClosingAt(At(s, actions, j), p, tried);
    }
    forall j | k < j < |actions| && actions[j].Enter? ensures At(s, actions, j + 1) == At(s, actions, j) {
      NextAt(s, actions, j);
    }
    OwedAtTheEnd(s, actions, tried);
    OwedAtTheEndIff(s, actions, tried, k);
  }

  lemma NobodyCanTake(s: Sys, actions: seq<Action>, tried: set<Id>, i: nat)
    requires forall j :: i <= j < |actions| ==> !Taking(actions[j])
    ensures NobodyTakes(s, actions, tried, i)
  {
    forall j | i <= j < |actions| ensures !Takes(s, actions, tried, j) { assert !Taking(actions[j]); }
  }

  lemma OwedUntilTaken(s: Sys, actions: seq<Action>, tried: set<Id>, i: nat)
    requires i <= |actions| && OwedAt(s, actions, tried, i) && forall j :: i <= j < |actions| ==> !Taking(actions[j])
    ensures Owed(Run(s, actions).sup, tried)
  {
    NobodyCanTake(s, actions, tried, i);
    NotTakenStays(s, actions, tried, i);
    OwedAtTheEnd(s, actions, tried);
  }

  // In terms of the steps alone: a slot that some step frees is left when no step after it can take one.
  lemma FreedAndNothingTakes(s: Sys, actions: seq<Action>, tried: set<Id>, i: nat)
    requires i < |actions| && Opens(s, actions, tried, i) && forall j :: i < j < |actions| ==> !Taking(actions[j])
    ensures Owed(Run(s, actions).sup, tried)
  {
    OwedUntilTaken(s, actions, tried, i + 1);
  }

  // ----- what a called rebalance reaches -----

  // After n steps p is on its way out, and no slot is free for an account it has not tried.
  predicate DoneAt(s: Sys, actions: seq<Action>, p: nat, tried: set<Id>, n: nat)
    requires n <= |actions|
  {
    ClosingAt(At(s, actions, n), p, tried) && !OwedAt(s, actions, tried, n)
  }

  ghost predicate Served(s: Sys, actions: seq<Action>, p: nat) {
    exists n: nat, tried :: n <= |actions| && DoneAt(s, actions, p, tried, n)
  }

  // The step at which a round that is gone at the end left.
  lemma {:induction false} FindExit(s: Sys, actions: seq<Action>, p: nat) returns (n: nat)
    requires p in s.rounds && p !in Run(s, actions).rounds
    ensures n < |actions| && p in At(s, actions, n).rounds && At(s, actions, n).rounds[p].Closing?
    decreases actions
  {
    var t := Step(s, actions[0]);
    assert actions[..0] == [];
    if p in t.rounds {
      n := FindExit(t, actions[1..], p);
      assert actions[1..][..n] == actions[..n + 1][1..];
      assert At(t, actions[1..], n) == At(s, actions, n + 1);
      n := n + 1;
    } else {
      n := 0;
    }
  }

  lemma AtPrefix(s: Sys, actions: seq<Action>, n: nat, j: nat)
    requires j <= n <= |actions|
    ensures At(s, actions[..n], j) == At(s, actions, j)
  {
    assert actions[..n][..j] == actions[..j];
  }

  // A round that still has a look before it passes, before its exit, an instant at which no slot was
  // free for an account it had not tried.
  lemma LookingIsServed(s: Sys, actions: seq<Action>, p: nat)
    requires p in s.rounds && !s.rounds[p].Closing? && p !in Run(s, actions).rounds
    ensures Served(s, actions, p)
  {
    var n := FindExit(s, actions, p);
    var tried := At(s, actions, n).rounds[p].tried;
    var k := FindLastLook(s, actions[..n], p, tried);
    LastLookOwesNothing(s, actions[..n], p, tried, k);
    AtPrefix(s, actions, n, k + 1);
    assert DoneAt(s, actions, p, tried, k + 1);
  }

  lemma ExitAtOnce(s: Sys, p: nat)
    requires p in s.rounds && s.rounds[p].Closing? && Owed(s.sup, s.rounds[p].tried)
    ensures p !in Run(s, [Exit(p)]).rounds && !Served(s, [Exit(p)], p)
  {
    var actions := [Exit(p)];
    RunFirst(s, Exit(p), []);
    assert [Exit(p)] + [] == actions && actions[..0] == [] && actions[..1] == actions;
    forall n: nat, tried | n <= |actions| ensures !DoneAt(s, actions, p, tried, n) {
      assert At(s, actions, n) == if n == 0 then s else Step(s, Exit(p));
    }
  }

  ghost predicate AlwaysServed(s: Sys, p: nat) {
    forall actions :: p !in Run(s, actions).rounds ==> Served(s, actions, p)
  }

  // However a rebalance goes on and whatever runs meanwhile, it only exits after an instant, from now
  // on, at which nothing was owed -- unless it is on its way out already and something is owed now.
  lemma ServesUnlessClosing(s: Sys, p: nat)
    requires p in s.rounds
    ensures AlwaysServed(s, p) <==> !(s.rounds[p].Closing? && Owed(s.sup, s.rounds[p].tried))
  {
    if !s.rounds[p].Closing? {
      forall actions | p !in Run(s, actions).rounds ensures Served(s, actions, p) { LookingIsServed(s, actions, p); }
    } else if Owed(s.sup, s.rounds[p].tried) {
      ExitAtOnce(s, p);
    } else {
      forall actions | p !in Run(s, actions).rounds ensures Served(s, actions, p) {
        assert actions[..0] == [];
        assert DoneAt(s, actions, p, s.rounds[p].tried, 0);
      }
    }
  }

  // What a caller of rebalance gets. With the flag clear the call runs itself and always serves. With
  // the flag set it does nothing, and the one that holds the flag serves for it exactly when it is not
  // on its way out already with something owed.
  lemma CalledRebalanceServesIff(s: Sys, q: nat, p: nat)
    requires OneRound(s) && q !in s.rounds && p in Step(s, Enter(q)).rounds
    ensures var t := Step(s, Enter(q));
      && (!s.rebalancing ==> p == q && AlwaysServed(t, p))
      && (s.rebalancing ==>
            && t == s && p in s.rounds
            && (AlwaysServed(t, p) <==> !(s.rounds[p].Closing? && Owed(s.sup, s.rounds[p].tried))))
  {
    ServesUnlessClosing(Step(s, Enter(q)), p);
  }

  lemma RunFirst(s: Sys, action: Action, rest: seq<Action>)
    ensures Run(s, [action] + rest) == Run(Step(s, action), rest)
  {
    assert ([action] + rest)[1..] == rest;
  }

  // What SignOut does to the table while a rebalance that has seen a full house is on its way out.
  lemma FreedTooLate(accounts: map<Id, bool>)
    requires accounts == map["a" := true, "b" := false]
    ensures var s := Sys(Sup([Row("a", Connected), Row("b", Parked)], accounts, 1), true, map[1 := Closing({})]);
      Run(s, [Stop("a"), Move("a", SignedOut), Enter(2), Exit(1)])
        == Sys(Sup([Row("a", SignedOut), Row("b", Parked)], accounts["a" := false], 1), false, map[])
  {
    var rows, after := [Row("a", Connected), Row("b", Parked)], accounts["a" := false];
    var s := Sys(Sup(rows, accounts, 1), true, map[1 := Closing({})]);
    var moved := Sup([Row("a", SignedOut), Row("b", Parked)], after, 1);
    assert SetState(rows, "a", SignedOut) == moved.rows;
    RunFirst(s, Stop("a"), [Move("a", SignedOut), Enter(2), Exit(1)]);
    RunFirst(s.(sup := Sup(rows, after, 1)), Move("a", SignedOut), [Enter(2), Exit(1)]);
    EntersInVain(moved);
  }

  lemma EntersInVain(sup: Sup)
    ensures Run(Sys(sup, true, map[1 := Closing({})]), [Enter(2), Exit(1)]) == Sys(sup, false, map[])
  {
    var s := Sys(sup, true, map[1 := Closing({})]);
    RunFirst(s, Enter(2), [Exit(1)]);
    RunFirst(s, Exit(1), []);
    assert s.rounds - {1} == map[];
  }

  // The flag that keeps two rebalances apart can lose one: the slot SignOut frees between another
  // call's last look and its exit is given to nobody, although an account is parked for it.
  lemma AFreedSlotCanBeMissed()
    ensures
      var sup := Sup([Row("a", Connected), Row("b", Parked)], map["a" := true, "b" := false], 1);
      var t := Run(Sys(sup, false, map[]), [Enter(1), Look(1), Stop("a"), Move("a", SignedOut), Enter(2), Exit(1)]);
      && t.rounds == map[] && !t.rebalancing && Free(t.sup)
      && Candidates(t.sup, {}, t.sup.rows) == ["b"]
  {
    var sup := Sup([Row("a", Connected), Row("b", Parked)], map["a" := true, "b" := false], 1);
    var s := Sys(sup, false, map[]);
    var rest := [Stop("a"), Move("a", SignedOut), Enter(2), Exit(1)];
    assert "a" in Running(sup.accounts) && "b" !in Running(sup.accounts);
    assert Running(sup.accounts) == {"a"};
    FullHouse(sup, rest);
    FreedTooLate(sup.accounts);
    OneParked(sup.accounts["a" := false]);
    assert [Enter(1), Look(1)] + rest == [Enter(1), Look(1), Stop("a"), Move("a", SignedOut), Enter(2), Exit(1)];
  }

  lemma FullHouse(sup: Sup, rest: seq<Action>)
    requires !Free(sup)
    ensures Run(Sys(sup, false, map[]), [Enter(1), Look(1)] + rest) == Run(Sys(sup, true, map[1 := Closing({})]), rest)
  {
    RunFirst(Sys(sup, false, map[]), Enter(1), [Look(1)] + rest);
    RunFirst(Sys(sup, true, map[1 := Looking({})]), Look(1), rest);
    assert map[1 := Looking({})][1 := Closing({})] == map[1 := Closing({})];
    assert [Enter(1), Look(1)] + rest == [Enter(1)] + ([Look(1)] + rest);
  }

  lemma OneParked(accounts: map<Id, bool>)
    requires accounts == map["a" := false, "b" := false]
    ensures var s := Sup([Row("a", SignedOut), Row("b", Parked)], accounts, 1);
      Free(s) && Candidates(s, {}, s.rows) == ["b"]
  {
    var s := Sup([Row("a", SignedOut), Row("b", Parked)], accounts, 1);
    assert Running(accounts) == {};
    assert s.rows[1..][1..] == [];
    assert Candidates(s, {}, s.rows[1..][1..]) == [];
    assert Eligible(s, {}, s.rows[1..][0]) && !Eligible(s, {}, s.rows[0]);
    assert Candidates(s, {}, s.rows[1..]) == ["b"];
  }
}
