// internal/accounts/supervisor.go and internal/accounts/lifecycle.go: the slots accounts run in, and
// who is given a free one.
module Supervisor {
  import opened Wrappers

  type Id = string

  datatype AccountState = Pairing | Connected | Degraded | Error | SignedOut | Parked | AccountChanged

  datatype Row = Row(id: Id, state: AccountState)

  // What the backend and the disk answer while one account is being connected.
  datatype Connect = Succeeds | PrepareFails | ConnectFails(signsOut: bool) | PersistFails | ListFails

  // `rows` is the accounts table as store.Accounts returns it, newest event first; `accounts` says of
  // each supervised account whether it is running.
  datatype Sup = Sup(rows: seq<Row>, accounts: map<Id, bool>, max: int)

  function Running(accounts: map<Id, bool>): set<Id> { set a | a in accounts && accounts[a] }

  predicate Free(s: Sup) { s.max <= 0 || |Running(s.accounts)| < s.max }

  function SetState(rows: seq<Row>, id: Id, state: AccountState): (r: seq<Row>)
    ensures |r| == |rows|
    ensures forall i :: 0 <= i < |rows| ==> r[i] == if rows[i].id == id then Row(id, state) else rows[i]
  {
    if rows == [] then []
    else [if rows[0].id == id then Row(id, state) else rows[0]] + SetState(rows[1..], id, state)
  }

  function Mark(s: Sup, id: Id, running: bool): Sup
    requires id in s.accounts
  {
    s.(accounts := s.accounts[id := running])
  }

  // The first critical section of start: nothing, a parking, or a slot.
  function TakeSlot(s: Sup, id: Id): Sup
    requires id in s.accounts
  {
    if s.accounts[id] then s
    else if !Free(s) then s.(rows := SetState(s.rows, id, Parked))
    else Mark(s, id, true)
  }

  // What follows it once a slot was taken. A failure after the connect leaves the slot taken and the
  // row as it was.
  function Settle(s: Sup, id: Id, answer: Connect): Sup
    requires id in s.accounts
  {
    match answer
    case Succeeds => s.(rows := SetState(s.rows, id, Connected))
    case PrepareFails => Mark(s, id, false).(rows := SetState(s.rows, id, Error))
    case ConnectFails(signsOut) =>
      Mark(s, id, false).(rows := SetState(s.rows, id, if signsOut then SignedOut else Error))
    case PersistFails => s
    case ListFails => s
  }

  function Started(s: Sup, id: Id, answer: Connect): Sup
    requires id in s.accounts
  {
    if s.accounts[id] || !Free(s) then TakeSlot(s, id) else Settle(TakeSlot(s, id), id, answer)
  }

  // An account rebalance may start: parked, held, not running, not tried yet.
  predicate Eligible(s: Sup, tried: set<Id>, row: Row) {
    row.state == Parked && row.id !in tried && row.id in s.accounts && !s.accounts[row.id]
  }

  // The eligible accounts, newest first.
  function Candidates(s: Sup, tried: set<Id>, rows: seq<Row>): seq<Id> {
    if rows == [] then []
    else (if Eligible(s, tried, rows[0]) then [rows[0].id] else []) + Candidates(s, tried, rows[1..])
  }

  lemma {:induction false} CandidatesEligible(s: Sup, tried: set<Id>, rows: seq<Row>)
    ensures forall id :: id in Candidates(s, tried, rows) ==>
      id !in tried && id in s.accounts && exists i :: 0 <= i < |rows| && rows[i].id == id && Eligible(s, tried, rows[i])
  {
    if rows != [] { CandidatesEligible(s, tried, rows[1..]); }
  }

  // lifecycle.go:113-148: look at the table again after every start, skipping what was tried.
  function Rebalanced(s: Sup, tried: set<Id>, answers: Id -> Connect): Sup
    decreases s.accounts.Keys - tried
  {
    var next := Candidates(s, tried, s.rows);
    if !Free(s) || next == [] then s
    else
      CandidatesEligible(s, tried, s.rows);
      Rebalanced(Started(s, next[0], answers(next[0])), tried + {next[0]}, answers)
  }

  lemma RebalancedOnce(s: Sup, tried: set<Id>, answers: Id -> Connect)
    requires Free(s) && Candidates(s, tried, s.rows) != []
    ensures var id := Candidates(s, tried, s.rows)[0];
      && id in s.accounts && id !in tried
      && Started(s, id, answers(id)).accounts.Keys == s.accounts.Keys
      && Started(s, id, answers(id)).max == s.max
      && Rebalanced(s, tried, answers) == Rebalanced(Started(s, id, answers(id)), tried + {id}, answers)
  {
    CandidatesEligible(s, tried, s.rows);
  }

  // One pass over a list: start each account in turn while a slot is free.
  function Fill(s: Sup, queue: seq<Id>, answers: Id -> Connect): Sup
    requires forall id :: id in queue ==> id in s.accounts
    decreases queue
  {
    if queue == [] || !Free(s) then s else Fill(Started(s, queue[0], answers(queue[0])), queue[1..], answers)
  }

  function SignedOutOf(s: Sup, id: Id): Sup
    requires id in s.accounts
  {
    Mark(s, id, false).(rows := SetState(s.rows, id, SignedOut))
  }

  class Supervisor {
    var rows: seq<Row>
    var accounts: map<Id, bool>
    var max: int
    var rebalancing: bool

    function Snapshot(): Sup
      reads this
    {
      Sup(rows, accounts, max)
    }

    // supervisor.go:543-551
    method RunningCount() returns (n: nat)
      ensures n == |Running(accounts)|
    {
      n := 0;
      var todo := accounts.Keys;
      ghost var counted: set<Id> := {};
      while todo != {}
        invariant todo <= accounts.Keys
        invariant counted == (set a | a in accounts && a !in todo && accounts[a])
        invariant n == |counted|
        decreases todo
      {
        var a :| a in todo;
        todo := todo - {a};
        if accounts[a] {
          n := n + 1;
          counted := counted + {a};
        }
      }
      assert counted == Running(accounts);
    }

    // supervisor.go:841-857, as far as the table goes.
    method Transition(id: Id, state: AccountState)
      modifies this`rows
      ensures rows == SetState(old(rows), id, state)
    {
      rows := SetState(rows, id, state);
    }

    // supervisor.go:423-509 with nothing else running.
    method StartAlone(id: Id, answer: Connect)
      requires id in accounts
      modifies this`rows, this`accounts
      ensures Snapshot() == Started(old(Snapshot()), id, answer)
    {
      if accounts[id] { return; }
      var n := RunningCount();
      if max > 0 && n >= max {
        Transition(id, Parked);
        return;
      }
      accounts := accounts[id := true];
      match answer
      case PrepareFails =>
        accounts := accounts[id := false];
        Transition(id, Error);
      case ConnectFails(signsOut) =>
        accounts := accounts[id := false];
        Transition(id, if signsOut then SignedOut else Error);
      case PersistFails =>
      case ListFails =>
      case Succeeds => Transition(id, Connected);
    }

    // lifecycle.go:126-139: the newest eligible account of a table just read.
    method NextParked(tried: set<Id>) returns (next: Option<Id>)
      ensures var cs := Candidates(Snapshot(), tried, rows);
        next == if cs == [] then None else Some(cs[0])
    {
      for i := 0 to |rows|
        invariant Candidates(Snapshot(), tried, rows) == Candidates(Snapshot(), tried, rows[i..])
      {
        assert rows[i..][1..] == rows[i + 1..];
        var row := rows[i];
        if row.state != Parked || row.id in tried { continue; }
        if row.id !in accounts || accounts[row.id] { continue; }
        return Some(row.id);
      }
      return None;
    }

    // lifecycle.go:99-148 with nothing else running. A second rebalance would return at once.
    method Rebalance(answers: Id -> Connect)
      modifies this
      ensures rebalancing == old(rebalancing)
      ensures Snapshot() == if old(rebalancing) then old(Snapshot()) else Rebalanced(old(Snapshot()), {}, answers)
    {
      if rebalancing { return; }
      rebalancing := true;
      var tried: set<Id> := {};
      while true
        invariant rebalancing
        invariant accounts.Keys == old(accounts).Keys && max == old(max)
        invariant Rebalanced(old(Snapshot()), {}, answers) == Rebalanced(Snapshot(), tried, answers)
        decreases accounts.Keys - tried
      {
        var n := RunningCount();
        if max > 0 && n >= max { break; }
        var next := NextParked(tried);
        if next.None? { break; }
        RebalancedOnce(Snapshot(), tried, answers);
        tried := tried + {next.value};
        StartAlone(next.value, answers(next.value));
      }
      rebalancing := false;
    }

    // lifecycle.go:76-81
    method SetMaxConcurrent(n: int, answers: Id -> Connect)
      modifies this
      ensures Snapshot() ==
        if old(rebalancing) then old(Snapshot()).(max := n) else Rebalanced(old(Snapshot()).(max := n), {}, answers)
      // A new limit stops nobody; it starts parked accounts within itself.
      ensures max == n && Running(old(accounts)) <= Running(accounts)
      ensures Running(accounts) != Running(old(accounts)) && n > 0 ==> |Running(accounts)| <= n
    {
      max := n;
      RebalanceStopsNobody(Snapshot(), {}, answers);
      Rebalance(answers);
    }

    // supervisor.go:604-624 with nothing else running. `recorded` says that the session file was
    // shredded and the row written; when not, the call returns with the account only stopped.
    method SignOut(id: Id, recorded: bool, answers: Id -> Connect)
      requires id in accounts
      modifies this
      ensures Snapshot() ==
        if !recorded then Mark(old(Snapshot()), id, false)
        else if old(rebalancing) then SignedOutOf(old(Snapshot()), id)
        else Rebalanced(SignedOutOf(old(Snapshot()), id), {}, answers)
      // It ends this account, and no other.
      ensures id in accounts && !accounts[id]
      ensures |rows| == |old(rows)|
      ensures recorded ==> forall i :: 0 <= i < |rows| && old(rows)[i].id == id ==> rows[i] == Row(id, SignedOut)
      ensures !recorded ==> rows == old(rows)
      ensures Running(old(accounts)) - {id} <= Running(accounts)
    {
      if accounts[id] { accounts := accounts[id := false]; }
      assert accounts == old(accounts)[id := false];
      if !recorded { return; }
      Transition(id, SignedOut);
      assert Snapshot() == SignedOutOf(old(Snapshot()), id);
      SignOutStays(old(Snapshot()), id, answers);
      RebalanceStopsNobody(Snapshot(), {}, answers);
      Rebalance(answers);
    }
  }

  // ----- what rebalance comes to -----

  ghost predicate Distinct(rows: seq<Row>) {
    forall i, j :: 0 <= i < j < |rows| ==> rows[i].id != rows[j].id
  }

  // Two states that agree about every row and account but one.
  lemma {:induction false} CandidatesAgree(s: Sup, t: Sup, tried: set<Id>, more: set<Id>, rows: seq<Row>,
      later: seq<Row>)
    requires |rows| == |later|
    requires forall i :: 0 <= i < |rows| ==> rows[i].id == later[i].id
    requires forall i :: 0 <= i < |rows| ==> (Eligible(s, tried, rows[i]) <==> Eligible(t, more, later[i]))
    ensures Candidates(s, tried, rows) == Candidates(t, more, later)
  {
    if rows != [] { CandidatesAgree(s, t, tried, more, rows[1..], later[1..]); }
  }

  lemma {:induction false} CandidatesDistinct(s: Sup, tried: set<Id>, rows: seq<Row>)
    requires Distinct(rows)
    ensures forall i, j :: 0 <= i < j < |Candidates(s, tried, rows)| ==>
      Candidates(s, tried, rows)[i] != Candidates(s, tried, rows)[j]
  {
    if rows != [] {
      CandidatesDistinct(s, tried, rows[1..]);
      CandidatesEligible(s, tried, rows[1..]);
    }
  }

  // Only the row of one account may differ.
  ghost predicate SameBut(rows: seq<Row>, later: seq<Row>, id: Id) {
    && |later| == |rows|
    && forall i :: 0 <= i < |rows| ==> later[i].id == rows[i].id && (rows[i].id != id ==> later[i] == rows[i])
  }

  // Trying the newest candidate takes it off the list and leaves the others, in their order.
  lemma {:induction false} CandidatesAfterStart(s: Sup, tried: set<Id>, t: Sup, id: Id, rows: seq<Row>, later: seq<Row>)
    requires Distinct(rows) && Candidates(s, tried, rows) != [] && Candidates(s, tried, rows)[0] == id
    requires SameBut(rows, later, id)
    requires forall a :: a != id ==> (a in s.accounts && !s.accounts[a] <==> a in t.accounts && !t.accounts[a])
    ensures Candidates(t, tried + {id}, later) == Candidates(s, tried, rows)[1..]
  {
    if Eligible(s, tried, rows[0]) {
      CandidatesAgree(s, t, tried, tried + {id}, rows[1..], later[1..]);
    } else {
      CandidatesAfterStart(s, tried, t, id, rows[1..], later[1..]);
    }
  }

  // Rescanning the table after every start is one pass over the candidates there were at the
  // beginning, newest first, whatever each start answers.
  lemma {:induction false} RebalanceIsOnePass(s: Sup, tried: set<Id>, answers: Id -> Connect)
    requires Distinct(s.rows)
    ensures forall id :: id in Candidates(s, tried, s.rows) ==> id in s.accounts
    ensures Rebalanced(s, tried, answers) == Fill(s, Candidates(s, tried, s.rows), answers)
    decreases s.accounts.Keys - tried
  {
    var queue := Candidates(s, tried, s.rows);
    CandidatesEligible(s, tried, s.rows);
    if Free(s) && queue != [] {
      var id := queue[0];
      var t := Started(s, id, answers(id));
      RebalancedOnce(s, tried, answers);
      StartTouchesOne(s, id, answers(id));
      CandidatesAfterStart(s, tried, t, id, s.rows, t.rows);
      RebalanceIsOnePass(t, tried + {id}, answers);
    }
  }

  lemma StartTouchesOne(s: Sup, id: Id, answer: Connect)
    requires id in s.accounts
    ensures var t := Started(s, id, answer);
      && SameBut(s.rows, t.rows, id) && t.accounts.Keys == s.accounts.Keys
      && forall a :: a != id ==> (a in s.accounts && !s.accounts[a] <==> a in t.accounts && !t.accounts[a])
  {}

  // With every start succeeding, what is started is exactly the newest-first prefix of the
  // candidates that the free slots allow.
  function Slots(s: Sup, wanted: nat): nat {
    if s.max <= 0 then wanted
    else if |Running(s.accounts)| >= s.max then 0
    else if s.max - |Running(s.accounts)| < wanted then s.max - |Running(s.accounts)| else wanted
  }

  ghost predicate Fillable(s: Sup, queue: seq<Id>) {
    && (forall id :: id in queue ==> id in s.accounts && !s.accounts[id])
    && (forall i, j :: 0 <= i < j < |queue| ==> queue[i] != queue[j])
  }

  lemma RunningGrows(accounts: map<Id, bool>, id: Id)
    requires id in accounts && !accounts[id]
    ensures Running(accounts[id := true]) == Running(accounts) + {id}
    ensures |Running(accounts[id := true])| == |Running(accounts)| + 1
  {
    assert Running(accounts[id := true]) == Running(accounts) + {id};
  }

  ghost function Elements(queue: seq<Id>): set<Id> { set id | id in queue }

  // Exactly the accounts of `won` were started and connected.
  ghost predicate Connects(s: Sup, t: Sup, won: seq<Id>) {
    && Running(t.accounts) == Running(s.accounts) + Elements(won)
    && |t.rows| == |s.rows|
    && forall i :: 0 <= i < |s.rows| ==>
         t.rows[i] == if s.rows[i].id in won then Row(s.rows[i].id, Connected) else s.rows[i]
  }

  lemma ConnectsOne(s: Sup, t: Sup, id: Id, won: seq<Id>)
    requires id in s.accounts && !s.accounts[id]
    requires Connects(Sup(SetState(s.rows, id, Connected), s.accounts[id := true], s.max), t, won)
    ensures Connects(s, t, [id] + won)
  {
    RunningGrows(s.accounts, id);
    assert Elements([id] + won) == {id} + Elements(won);
  }

  // The accounts of a queue that get a slot.
  function Winners(s: Sup, queue: seq<Id>): seq<Id> { queue[..Slots(s, |queue|)] }

  lemma OneSlotTaken(s: Sup, u: Sup, queue: seq<Id>)
    requires queue != [] && queue[0] in s.accounts && !s.accounts[queue[0]] && Free(s)
    requires u.max == s.max && u.accounts == s.accounts[queue[0] := true]
    ensures Winners(s, queue) == [queue[0]] + Winners(u, queue[1..])
  {
    RunningGrows(s.accounts, queue[0]);
    var n := Slots(u, |queue[1..]|);
    assert Slots(s, |queue|) == n + 1;
    assert queue[..n + 1] == [queue[0]] + queue[1..][..n];
  }

  lemma {:induction false} FillIsGreedy(s: Sup, queue: seq<Id>, answers: Id -> Connect)
    requires Fillable(s, queue) && (forall id :: answers(id) == Succeeds)
    ensures Connects(s, Fill(s, queue, answers), Winners(s, queue))
    decreases queue
  {
    if queue != [] && Free(s) {
      var id, rest := queue[0], queue[1..];
      var u := Sup(SetState(s.rows, id, Connected), s.accounts[id := true], s.max);
      FirstConnects(s, queue, answers, u);
      OneSlotTaken(s, u, queue);
      FillIsGreedy(u, rest, answers);
      ConnectsOne(s, Fill(u, rest, answers), id, Winners(u, rest));
    }
  }

  lemma FirstConnects(s: Sup, queue: seq<Id>, answers: Id -> Connect, u: Sup)
    requires Fillable(s, queue) && queue != [] && Free(s) && answers(queue[0]) == Succeeds
    requires u == Sup(SetState(s.rows, queue[0], Connected), s.accounts[queue[0] := true], s.max)
    ensures Fillable(u, queue[1..]) && Fill(s, queue, answers) == Fill(u, queue[1..], answers)
  {
    assert Started(s, queue[0], answers(queue[0])) == u;
  }

  lemma CandidatesFillable(s: Sup)
    requires Distinct(s.rows)
    ensures Fillable(s, Candidates(s, {}, s.rows))
  {
    CandidatesEligible(s, {}, s.rows);
    CandidatesDistinct(s, {}, s.rows);
  }

  lemma RebalanceIsGreedy(s: Sup, answers: Id -> Connect)
    requires Distinct(s.rows) && (forall id :: answers(id) == Succeeds)
    ensures var queue := Candidates(s, {}, s.rows);
      && Connects(s, Rebalanced(s, {}, answers), queue[..Slots(s, |queue|)])
  {
    RebalanceIsOnePass(s, {}, answers);
    CandidatesFillable(s);
    FillIsGreedy(s, Candidates(s, {}, s.rows), answers);
  }

  // Whatever the starts answer, rebalance never stops an account and never overfills, and it leaves a
  // slot free only when every candidate has been given its chance.
  lemma {:induction false} FillUsesEverySlot(s: Sup, queue: seq<Id>, answers: Id -> Connect)
    requires Fillable(s, queue)
    ensures var t := Fill(s, queue, answers);
      && Running(s.accounts) <= Running(t.accounts)
      && t.max == s.max
      && (s.max > 0 && |Running(s.accounts)| <= s.max ==> |Running(t.accounts)| <= s.max)
      && (Free(t) ==> forall id :: id in queue && answers(id).Succeeds? ==> id in Running(t.accounts))
    decreases queue
  {
    if queue != [] && Free(s) {
      var id := queue[0];
      var t := Started(s, id, answers(id));
      RunningGrows(s.accounts, id);
      assert s.accounts[id := true][id := false] == s.accounts;
      assert t.accounts == s.accounts || t.accounts == s.accounts[id := true];
      FillUsesEverySlot(t, queue[1..], answers);
    }
  }

  lemma RebalanceUsesEverySlot(s: Sup, answers: Id -> Connect)
    requires Distinct(s.rows)
    ensures var t := Rebalanced(s, {}, answers);
      && Running(s.accounts) <= Running(t.accounts)
      && (s.max > 0 && |Running(s.accounts)| <= s.max ==> |Running(t.accounts)| <= s.max)
      && (Free(t) ==>
            forall id :: id in Candidates(s, {}, s.rows) && answers(id).Succeeds? ==> id in Running(t.accounts))
  {
    RebalanceIsOnePass(s, {}, answers);
    CandidatesFillable(s);
    FillUsesEverySlot(s, Candidates(s, {}, s.rows), answers);
  }

  lemma {:induction false} RebalanceStopsNobody(s: Sup, tried: set<Id>, answers: Id -> Connect)
    ensures var t := Rebalanced(s, tried, answers);
      && t.max == s.max && Running(s.accounts) <= Running(t.accounts)
      && (Running(t.accounts) != Running(s.accounts) && s.max > 0 ==> |Running(t.accounts)| <= s.max)
    decreases s.accounts.Keys - tried
  {
    if Free(s) && Candidates(s, tried, s.rows) != [] {
      var id := Candidates(s, tried, s.rows)[0];
      CandidatesEligible(s, tried, s.rows);
      RebalancedOnce(s, tried, answers);
      StartedOnce(s, id, answers(id));
      RebalanceStopsNobody(Started(s, id, answers(id)), tried + {id}, answers);
    }
  }

  lemma StartedOnce(s: Sup, id: Id, answer: Connect)
    requires id in s.accounts && !s.accounts[id] && Free(s)
    ensures var t := Started(s, id, answer);
      && t.max == s.max
      && (Running(t.accounts) == Running(s.accounts)
          || (Running(t.accounts) == Running(s.accounts) + {id} && (s.max > 0 ==> |Running(t.accounts)| <= s.max)))
  {
    RunningGrows(s.accounts, id);
    assert s.accounts[id := true][id := false] == s.accounts;
  }

  // Signing an account out never brings it back, whoever gets its slot.
  lemma {:induction false} OnlyCandidatesStart(s: Sup, tried: set<Id>, answers: Id -> Connect, id: Id)
    requires forall i :: 0 <= i < |s.rows| && s.rows[i].id == id ==> s.rows[i].state == SignedOut
    requires id in s.accounts && !s.accounts[id]
    ensures var t := Rebalanced(s, tried, answers);
      && id in t.accounts && !t.accounts[id]
      && |t.rows| == |s.rows| && (forall i :: 0 <= i < |s.rows| && s.rows[i].id == id ==> t.rows[i] == s.rows[i])
    decreases s.accounts.Keys - tried
  {
    var queue := Candidates(s, tried, s.rows);
    CandidatesEligible(s, tried, s.rows);
    if Free(s) && queue != [] {
      assert queue[0] != id;
      OthersKeep(s, queue[0], answers(queue[0]), id);
      RebalancedOnce(s, tried, answers);
      OnlyCandidatesStart(Started(s, queue[0], answers(queue[0])), tried + {queue[0]}, answers, id);
    }
  }

  lemma OthersKeep(s: Sup, started: Id, answer: Connect, id: Id)
    requires started in s.accounts && id in s.accounts && id != started
    ensures var t := Started(s, started, answer);
      && t.accounts.Keys == s.accounts.Keys && t.accounts[id] == s.accounts[id]
      && |t.rows| == |s.rows|
      && (forall i :: 0 <= i < |s.rows| && s.rows[i].id == id ==> t.rows[i] == s.rows[i])
      && (forall i :: 0 <= i < |t.rows| ==> t.rows[i].id == s.rows[i].id)
  {
  }

  lemma SignOutStays(s: Sup, id: Id, answers: Id -> Connect)
    requires id in s.accounts
    ensures var t := Rebalanced(SignedOutOf(s, id), {}, answers);
      && id in t.accounts && !t.accounts[id]
      && |t.rows| == |s.rows|
      && (forall i :: 0 <= i < |s.rows| && s.rows[i].id == id ==> t.rows[i] == Row(id, SignedOut))
  {
    OnlyCandidatesStart(SignedOutOf(s, id), {}, answers, id);
  }

  // A start that fails before it is connected gives its slot back and leaves a row no rebalance looks at.
  lemma {:induction false} AFailedConnectGivesTheSlotBack(s: Sup, id: Id, answer: Connect, tried: set<Id>)
    requires id in s.accounts && !s.accounts[id] && Free(s)
    requires answer.PrepareFails? || answer.ConnectFails?
    ensures var t := Started(s, id, answer);
      && t.accounts == s.accounts && SameBut(s.rows, t.rows, id)
      && id !in Candidates(t, tried, t.rows)
  {
    var t := Started(s, id, answer);
    assert s.accounts[id := true][id := false] == s.accounts;
    CandidatesEligible(t, tried, t.rows);
  }

  // A start that fails after the connect keeps its slot and its row: a parked account is then running,
  // and no rebalance picks it again while it is.
  lemma {:induction false} AFailedPersistKeepsTheSlot(s: Sup, id: Id, answer: Connect, tried: set<Id>)
    requires id in s.accounts && !s.accounts[id] && Free(s)
    requires answer == PersistFails || answer == ListFails
    ensures var t := Started(s, id, answer);
      && t.rows == s.rows && Running(t.accounts) == Running(s.accounts) + {id}
      && id !in Candidates(t, tried, t.rows)
  {
    RunningGrows(s.accounts, id);
    CandidatesEligible(Started(s, id, answer), tried, s.rows);
  }
}
