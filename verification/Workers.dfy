// internal/accounts/workers.go at lock granularity: each method below is one critical section, one
// channel operation or one cancellation, and any two of them may interleave.
module Workers {
  import opened Wrappers

  type AccountId = string
  type StateId = nat  // one workerState
  type RunId = nat    // one goroutine, and the context it was started with

  datatype WorkerState = WorkerState(cancel: Option<RunId>, paused: bool, resume: bool, started: bool, done: bool)

  const FRESH_STATE := WorkerState(None, false, false, false, false)

  // Where a goroutine is: about to read `paused`, blocked in the select, walking, or on its way out.
  datatype Pc = Checking | Waiting | Working | Leaving

  datatype Run = Run(state: StateId, pc: Pc)

  datatype View = View(
    table: map<AccountId, StateId>, states: map<StateId, WorkerState>, runs: map<RunId, Run>,
    cancelled: set<RunId>, cancelling: set<RunId>, sending: multiset<StateId>, next: nat)

  function Nothing(): View { View(map[], map[], map[], {}, {}, multiset{}, 0) }

  datatype Action =
    | Start(a: AccountId)
    | Check(r: RunId)
    | Wake(r: RunId)
    | Abort(r: RunId)
    | Finish(r: RunId)
    | Leave(r: RunId)
    | StopTable(a: AccountId)
    | StopCancel(r: RunId)
    | Pause(a: AccountId)
    | ResumeFlag(a: AccountId)
    | ResumeSend(w: StateId)

  predicate Busy(v: View, a: AccountId) {
    a in v.table && v.table[a] in v.states && v.states[v.table[a]].started && !v.states[v.table[a]].done
  }

  // The state id an account has, or the one it would be given.
  function StateOf(v: View, a: AccountId): StateId { if a in v.table then v.table[a] else v.next }

  function Existing(v: View, w: StateId): WorkerState { if w in v.states then v.states[w] else FRESH_STATE }

  function At(v: View, r: RunId, pc: Pc): bool { r in v.runs && v.runs[r].pc == pc && v.runs[r].state in v.states }

  function Goto(v: View, r: RunId, pc: Pc): View
    requires r in v.runs
  {
    v.(runs := v.runs[r := v.runs[r].(pc := pc)])
  }

  function StartStep(v: View, a: AccountId): View {
    if Busy(v, a) then v
    else
      var w := StateOf(v, a);
      var run := v.next + 1;
      v.(table := v.table[a := w],
         states := v.states[w := Existing(v, w).(cancel := Some(run), started := true, done := false)],
         runs := v.runs[run := Run(w, Checking)], next := v.next + 2)
  }

  function CheckStep(v: View, r: RunId): View {
    if At(v, r, Checking) then Goto(v, r, if v.states[v.runs[r].state].paused then Waiting else Working) else v
  }

  function WakeStep(v: View, r: RunId): View {
    if At(v, r, Waiting) && v.states[v.runs[r].state].resume then
      var w := v.runs[r].state;
      Goto(v, r, Checking).(states := v.states[w := v.states[w].(resume := false)])
    else v
  }

  function LeaveStep(v: View, r: RunId): View {
    if At(v, r, Leaving) then
      var w := v.runs[r].state;
      v.(states := v.states[w := v.states[w].(done := true)], runs := v.runs - {r})
    else v
  }

  function StopTableStep(v: View, a: AccountId): View {
    if a in v.table && v.table[a] in v.states then
      var handle := v.states[v.table[a]].cancel;
      v.(table := v.table - {a},
         cancelling := if handle.Some? then v.cancelling + {handle.value} else v.cancelling)
    else v
  }

  function PauseStep(v: View, a: AccountId): View {
    var w := StateOf(v, a);
    v.(table := v.table[a := w], states := v.states[w := Existing(v, w).(paused := true)], next := v.next + 1)
  }

  function ResumeFlagStep(v: View, a: AccountId): View {
    if a in v.table && v.table[a] in v.states then
      var w := v.table[a];
      v.(states := v.states[w := v.states[w].(paused := false)], sending := v.sending + multiset{w})
    else v
  }

  function ResumeSendStep(v: View, w: StateId): View {
    if w in v.sending && w in v.states then
      v.(states := v.states[w := v.states[w].(resume := true)], sending := v.sending - multiset{w})
    else v
  }

  function Step(v: View, action: Action): View {
    match action
    case Start(a) => StartStep(v, a)
    case Check(r) => CheckStep(v, r)
    case Wake(r) => WakeStep(v, r)
    case Abort(r) => if At(v, r, Waiting) && r in v.cancelled then Goto(v, r, Leaving) else v
    case Finish(r) => if At(v, r, Working) then Goto(v, r, Leaving) else v
    case Leave(r) => LeaveStep(v, r)
    case StopTable(a) => StopTableStep(v, a)
    case StopCancel(r) =>
      if r in v.cancelling then v.(cancelling := v.cancelling - {r}, cancelled := v.cancelled + {r}) else v
    case Pause(a) => PauseStep(v, a)
    case ResumeFlag(a) => ResumeFlagStep(v, a)
    case ResumeSend(w) => ResumeSendStep(v, w)
  }

  function Reached(actions: seq<Action>): View { RunAll(Nothing(), actions) }

  function RunAll(v: View, actions: seq<Action>): View
    decreases actions
  {
    if actions == [] then v else RunAll(Step(v, actions[0]), actions[1..])
  }

  // ----- the same steps as the code takes them -----

  class Table {
    var table: map<AccountId, StateId>
    var states: map<StateId, WorkerState>
    var runs: map<RunId, Run>
    var cancelled: set<RunId>
    var cancelling: set<RunId>
    var sending: multiset<StateId>
    var next: nat

    function Snapshot(): View
      reads this
    {
      View(table, states, runs, cancelled, cancelling, sending, next)
    }

    // workers.go:70-91
    method Begin(a: AccountId)
      requires a in table ==> table[a] in states
      requires next !in states
      modifies this
      ensures Snapshot() == Step(old(Snapshot()), Start(a))
      ensures old(Busy(Snapshot(), a)) ==> Snapshot() == old(Snapshot())
      ensures !old(Busy(Snapshot(), a)) ==> a in table && runs == old(runs)[old(next) + 1 := Run(table[a], Checking)]
    {
      var existing := a in table;
      if existing && states[table[a]].started && !states[table[a]].done { return; }
      var w, run := next, next + 1;
      var st := FRESH_STATE;
      if existing {
        w := table[a];
        st := states[w];
      } else {
        table := table[a := w];
      }
      next := next + 2;
      st := st.(cancel := Some(run));
      st := st.(started := true);
      st := st.(done := false);
      states := states[w := st];
      runs := runs[run := Run(w, Checking)];
      assert table == table[a := w];
    }

    // workers.go:131-135
    method ReadPaused(r: RunId)
      requires At(Snapshot(), r, Checking)
      modifies this
      ensures Snapshot() == Step(old(Snapshot()), Check(r))
      ensures r in runs && runs[r].pc == if old(states[runs[r].state].paused) then Waiting else Working
    {
      var paused := states[runs[r].state].paused;
      if !paused {
        runs := runs[r := runs[r].(pc := Working)];
        return;
      }
      runs := runs[r := runs[r].(pc := Waiting)];
    }

    // workers.go:137-141: whichever case of the select is ready; `got` says a value was received.
    method Select(r: RunId) returns (got: bool)
      requires At(Snapshot(), r, Waiting)
      requires states[runs[r].state].resume || r in cancelled
      modifies this
      ensures got ==> old(states[runs[r].state].resume) && Snapshot() == Step(old(Snapshot()), Wake(r))
      ensures !got ==> r in old(cancelled) && Snapshot() == Step(old(Snapshot()), Abort(r))
    {
      var w := runs[r].state;
      if
      case states[w].resume =>
        states := states[w := states[w].(resume := false)];
        runs := runs[r := runs[r].(pc := Checking)];
        got := true;
      case r in cancelled =>
        runs := runs[r := runs[r].(pc := Leaving)];
        got := false;
    }

    // workers.go:94-98
    method MarkDone(r: RunId)
      requires At(Snapshot(), r, Leaving)
      modifies this
      ensures Snapshot() == Step(old(Snapshot()), Leave(r))
      ensures r !in runs && old(runs[r].state) in states && states[old(runs[r].state)].done
    {
      var w := runs[r].state;
      states := states[w := states[w].(done := true)];
      runs := runs - {r};
    }

    // workers.go:147-153; the cancel function is called after the lock is released.
    method Forget(a: AccountId)
      requires a in table ==> table[a] in states
      modifies this
      ensures Snapshot() == Step(old(Snapshot()), StopTable(a))
      ensures table == old(table) - {a} && states == old(states) && runs == old(runs)
    {
      if a !in table { return; }
      var st := states[table[a]];
      table := table - {a};
      if st.cancel.Some? { cancelling := cancelling + {st.cancel.value}; }
    }

    // workers.go:168-177
    method Hold(a: AccountId)
      requires a in table ==> table[a] in states
      requires next !in states
      modifies this
      ensures Snapshot() == Step(old(Snapshot()), Pause(a))
      ensures AccountPaused(Snapshot(), a) && runs == old(runs)
    {
      var w := next;
      if a in table { w := table[a]; } else {
        states := states[w := FRESH_STATE];
        table := table[a := w];
      }
      next := next + 1;
      states := states[w := states[w].(paused := true)];
      assert table == table[a := w];
    }

    // workers.go:180-193, first half
    method ClearPaused(a: AccountId) returns (ok: bool)
      requires a in table ==> table[a] in states
      modifies this
      ensures ok == (a in old(table))
      ensures Snapshot() == Step(old(Snapshot()), ResumeFlag(a))
      ensures !AccountPaused(Snapshot(), a) && table == old(table) && runs == old(runs)
    {
      ok := a in table;
      if ok {
        var w := table[a];
        states := states[w := states[w].(paused := false)];
        sending := sending + multiset{w};
      }
    }

    // workers.go:188-191: a send into a channel of one, or nothing when it is full.
    method Signal(w: StateId)
      requires w in sending && w in states
      modifies this
      ensures Snapshot() == Step(old(Snapshot()), ResumeSend(w))
      ensures w in states && states[w].resume && states[w].paused == old(states[w].paused)
    {
      if !states[w].resume { states := states[w := states[w].(resume := true)]; }
      sending := sending - multiset{w};
      assert states == states[w := states[w].(resume := true)];
    }
  }

  // ----- what every interleaving keeps -----

  ghost predicate TableSound(v: View) {
    && (forall a :: a in v.table ==> v.table[a] in v.states)
    && (forall a, b :: a in v.table && b in v.table && v.table[a] == v.table[b] ==> a == b)
    && (forall w :: w in v.states ==> w < v.next)
    && (forall r :: r in v.runs ==> r < v.next)
    && (forall w :: w in v.sending ==> w in v.states)
  }

  // A goroutine is the current one of its workerState: started, not done, and the one its cancel ends.
  ghost predicate RunsCurrent(v: View) {
    forall r :: r in v.runs ==>
      && v.runs[r].state in v.states
      && v.states[v.runs[r].state].cancel == Some(r)
      && v.states[v.runs[r].state].started && !v.states[v.runs[r].state].done
  }

  // Whoever no longer stands in the table has been cancelled, or the Stop that removed it is about to.
  ghost predicate StrayRunsEnd(v: View) {
    forall r :: r in v.runs ==>
      r in v.cancelled || r in v.cancelling || Listed(v, v.runs[r].state)
  }

  ghost predicate Listed(v: View, w: StateId) { exists a :: a in v.table && v.table[a] == w }

  predicate Reachable(v: View, w: StateId) {
    w in v.states && (v.states[w].paused || v.states[w].resume || w in v.sending)
  }

  // A blocked goroutine is paused, has a value waiting, or is about to be sent one.
  ghost predicate WaitersReachable(v: View) {
    forall r :: r in v.runs && v.runs[r].pc == Waiting ==> Reachable(v, v.runs[r].state)
  }

  ghost predicate Inv(v: View) { TableSound(v) && RunsCurrent(v) && StrayRunsEnd(v) && WaitersReachable(v) }

  // The goroutines of u are goroutines of v, and nobody left the table or was un-cancelled.
  lemma StraysStay(v: View, u: View)
    requires StrayRunsEnd(v) && v.cancelled + v.cancelling <= u.cancelled + u.cancelling
    requires forall a :: a in v.table ==> a in u.table && u.table[a] == v.table[a]
    requires forall r :: r in u.runs ==> r in v.runs && u.runs[r].state == v.runs[r].state
    ensures StrayRunsEnd(u)
  {
    forall r | r in u.runs ensures r in u.cancelled || r in u.cancelling || Listed(u, u.runs[r].state) {
      assert r in v.cancelled + v.cancelling ==> r in u.cancelled + u.cancelling;
      if Listed(v, v.runs[r].state) {
        var a :| a in v.table && v.table[a] == v.runs[r].state;
        assert a in u.table && u.table[a] == u.runs[r].state;
      }
    }
  }

  // Whoever waits in u waited in v, and is reachable still.
  lemma WaitersStay(v: View, u: View)
    requires WaitersReachable(v)
    requires forall r :: r in u.runs && u.runs[r].pc == Waiting ==> r in v.runs && v.runs[r] == u.runs[r]
    requires forall r :: r in u.runs && u.runs[r].pc == Waiting && Reachable(v, u.runs[r].state) ==>
               Reachable(u, u.runs[r].state)
    ensures WaitersReachable(u)
  {}

  lemma StartTable(v: View, a: AccountId)
    requires TableSound(v)
    ensures TableSound(StartStep(v, a))
  {}

  lemma StartStrays(v: View, a: AccountId)
    requires TableSound(v) && StrayRunsEnd(v)
    ensures StrayRunsEnd(StartStep(v, a))
  {
    var u := StartStep(v, a);
    StraysStay(v, u.(runs := v.runs));
    forall r | r in u.runs ensures r in u.cancelled || r in u.cancelling || Listed(u, u.runs[r].state) {
      if r in v.runs {
        assert Listed(u.(runs := v.runs), v.runs[r].state) ==> Listed(u, v.runs[r].state);
      } else {
        assert a in u.table && u.table[a] == u.runs[r].state;
      }
    }
  }

  lemma StartKeeps(v: View, a: AccountId)
    requires Inv(v)
    ensures Inv(StartStep(v, a))
  {
    StartTable(v, a);
    StartStrays(v, a);
    WaitersStay(v, StartStep(v, a));
  }

  // A goroutine that moves on to wait has just read `paused`.
  lemma MoveKeeps(v: View, r: RunId, pc: Pc)
    requires Inv(v) && r in v.runs && (pc == Waiting ==> v.states[v.runs[r].state].paused)
    ensures Inv(Goto(v, r, pc))
  {
    var u := Goto(v, r, pc);
    StraysStay(v, u);
    forall q | q in u.runs && u.runs[q].pc == Waiting ensures Reachable(u, u.runs[q].state) {
      assert q == r || Reachable(v, v.runs[q].state);
    }
  }

  lemma WakeKeeps(v: View, r: RunId)
    requires Inv(v)
    ensures Inv(WakeStep(v, r))
  {
    StraysStay(v, WakeStep(v, r));
    WaitersStay(v, WakeStep(v, r));
  }

  lemma LeaveKeeps(v: View, r: RunId)
    requires Inv(v)
    ensures Inv(LeaveStep(v, r))
  {
    StraysStay(v, LeaveStep(v, r));
    WaitersStay(v, LeaveStep(v, r));
  }

  lemma StopTableKeeps(v: View, a: AccountId)
    requires Inv(v)
    ensures Inv(StopTableStep(v, a))
  {
    var u := StopTableStep(v, a);
    forall r | r in u.runs ensures r in u.cancelled || r in u.cancelling || Listed(u, u.runs[r].state) {
      if Listed(v, v.runs[r].state) {
        var b :| b in v.table && v.table[b] == v.runs[r].state;
        assert b == a || (b in u.table && u.table[b] == u.runs[r].state);
      }
    }
    WaitersStay(v, u);
  }

  lemma StopCancelKeeps(v: View, r: RunId)
    requires Inv(v)
    ensures Inv(Step(v, StopCancel(r)))
  {
    StraysStay(v, Step(v, StopCancel(r)));
    WaitersStay(v, Step(v, StopCancel(r)));
  }

  lemma PauseKeeps(v: View, a: AccountId)
    requires Inv(v)
    ensures Inv(PauseStep(v, a))
  {
    StraysStay(v, PauseStep(v, a));
    WaitersStay(v, PauseStep(v, a));
  }

  lemma ResumeFlagKeeps(v: View, a: AccountId)
    requires Inv(v)
    ensures Inv(ResumeFlagStep(v, a))
  {
    StraysStay(v, ResumeFlagStep(v, a));
    WaitersStay(v, ResumeFlagStep(v, a));
  }

  lemma ResumeSendKeeps(v: View, w: StateId)
    requires Inv(v)
    ensures Inv(ResumeSendStep(v, w))
  {
    StraysStay(v, ResumeSendStep(v, w));
    WaitersStay(v, ResumeSendStep(v, w));
  }

  lemma StepKeeps(v: View, action: Action)
    requires Inv(v)
    ensures Inv(Step(v, action))
  {
    match action
    case Start(a) => StartKeeps(v, a);
    case Check(r) =>
      if At(v, r, Checking) { MoveKeeps(v, r, if v.states[v.runs[r].state].paused then Waiting else Working); }
    case Wake(r) => WakeKeeps(v, r);
    case Abort(r) => if r in v.runs { MoveKeeps(v, r, Leaving); }
    case Finish(r) => if r in v.runs { MoveKeeps(v, r, Leaving); }
    case Leave(r) => LeaveKeeps(v, r);
    case StopTable(a) => StopTableKeeps(v, a);
    case StopCancel(r) => StopCancelKeeps(v, r);
    case Pause(a) => PauseKeeps(v, a);
    case ResumeFlag(a) => ResumeFlagKeeps(v, a);
    case ResumeSend(w) => ResumeSendKeeps(v, w);
  }

  lemma {:induction false} RunKeeps(v: View, actions: seq<Action>)
    requires Inv(v)
    ensures Inv(RunAll(v, actions))
    decreases actions
  {
    if actions != [] {
      StepKeeps(v, actions[0]);
      RunKeeps(Step(v, actions[0]), actions[1..]);
    }
  }

  lemma ReachedInv(actions: seq<Action>)
    ensures Inv(Reached(actions))
  {
    RunKeeps(Nothing(), actions);
  }

  // No reachable state has a goroutine blocked with `paused` false, the channel empty and no Resume
  // between its two halves.
  lemma NoLostWakeUp(actions: seq<Action>, r: RunId)
    requires r in Reached(actions).runs && Reached(actions).runs[r].pc == Waiting
    ensures var v := Reached(actions);
      var w := v.runs[r].state;
      w in v.states && (v.states[w].paused || v.states[w].resume || w in v.sending)
  {
    ReachedInv(actions);
  }

  // Once every Resume has finished and the account is not paused, a blocked goroutine needs nobody's
  // help: its next two steps take it into the walk.
  lemma ResumedRunProceeds(actions: seq<Action>, r: RunId)
    requires var v := Reached(actions);
      && r in v.runs && v.runs[r].pc == Waiting && v.runs[r].state in v.states
      && !v.states[v.runs[r].state].paused && v.runs[r].state !in v.sending
    ensures var u := Step(Step(Reached(actions), Wake(r)), Check(r));
      r in u.runs && u.runs[r].pc == Working
  {
    ReachedInv(actions);
    assert Reachable(Reached(actions), Reached(actions).runs[r].state);
  }

  // A blocked goroutine stays so but for two things: a value it receives, and its own cancellation.
  lemma OnlyAValueOrACancelWakes(v: View, action: Action, r: RunId)
    requires TableSound(v) && r in v.runs && v.runs[r].pc == Waiting
    ensures var u := Step(v, action);
      && r in u.runs && u.runs[r].state == v.runs[r].state
      && (|| u.runs[r].pc == Waiting
          || (action == Wake(r) && u.runs[r].pc == Checking && v.runs[r].state in v.states
              && v.states[v.runs[r].state].resume)
          || (action == Abort(r) && u.runs[r].pc == Leaving && r in v.cancelled))
  {}

  // Once the cancellation of a stop has gone through, a blocked goroutine is gone after two steps of its
  // own, and a walking one after the last of its walk and one more.
  lemma StoppedRunEnds(actions: seq<Action>, r: RunId)
    requires var v := Reached(actions);
      r in v.runs && r in v.cancelling && (v.runs[r].pc == Waiting || v.runs[r].pc == Working)
    ensures var v := Reached(actions);
      var u := Step(v, StopCancel(r));
      var t := Step(Step(u, if v.runs[r].pc == Waiting then Abort(r) else Finish(r)), Leave(r));
      r in u.cancelled && r !in u.cancelling && r !in t.runs
      && v.runs[r].state in t.states && t.states[v.runs[r].state].done
  {
    ReachedInv(actions);
    StoppedRunEndsFrom(Reached(actions), r);
  }

  lemma StoppedRunEndsFrom(v: View, r: RunId)
    requires RunsCurrent(v) && r in v.runs && r in v.cancelling
    requires v.runs[r].pc == Waiting || v.runs[r].pc == Working
    ensures var u := Step(v, StopCancel(r));
      var t := Step(Step(u, if v.runs[r].pc == Waiting then Abort(r) else Finish(r)), Leave(r));
      r in u.cancelled && r !in u.cancelling && r !in t.runs
      && v.runs[r].state in t.states && t.states[v.runs[r].state].done
  {
    var u := Step(v, StopCancel(r));
    var w := Step(u, if v.runs[r].pc == Waiting then Abort(r) else Finish(r));
    assert w == Goto(u, r, Leaving);
  }

  // A workerState has at most one goroutine, and an account at most one that nobody is stopping.
  lemma OneRunEach(actions: seq<Action>, r: RunId, q: RunId)
    requires r in Reached(actions).runs && q in Reached(actions).runs && r != q
    ensures var v := Reached(actions);
      && v.runs[r].state != v.runs[q].state
      && (r !in v.cancelled && r !in v.cancelling && q !in v.cancelled && q !in v.cancelling ==>
            exists a, b :: a in v.table && b in v.table && a != b
              && v.table[a] == v.runs[r].state && v.table[b] == v.runs[q].state)
  {
    ReachedInv(actions);
    var v := Reached(actions);
    assert v.states[v.runs[r].state].cancel == Some(r) && v.states[v.runs[q].state].cancel == Some(q);
    if r !in v.cancelled && r !in v.cancelling && q !in v.cancelled && q !in v.cancelling {
      assert Listed(v, v.runs[r].state) && Listed(v, v.runs[q].state);
      var a :| a in v.table && v.table[a] == v.runs[r].state;
      var b :| b in v.table && v.table[b] == v.runs[q].state;
      assert a != b;
    }
  }

  lemma StoppedRunsAreEnding(actions: seq<Action>, r: RunId)
    requires r in Reached(actions).runs
    requires forall a :: a in Reached(actions).table ==> Reached(actions).table[a] != Reached(actions).runs[r].state
    ensures r in Reached(actions).cancelled || r in Reached(actions).cancelling
  {
    ReachedInv(actions);
  }

  // ----- when a pause is honoured -----

  predicate AccountPaused(v: View, a: AccountId) {
    a in v.table && v.table[a] in v.states && v.states[v.table[a]].paused
  }

  // Of an account's own Pause, Resume and Stop calls the last was a Pause.
  function PauseStands(stands: bool, a: AccountId, actions: seq<Action>): bool
    decreases actions
  {
    if actions == [] then stands
    else
      PauseStands(
        match actions[0]
        case Pause(b) => b == a || stands
        case ResumeFlag(b) => b != a && stands
        case StopTable(b) => b != a && stands
        case _ => stands,
        a, actions[1..])
  }

  // Only four kinds of step touch the table or any `paused` flag.
  predicate Calls(action: Action) { action.Start? || action.StopTable? || action.Pause? || action.ResumeFlag? }

  lemma QuietStep(v: View, action: Action, w: StateId)
    requires !Calls(action)
    ensures var u := Step(v, action);
      && u.table == v.table && (w in u.states <==> w in v.states)
      && (w in v.states ==> u.states[w].paused == v.states[w].paused)
  {}

  // What the calls of any account do to one workerState and to its place in the table.
  lemma CallStep(v: View, action: Action, w: StateId)
    requires TableSound(v) && Calls(action) && w in v.states
    ensures var u := Step(v, action);
      && w in u.states
      && (Detached(v, w) ==> Detached(u, w) && u.states[w].paused == v.states[w].paused)
  {}

  lemma CallOfAnother(v: View, action: Action, a: AccountId, b: AccountId)
    requires TableSound(v) && a != b
    requires action == Start(b) || action == StopTable(b) || action == Pause(b) || action == ResumeFlag(b)
    ensures var u := Step(v, action);
      && (a in u.table <==> a in v.table)
      && (a in v.table ==>
            && u.table[a] == v.table[a] && u.table[a] in u.states
            && u.states[u.table[a]].paused == v.states[v.table[a]].paused)
  {}

  // What an account's own calls do to it.
  lemma OwnCall(v: View, a: AccountId)
    requires TableSound(v)
    ensures AccountPaused(Step(v, Start(a)), a) == AccountPaused(v, a)
    ensures AccountPaused(Step(v, Pause(a)), a)
    ensures !AccountPaused(Step(v, ResumeFlag(a)), a)
    ensures !AccountPaused(Step(v, StopTable(a)), a)
    ensures a in v.table ==>
      forall action :: action in [Start(a), Pause(a), ResumeFlag(a)] ==>
        var u := Step(v, action);
        a in u.table && u.table[a] == v.table[a] && u.table[a] in u.states
  {}

  function Caller(action: Action): AccountId
    requires Calls(action)
  {
    match action
    case Start(b) => b
    case StopTable(b) => b
    case Pause(b) => b
    case ResumeFlag(b) => b
  }

  lemma StepPauses(v: View, a: AccountId, action: Action)
    requires TableSound(v)
    ensures AccountPaused(Step(v, action), a) == PauseStands(AccountPaused(v, a), a, [action])
  {
    assert [action][1..] == [];
    if !Calls(action) {
      if a in v.table { QuietStep(v, action, v.table[a]); } else { QuietStep(v, action, 0); }
    } else if Caller(action) == a {
      OwnCall(v, a);
    } else {
      CallOfAnother(v, action, a, Caller(action));
    }
  }

  lemma StandsOnce(stands: bool, a: AccountId, actions: seq<Action>)
    requires actions != []
    ensures PauseStands(stands, a, actions) == PauseStands(PauseStands(stands, a, [actions[0]]), a, actions[1..])
  {
    assert [actions[0]][1..] == [];
  }

  // Whether an account is paused is decided by its own calls alone, whatever else runs.
  lemma {:induction false} PausedIffItsLastCallWasAPause(v: View, a: AccountId, actions: seq<Action>)
    requires Inv(v)
    ensures AccountPaused(RunAll(v, actions), a) <==> PauseStands(AccountPaused(v, a), a, actions)
    decreases actions
  {
    if actions != [] {
      StepPauses(v, a, actions[0]);
      StepKeeps(v, actions[0]);
      StandsOnce(AccountPaused(v, a), a, actions);
      PausedIffItsLastCallWasAPause(Step(v, actions[0]), a, actions[1..]);
    }
  }

  ghost predicate WalkedBefore(v: View, u: View, w: StateId) {
    forall r :: r in u.runs && u.runs[r].state == w && u.runs[r].pc == Working ==>
      r in v.runs && v.runs[r].state == w && v.runs[r].pc == Working
  }

  predicate Holds(v: View, a: AccountId, w: StateId) {
    a in v.table && v.table[a] == w && w in v.states && v.states[w].paused
  }

  // Only a check that reads `paused` as false lets a goroutine walk.
  lemma OnlyACheckWalks(v: View, action: Action, r: RunId)
    requires var u := Step(v, action); r in u.runs && u.runs[r].pc == Working
    ensures r in v.runs && v.runs[r].state == Step(v, action).runs[r].state
    ensures v.runs[r].pc == Working || (v.runs[r].state in v.states && !v.states[v.runs[r].state].paused)
  {}

  lemma PauseHoldsOnce(v: View, a: AccountId, w: StateId, action: Action)
    requires TableSound(v) && Holds(v, a, w) && action != StopTable(a) && action != ResumeFlag(a)
    ensures Holds(Step(v, action), a, w) && WalkedBefore(v, Step(v, action), w)
  {
    var u := Step(v, action);
    forall r | r in u.runs && u.runs[r].state == w && u.runs[r].pc == Working
      ensures r in v.runs && v.runs[r].state == w && v.runs[r].pc == Working
    {
      OnlyACheckWalks(v, action, r);
    }
    Attached(v, a, action);
    StepPauses(v, a, action);
    assert [action][1..] == [];
  }

  // An account keeps its workerState until it is stopped.
  lemma Attached(v: View, a: AccountId, action: Action)
    requires TableSound(v) && a in v.table && action != StopTable(a)
    ensures var u := Step(v, action);
      a in u.table && u.table[a] == v.table[a] && u.table[a] in u.states
  {
    if !Calls(action) {
      QuietStep(v, action, v.table[a]);
    } else if Caller(action) == a {
      OwnCall(v, a);
      assert action in [Start(a), Pause(a), ResumeFlag(a)];
    } else {
      CallOfAnother(v, action, a, Caller(action));
    }
  }

  // While neither a Stop nor a Resume of the account comes, a paused account stays paused, with the
  // same state, and no goroutine of it begins to walk.
  lemma {:induction false} PauseHolds(v: View, a: AccountId, w: StateId, actions: seq<Action>)
    requires Inv(v) && Holds(v, a, w) && StopTable(a) !in actions && ResumeFlag(a) !in actions
    ensures Holds(RunAll(v, actions), a, w) && WalkedBefore(v, RunAll(v, actions), w)
    decreases actions
  {
    if actions != [] {
      PauseHoldsOnce(v, a, w, actions[0]);
      StepKeeps(v, actions[0]);
      PauseHolds(Step(v, actions[0]), a, w, actions[1..]);
    }
  }

  // What a goroutine started for the account will read: its state hears the account's Pause and
  // Resume until a Stop takes it out of the table, and nothing after that.
  function Reads(paused: bool, a: AccountId, actions: seq<Action>): bool
    decreases actions
  {
    if actions == [] then paused
    else
      match actions[0]
      case StopTable(b) => if b == a then paused else Reads(paused, a, actions[1..])
      case Pause(b) => Reads(b == a || paused, a, actions[1..])
      case ResumeFlag(b) => Reads(b != a && paused, a, actions[1..])
      case _ => Reads(paused, a, actions[1..])
  }

  // A goroutine that has not checked yet.
  predicate Unchecked(v: View, r: RunId, w: StateId) { r in v.runs && v.runs[r] == Run(w, Checking) && w in v.states }

  ghost predicate Detached(v: View, w: StateId) { forall b :: b in v.table ==> v.table[b] != w }

  lemma UncheckedOnce(v: View, r: RunId, w: StateId, action: Action)
    requires TableSound(v) && Unchecked(v, r, w) && action != Check(r)
    ensures Unchecked(Step(v, action), r, w)
  {
    if Calls(action) { CallStep(v, action, w); } else { QuietStep(v, action, w); }
  }

  lemma DetachedOnce(v: View, w: StateId, action: Action)
    requires TableSound(v) && w in v.states && Detached(v, w)
    ensures var u := Step(v, action);
      w in u.states && Detached(u, w) && u.states[w].paused == v.states[w].paused
  {
    if Calls(action) { CallStep(v, action, w); } else { QuietStep(v, action, w); }
  }

  lemma {:induction false} DetachedStays(v: View, r: RunId, w: StateId, actions: seq<Action>)
    requires Inv(v) && Unchecked(v, r, w) && Detached(v, w) && Check(r) !in actions
    ensures var u := RunAll(v, actions);
      Unchecked(u, r, w) && u.states[w].paused == v.states[w].paused
    decreases actions
  {
    if actions != [] {
      UncheckedOnce(v, r, w, actions[0]);
      DetachedOnce(v, w, actions[0]);
      StepKeeps(v, actions[0]);
      DetachedStays(Step(v, actions[0]), r, w, actions[1..]);
    }
  }

  lemma ReadsOnce(paused: bool, a: AccountId, actions: seq<Action>)
    requires actions != [] && actions[0] != StopTable(a)
    ensures Reads(paused, a, actions) == Reads(PauseStands(paused, a, [actions[0]]), a, actions[1..])
  {
    assert [actions[0]][1..] == [];
  }

  lemma {:induction false} ReadsWhatItHeard(v: View, a: AccountId, r: RunId, w: StateId, actions: seq<Action>)
    requires Inv(v) && Unchecked(v, r, w) && a in v.table && v.table[a] == w && Check(r) !in actions
    ensures var u := RunAll(v, actions);
      Unchecked(u, r, w) && u.states[w].paused == Reads(v.states[w].paused, a, actions)
    decreases actions
  {
    if actions != [] {
      var u := Step(v, actions[0]);
      UncheckedOnce(v, r, w, actions[0]);
      StepKeeps(v, actions[0]);
      if actions[0] == StopTable(a) {
        DetachedStays(u, r, w, actions[1..]);
      } else {
        Attached(v, a, actions[0]);
        StepPauses(v, a, actions[0]);
        ReadsOnce(v.states[w].paused, a, actions);
        ReadsWhatItHeard(u, a, r, w, actions[1..]);
      }
    }
  }

  // The first check of the goroutine a Start makes, however late it comes, waits exactly when the
  // account was paused at the Start and no Resume, or a Pause after it, was heard before the check.
  lemma FirstCheckWaitsIff(before: seq<Action>, a: AccountId, after: seq<Action>)
    requires !Busy(Reached(before), a) && Check(Reached(before).next + 1) !in after
    ensures var r := Reached(before).next + 1;
      var u := Step(RunAll(Step(Reached(before), Start(a)), after), Check(r));
      r in u.runs && u.runs[r].pc == if Reads(PauseStands(false, a, before), a, after) then Waiting else Working
  {
    ReachedInv(before);
    PausedIffItsLastCallWasAPause(Nothing(), a, before);
    FirstCheck(Reached(before), a, after);
  }

  lemma FirstCheck(v: View, a: AccountId, after: seq<Action>)
    requires Inv(v) && !Busy(v, a) && Check(v.next + 1) !in after
    ensures var u := Step(RunAll(Step(v, Start(a)), after), Check(v.next + 1));
      && v.next + 1 in u.runs
      && u.runs[v.next + 1].pc == if Reads(AccountPaused(v, a), a, after) then Waiting else Working
  {
    var r, w := v.next + 1, StateOf(v, a);
    var t := Step(v, Start(a));
    StepKeeps(v, Start(a));
    ReadsWhatItHeard(t, a, r, w, after);
  }

  // So a pause of an account is honoured by the next goroutine exactly when neither a Stop nor a
  // Resume of it came in between.
  lemma PauseIsHonouredIff(before: seq<Action>, a: AccountId, since: seq<Action>)
    requires Pause(a) !in since && !Busy(RunAll(Step(Reached(before), Pause(a)), since), a)
    ensures var v := RunAll(Step(Reached(before), Pause(a)), since);
      FirstMove(v, a, Waiting) <==> StopTable(a) !in since && ResumeFlag(a) !in since
    ensures var v := RunAll(Step(Reached(before), Pause(a)), since);
      FirstMove(v, a, Working) <==> StopTable(a) in since || ResumeFlag(a) in since
  {
    PausedSinceIff(before, a, since);
    HonoursItsPause(RunAll(Step(Reached(before), Pause(a)), since), a);
  }

  // A goroutine started now and checking at once goes on to this.
  predicate FirstMove(v: View, a: AccountId, pc: Pc) {
    var u := Step(Step(v, Start(a)), Check(v.next + 1));
    v.next + 1 in u.runs && u.runs[v.next + 1].pc == pc
  }

  lemma HonoursItsPause(v: View, a: AccountId)
    requires Inv(v) && !Busy(v, a)
    ensures FirstMove(v, a, Waiting) <==> AccountPaused(v, a)
    ensures FirstMove(v, a, Working) <==> !AccountPaused(v, a)
  {
    FirstCheckAtOnce(v, a);
  }

  lemma FirstCheckAtOnce(v: View, a: AccountId)
    requires Inv(v) && !Busy(v, a)
    ensures var u := Step(Step(v, Start(a)), Check(v.next + 1));
      v.next + 1 in u.runs && u.runs[v.next + 1].pc == if AccountPaused(v, a) then Waiting else Working
  {
    FirstCheck(v, a, []);
  }

  lemma PausedSinceIff(before: seq<Action>, a: AccountId, since: seq<Action>)
    requires Pause(a) !in since
    ensures var v := RunAll(Step(Reached(before), Pause(a)), since);
      Inv(v) && (AccountPaused(v, a) <==> StopTable(a) !in since && ResumeFlag(a) !in since)
  {
    ReachedInv(before);
    var s := Step(Reached(before), Pause(a));
    StepKeeps(Reached(before), Pause(a));
    OwnCall(Reached(before), a);
    PausedIffItsLastCallWasAPause(s, a, since);
    StandsIff(true, a, since);
    RunKeeps(s, since);
  }

  lemma {:induction false} StandsIff(stands: bool, a: AccountId, actions: seq<Action>)
    requires Pause(a) !in actions
    ensures PauseStands(stands, a, actions) <==> stands && StopTable(a) !in actions && ResumeFlag(a) !in actions
    decreases actions
  {
    if actions != [] {
      var next := PauseStands(stands, a, [actions[0]]);
      StandsOnce(stands, a, actions);
      assert [actions[0]][1..] == [];
      StandsIff(next, a, actions[1..]);
    }
  }

  // Both ways it can go: a pause that came before the first Start is kept for it, and one that a Stop
  // came after is forgotten, although nothing has resumed the account.
  lemma PauseAwaitsTheStart(a: AccountId)
    ensures var v := Reached([Pause(a)] + ([Start(a)] + [Check(2)]));
      2 in v.runs && v.runs[2] == Run(0, Waiting)
  {
    var p := Step(Nothing(), Pause(a));
    ThenOne(Nothing(), Pause(a), [Start(a)] + [Check(2)]);
    ThenOne(p, Start(a), [Check(2)]);
    ThenOne(Step(p, Start(a)), Check(2), []);
  }

  lemma StopForgetsAPause(a: AccountId)
    ensures var v := Reached([Pause(a)] + ([StopTable(a)] + ([Start(a)] + [Check(2)])));
      2 in v.runs && v.runs[2] == Run(1, Working)
  {
    var p := Step(Nothing(), Pause(a));
    var q := Step(p, StopTable(a));
    ThenOne(Nothing(), Pause(a), [StopTable(a)] + ([Start(a)] + [Check(2)]));
    ThenOne(p, StopTable(a), [Start(a)] + [Check(2)]);
    ThenOne(q, Start(a), [Check(2)]);
    ThenOne(Step(q, Start(a)), Check(2), []);
    assert q.next == 1 && a !in q.table && 1 !in q.states;
  }

  lemma ThenOne(v: View, action: Action, rest: seq<Action>)
    ensures RunAll(v, [action] + rest) == RunAll(Step(v, action), rest)
  {
    assert ([action] + rest)[1..] == rest;
  }
}
