// internal/accounts/supervisor.go (transition, announce) and internal/api/events.go (stream): a client
// that subscribes, then takes a snapshot, then applies changes, against the accounts table.
module FeedAgreement {
  import opened Wrappers
  import opened Feed

  datatype Status = Status(state: string, reason: string)

  // Where one writer of one account is: it has read the row, it has written it, or publish has
  // collected the subscribers and is sending to those left.
  datatype Writer =
    | Read(account: Id, from: Option<Status>, to: Status)
    | Written(account: Id, ev: StateChange)
    | Sending(account: Id, ev: StateChange, left: set<nat>)

  // `complete` says the snapshot read the whole table: a failed read streams on without one.
  datatype Client = Client(reader: Reader, streaming: bool, complete: bool, view: map<Id, Status>)

  datatype Sys = Sys(table: map<Id, Status>, writers: map<nat, Writer>, clients: map<nat, Client>, next: nat)

  datatype Action =
    | Begin(w: nat, account: Id, to: Status)
    | Write(w: nat)
    | Upsert(w: nat, account: Id, to: Status)
    | Delete(account: Id)
    | Collect(w: nat)
    | Deliver(w: nat, c: nat)
    | Finish(w: nat)
    | Subscribe(follow: Id)
    | Snapshot(c: nat, ok: bool)
    | Apply(c: nat)
    | Close(c: nat)

  function StatusOf(ev: StateChange): Status { Status(ev.to, ev.reason) }

  function StateOf(row: Option<Status>): string { if row.Some? then row.value.state else "" }

  function Announcement(account: Id, from: Option<Status>, to: Status): StateChange {
    StateChange(account, StateOf(from), to.state, to.reason)
  }

  function Lookup(table: map<Id, Status>, account: Id): Option<Status> {
    if account in table then Some(table[account]) else None
  }

  predicate InScope(follow: Id, account: Id) { follow == "" || follow == account }

  function BeginStep(s: Sys, w: nat, account: Id, to: Status): Sys {
    if w in s.writers then s else s.(writers := s.writers[w := Read(account, Lookup(s.table, account), to)])
  }

  // supervisor.go:847-855: no row, no change; the same state and reason, no event.
  function WriteStep(s: Sys, w: nat): Sys {
    if w !in s.writers || !s.writers[w].Read? then s
    else
      var p := s.writers[w];
      if p.account !in s.table then s.(writers := s.writers - {w})
      else
        var t := s.(table := s.table[p.account := p.to]);
        if p.from == Some(p.to) then t.(writers := s.writers - {w})
        else t.(writers := s.writers[w := Written(p.account, Announcement(p.account, p.from, p.to))])
  }

  // supervisor.go:222-227 and 308-316: pairing writes the row and always announces.
  function UpsertStep(s: Sys, w: nat, account: Id, to: Status): Sys {
    if w in s.writers then s
    else s.(table := s.table[account := to],
            writers := s.writers[w := Written(account, Announcement(account, Lookup(s.table, account), to))])
  }

  function CollectStep(s: Sys, w: nat): Sys {
    if w !in s.writers || !s.writers[w].Written? then s
    else
      var ev := s.writers[w].ev;
      var left := set c | c in s.clients && Follows(s.clients[c].reader.account, ev);
      s.(writers := s.writers[w := Sending(s.writers[w].account, ev, left)])
  }

  // A subscription closed meanwhile is skipped.
  function DeliverStep(s: Sys, w: nat, c: nat): Sys {
    if w !in s.writers || !s.writers[w].Sending? || c !in s.writers[w].left then s
    else
      var p := s.writers[w];
      var t := s.(writers := s.writers[w := p.(left := p.left - {c})]);
      if c !in s.clients then t
      else t.(clients := s.clients[c := s.clients[c].(reader := Offer(s.clients[c].reader, p.ev))])
  }

  function FinishStep(s: Sys, w: nat): Sys {
    if w in s.writers && s.writers[w].Sending? && s.writers[w].left == {} then s.(writers := s.writers - {w}) else s
  }

  function SubscribeStep(s: Sys, follow: Id): Sys {
    s.(next := s.next + 1, clients := s.clients[s.next := Client(Reader(follow, [], 0), false, false, map[])])
  }

  function SnapshotStep(s: Sys, c: nat, ok: bool): Sys {
    if c !in s.clients || s.clients[c].streaming then s
    else
      var seen := if ok then map a | a in s.table && InScope(s.clients[c].reader.account, a) :: s.table[a] else map[];
      s.(clients := s.clients[c := s.clients[c].(streaming := true, complete := ok, view := seen)])
  }

  function Applied(client: Client): Client
    requires client.reader.buffer != []
  {
    var ev := client.reader.buffer[0];
    client.(reader := client.reader.(buffer := client.reader.buffer[1..]),
            view := client.view[ev.account := StatusOf(ev)])
  }

  function ApplyStep(s: Sys, c: nat): Sys {
    if c !in s.clients || !s.clients[c].streaming || s.clients[c].reader.buffer == [] then s
    else s.(clients := s.clients[c := Applied(s.clients[c])])
  }

  function Step(s: Sys, action: Action): Sys {
    match action
    case Begin(w, account, to) => BeginStep(s, w, account, to)
    case Write(w) => WriteStep(s, w)
    case Upsert(w, account, to) => UpsertStep(s, w, account, to)
    case Delete(account) => s.(table := s.table - {account})
    case Collect(w) => CollectStep(s, w)
    case Deliver(w, c) => DeliverStep(s, w, c)
    case Finish(w) => FinishStep(s, w)
    case Subscribe(follow) => SubscribeStep(s, follow)
    case Snapshot(c, ok) => SnapshotStep(s, c, ok)
    case Apply(c) => ApplyStep(s, c)
    case Close(c) => s.(clients := s.clients - {c})
  }

  function Run(s: Sys, actions: seq<Action>): Sys
    decreases actions
  {
    if actions == [] then s else Run(Step(s, actions[0]), actions[1..])
  }

  function Init(table: map<Id, Status>): Sys { Sys(table, map[], map[], 0) }

  // Nobody is in the middle of writing the account.
  ghost predicate Idle(s: Sys, account: Id) { forall w :: w in s.writers ==> s.writers[w].account != account }

  // The run has one writer per account: a write starts only when no other is under way.
  ghost predicate OneWriter(s: Sys, actions: seq<Action>)
    decreases actions
  {
    actions != [] ==>
      && (actions[0].Begin? || actions[0].Upsert? || actions[0].Delete? ==> Idle(s, actions[0].account))
      && OneWriter(Step(s, actions[0]), actions[1..])
  }

  // ----- the invariant -----

  ghost predicate WriterTrue(s: Sys, w: nat)
    requires w in s.writers
  {
    match s.writers[w]
    case Read(account, from, to) => from == Lookup(s.table, account)
    case Written(account, ev) => ev.account == account && Lookup(s.table, account) == Some(StatusOf(ev))
    case Sending(account, ev, left) =>
      && ev.account == account && Lookup(s.table, account) == Some(StatusOf(ev))
      && forall c :: c in left ==> c < s.next && (c in s.clients ==> Follows(s.clients[c].reader.account, ev))
  }

  ghost predicate WritersTrue(s: Sys) {
    && (forall w :: w in s.writers ==> WriterTrue(s, w))
    && (forall w, v :: w in s.writers && v in s.writers && s.writers[w].account == s.writers[v].account ==> w == v)
    && (forall c :: c in s.clients ==> c < s.next)
  }

  // The last change to an account that is waiting in a channel.
  function Last(buffer: seq<StateChange>, account: Id): Option<Status> {
    if buffer == [] then None
    else if buffer[|buffer| - 1].account == account then Some(StatusOf(buffer[|buffer| - 1]))
    else Last(buffer[..|buffer| - 1], account)
  }

  // A writer still has the account's newest status to offer this client.
  ghost predicate Offers(p: Writer, c: nat, account: Id) {
    p.account == account && (p.Written? || (p.Sending? && c in p.left))
  }

  ghost predicate Owed(s: Sys, c: nat, account: Id) {
    exists w :: w in s.writers && Offers(s.writers[w], c, account)
  }

  ghost predicate Settled(client: Client, account: Id, status: Status) {
    match Last(client.reader.buffer, account)
    case Some(waiting) => waiting == status
    case None => client.complete ==> account in client.view && client.view[account] == status
  }

  ghost predicate Current(s: Sys, c: nat, account: Id)
    requires c in s.clients && account in s.table
  {
    s.clients[c].reader.dropped == 0 && InScope(s.clients[c].reader.account, account) ==>
      Owed(s, c, account) || Settled(s.clients[c], account, s.table[account])
  }

  ghost predicate AllCurrent(s: Sys) {
    forall c, a :: c in s.clients && a in s.table ==> Current(s, c, a)
  }

  ghost predicate Inv(s: Sys) { WritersTrue(s) && AllCurrent(s) }

  // A client that did not change is still current while its account's row is the same and nothing it
  // was owed is lost.
  lemma StaysCurrent(s: Sys, t: Sys, c: nat, a: Id)
    requires c in s.clients && a in s.table && Current(s, c, a)
    requires c in t.clients && t.clients[c] == s.clients[c] && a in t.table
    requires t.table[a] == s.table[a] && (Owed(s, c, a) ==> Owed(t, c, a))
    ensures Current(t, c, a)
  {
  }

  lemma OwedBy(s: Sys, w: nat, c: nat, a: Id)
    requires w in s.writers && Offers(s.writers[w], c, a)
    ensures Owed(s, c, a)
  {
  }

  // Replacing or dropping one writer keeps what the others owe.
  lemma OwedByOthers(s: Sys, t: Sys, w: nat, c: nat, a: Id)
    requires Owed(s, c, a) && !(w in s.writers && Offers(s.writers[w], c, a))
    requires forall v :: v in s.writers && v != w ==> v in t.writers && t.writers[v] == s.writers[v]
    ensures Owed(t, c, a)
  {
    var v :| v in s.writers && Offers(s.writers[v], c, a);
    OwedBy(t, v, c, a);
  }

  lemma BeginKeeps(s: Sys, w: nat, account: Id, to: Status)
    requires Inv(s) && Idle(s, account)
    ensures Inv(BeginStep(s, w, account, to))
  {
    var t := BeginStep(s, w, account, to);
    if w !in s.writers {
      forall v | v in t.writers ensures WriterTrue(t, v) { if v != w { assert WriterTrue(s, v); } }
      forall c, a | c in t.clients && a in t.table ensures Current(t, c, a) {
        assert Current(s, c, a);
        if Owed(s, c, a) { OwedByOthers(s, t, w, c, a); }
      }
    }
  }

  // The writer `w` has just written the row of `account`: everybody in scope is owed the change.
  lemma WrittenKeeps(s: Sys, t: Sys, w: nat, account: Id, to: Status)
    requires Inv(s) && (forall v :: v in s.writers && v != w ==> s.writers[v].account != account)
    requires w in s.writers ==> s.writers[w].Read?
    requires t.table == s.table[account := to] && t.clients == s.clients && t.next == s.next
    requires exists ev ::
      t.writers == s.writers[w := Written(account, ev)] && ev.account == account && StatusOf(ev) == to
    ensures Inv(t)
  {
    forall v | v in t.writers ensures WriterTrue(t, v) { if v != w { assert WriterTrue(s, v); } }
    forall c, a | c in t.clients && a in t.table ensures Current(t, c, a) {
      if a == account {
        OwedBy(t, w, c, a);
      } else {
        assert Current(s, c, a);
        if Owed(s, c, a) { OwedByOthers(s, t, w, c, a); }
      }
    }
  }

  lemma DroppedKeeps(s: Sys, t: Sys, w: nat)
    requires Inv(s) && w in s.writers && (s.writers[w].Read? || (s.writers[w].Sending? && s.writers[w].left == {}))
    requires t == s.(writers := s.writers - {w})
    ensures Inv(t)
  {
    forall v | v in t.writers ensures WriterTrue(t, v) { assert WriterTrue(s, v); }
    forall c, a | c in t.clients && a in t.table ensures Current(t, c, a) {
      assert Current(s, c, a);
      if Owed(s, c, a) { OwedByOthers(s, t, w, c, a); }
    }
  }

  lemma WriteKeeps(s: Sys, w: nat)
    requires Inv(s)
    ensures Inv(WriteStep(s, w))
  {
    if w in s.writers && s.writers[w].Read? {
      var p := s.writers[w];
      assert WriterTrue(s, w);
      if p.account !in s.table {
        DroppedKeeps(s, WriteStep(s, w), w);
      } else if p.from == Some(p.to) {
        assert s.table[p.account := p.to] == s.table;
        DroppedKeeps(s, WriteStep(s, w), w);
      } else {
        WrittenKeeps(s, WriteStep(s, w), w, p.account, p.to);
      }
    }
  }

  lemma UpsertKeeps(s: Sys, w: nat, account: Id, to: Status)
    requires Inv(s) && Idle(s, account)
    ensures Inv(UpsertStep(s, w, account, to))
  {
    if w !in s.writers { WrittenKeeps(s, UpsertStep(s, w, account, to), w, account, to); }
  }

  lemma DeleteKeeps(s: Sys, account: Id)
    requires Inv(s) && Idle(s, account)
    ensures Inv(s.(table := s.table - {account}))
  {
    var t := s.(table := s.table - {account});
    forall v | v in t.writers ensures WriterTrue(t, v) { assert WriterTrue(s, v); }
    forall c, a | c in t.clients && a in t.table ensures Current(t, c, a) {
      assert Current(s, c, a);
      StaysCurrent(s, t, c, a);
    }
  }

  lemma CollectKeeps(s: Sys, w: nat)
    requires Inv(s)
    ensures Inv(CollectStep(s, w))
  {
    if w in s.writers && s.writers[w].Written? {
      var t := CollectStep(s, w);
      forall v | v in t.writers ensures WriterTrue(t, v) { assert WriterTrue(s, v); }
      forall c, a | c in t.clients && a in t.table ensures Current(t, c, a) {
        assert Current(s, c, a) && WriterTrue(s, w);
        if InScope(s.clients[c].reader.account, a) && Owed(s, c, a) {
          if Offers(s.writers[w], c, a) { OwedBy(t, w, c, a); } else { OwedByOthers(s, t, w, c, a); }
        }
      }
    }
  }

  // A change put in the channel settles its account and leaves the others as they were.
  lemma OfferSettles(client: Client, ev: StateChange, a: Id, status: Status)
    requires Follows(client.reader.account, ev)
    ensures var after := client.(reader := Offer(client.reader, ev));
      after.reader.dropped == 0 ==>
        && client.reader.dropped == 0
        && (ev.account == a && StatusOf(ev) == status ==> Settled(after, a, status))
        && (ev.account != a && Settled(client, a, status) ==> Settled(after, a, status))
  {
    var buffer := client.reader.buffer + [ev];
    assert buffer[..|buffer| - 1] == client.reader.buffer;
  }

  lemma DeliverKeeps(s: Sys, w: nat, c: nat)
    requires Inv(s)
    ensures Inv(DeliverStep(s, w, c))
  {
    if w in s.writers && s.writers[w].Sending? && c in s.writers[w].left {
      var t := DeliverStep(s, w, c);
      var p := s.writers[w];
      assert WriterTrue(s, w);
      forall v | v in t.writers ensures WriterTrue(t, v) { assert WriterTrue(s, v); }
      forall d, a | d in t.clients && a in t.table ensures Current(t, d, a) {
        assert Current(s, d, a);
        if d == c {
          OfferSettles(s.clients[c], p.ev, a, s.table[a]);
          if Owed(s, c, a) && a != p.account { OwedByOthers(s, t, w, c, a); }
        } else if Owed(s, d, a) {
          if Offers(p, d, a) { OwedBy(t, w, d, a); } else { OwedByOthers(s, t, w, d, a); }
        }
      }
    }
  }

  lemma FinishKeeps(s: Sys, w: nat)
    requires Inv(s)
    ensures Inv(FinishStep(s, w))
  {
    if w in s.writers && s.writers[w].Sending? && s.writers[w].left == {} { DroppedKeeps(s, FinishStep(s, w), w); }
  }

  // One client moved and the writers did not.
  lemma ClientKeeps(s: Sys, t: Sys, c: nat)
    requires Inv(s) && t.table == s.table && t.writers == s.writers && s.next <= t.next
    requires c in t.clients && c < t.next && t.clients == s.clients[c := t.clients[c]]
    requires if c in s.clients then t.clients[c].reader.account == s.clients[c].reader.account else s.next <= c
    requires forall a :: a in t.table && t.clients[c].reader.dropped == 0 && InScope(t.clients[c].reader.account, a) ==>
      || Settled(t.clients[c], a, t.table[a])
      || (c in s.clients && s.clients[c].reader.dropped == 0 && !Settled(s.clients[c], a, s.table[a]))
    ensures Inv(t)
  {
    forall v | v in t.writers ensures WriterTrue(t, v) { assert WriterTrue(s, v); }
    forall d, a | d in t.clients && a in t.table ensures Current(t, d, a) {
      if d in s.clients { assert Current(s, d, a); }
      assert Owed(s, d, a) ==> Owed(t, d, a);
    }
  }

  lemma SubscribeKeeps(s: Sys, follow: Id)
    requires Inv(s)
    ensures Inv(SubscribeStep(s, follow))
  {
    ClientKeeps(s, SubscribeStep(s, follow), s.next);
  }

  lemma SnapshotKeeps(s: Sys, c: nat, ok: bool)
    requires Inv(s)
    ensures Inv(SnapshotStep(s, c, ok))
  {
    if c in s.clients && !s.clients[c].streaming { ClientKeeps(s, SnapshotStep(s, c, ok), c); }
  }

  // Applying the head of the channel: what waits behind it is the same, and if nothing does the view
  // has just been given it.
  lemma {:induction false} LastBehind(buffer: seq<StateChange>, a: Id)
    requires buffer != []
    ensures Last(buffer, a) == if Last(buffer[1..], a).Some? then Last(buffer[1..], a)
                               else if buffer[0].account == a then Some(StatusOf(buffer[0])) else None
  {
    if |buffer| > 1 {
      var n := |buffer| - 1;
      assert buffer[1..][..n - 1] == buffer[..n][1..];
      LastBehind(buffer[..n], a);
    }
  }

  lemma ApplySettles(client: Client, a: Id, status: Status)
    requires client.reader.buffer != [] && Settled(client, a, status)
    ensures Settled(Applied(client), a, status)
  {
    LastBehind(client.reader.buffer, a);
  }

  lemma ApplyKeeps(s: Sys, c: nat)
    requires Inv(s)
    ensures Inv(ApplyStep(s, c))
  {
    if c in s.clients && s.clients[c].streaming && s.clients[c].reader.buffer != [] {
      forall a | a in s.table && Settled(s.clients[c], a, s.table[a])
        ensures Settled(Applied(s.clients[c]), a, s.table[a])
      {
        ApplySettles(s.clients[c], a, s.table[a]);
      }
      ClientKeeps(s, ApplyStep(s, c), c);
    }
  }

  lemma CloseKeeps(s: Sys, c: nat)
    requires Inv(s)
    ensures Inv(s.(clients := s.clients - {c}))
  {
    var t := s.(clients := s.clients - {c});
    forall v | v in t.writers ensures WriterTrue(t, v) { assert WriterTrue(s, v); }
    forall d, a | d in t.clients && a in t.table ensures Current(t, d, a) {
      assert Current(s, d, a);
      StaysCurrent(s, t, d, a);
    }
  }

  lemma StepKeeps(s: Sys, action: Action)
    requires Inv(s)
    requires action.Begin? || action.Upsert? || action.Delete? ==> Idle(s, action.account)
    ensures Inv(Step(s, action))
  {
    match action
    case Begin(w, account, to) => BeginKeeps(s, w, account, to);
    case Write(w) => WriteKeeps(s, w);
    case Upsert(w, account, to) => UpsertKeeps(s, w, account, to);
    case Delete(account) => DeleteKeeps(s, account);
    case Collect(w) => CollectKeeps(s, w);
    case Deliver(w, c) => DeliverKeeps(s, w, c);
    case Finish(w) => FinishKeeps(s, w);
    case Subscribe(follow) => SubscribeKeeps(s, follow);
    case Snapshot(c, ok) => SnapshotKeeps(s, c, ok);
    case Apply(c) => ApplyKeeps(s, c);
    case Close(c) => CloseKeeps(s, c);
  }

  lemma {:induction false} RunKeeps(s: Sys, actions: seq<Action>)
    requires Inv(s) && OneWriter(s, actions)
    ensures Inv(Run(s, actions))
    decreases actions
  {
    if actions != [] {
      StepKeeps(s, actions[0]);
      RunKeeps(Step(s, actions[0]), actions[1..]);
    }
  }

  // ----- agreement -----

  // However writes, sends, subscriptions and reads interleave: once nobody is writing an account and
  // no change to it waits in the channel, a client that lost nothing and whose snapshot was read
  // shows the account exactly as the table has it.
  lemma ClientAgreesWithTheTable(table: map<Id, Status>, actions: seq<Action>, c: nat, account: Id)
    requires OneWriter(Init(table), actions)
    requires var s := Run(Init(table), actions);
      && c in s.clients && s.clients[c].complete && s.clients[c].reader.dropped == 0
      && Last(s.clients[c].reader.buffer, account) == None
      && account in s.table && InScope(s.clients[c].reader.account, account) && Idle(s, account)
    ensures var s := Run(Init(table), actions);
      account in s.clients[c].view && s.clients[c].view[account] == s.table[account]
  {
    RunKeeps(Init(table), actions);
    var s := Run(Init(table), actions);
    assert Current(s, c, account);
  }

  // And while changes do wait, the last of them is what the table says.
  lemma TheLastChangeIsCurrent(table: map<Id, Status>, actions: seq<Action>, c: nat, account: Id)
    requires OneWriter(Init(table), actions)
    requires var s := Run(Init(table), actions);
      && c in s.clients && s.clients[c].reader.dropped == 0
      && account in s.table && InScope(s.clients[c].reader.account, account) && Idle(s, account)
    ensures var s := Run(Init(table), actions);
      var waiting := Last(s.clients[c].reader.buffer, account);
      waiting.Some? ==> waiting.value == s.table[account]
  {
    RunKeeps(Init(table), actions);
    var s := Run(Init(table), actions);
    assert Current(s, c, account);
  }

  // ----- what a client shows, whoever writes -----

  // What the client shows of an account once it has applied all that waits in its channel.
  function Shown(client: Client, a: Id): Option<Status> {
    match Last(client.reader.buffer, a)
    case Some(waiting) => Some(waiting)
    case None => Lookup(client.view, a)
  }

  // The status of the account that this step offers the client.
  function OfferedTo(s: Sys, action: Action, c: nat, a: Id): Option<Status> {
    if action.Deliver? && action.c == c && action.w in s.writers && s.writers[action.w].Sending?
       && c in s.writers[action.w].left && c in s.clients
       && Follows(s.clients[c].reader.account, s.writers[action.w].ev) && s.writers[action.w].ev.account == a
    then Some(StatusOf(s.writers[action.w].ev)) else None
  }

  function LastOffered(s: Sys, actions: seq<Action>, c: nat, a: Id): Option<Status>
    decreases actions
  {
    if actions == [] then None
    else
      var later := LastOffered(Step(s, actions[0]), actions[1..], c, a);
      if later.Some? then later else OfferedTo(s, actions[0], c, a)
  }

  // The status this step writes to the account's row.
  function WrittenTo(s: Sys, action: Action, a: Id): Option<Status> {
    match action
    case Write(w) =>
      if w in s.writers && s.writers[w].Read? && s.writers[w].account == a && a in s.table
      then Some(s.writers[w].to) else None
    case Upsert(w, account, to) => if w !in s.writers && account == a then Some(to) else None
    case _ => None
  }

  function LastWritten(s: Sys, actions: seq<Action>, a: Id): Option<Status>
    decreases actions
  {
    if actions == [] then None
    else
      var later := LastWritten(Step(s, actions[0]), actions[1..], a);
      if later.Some? then later else WrittenTo(s, actions[0], a)
  }

  function Latest(later: Option<Status>, earlier: Option<Status>): Option<Status> {
    if later.Some? then later else earlier
  }

  ghost predicate IdsUsed(s: Sys) { forall c :: c in s.clients ==> c < s.next }

  // The snapshot, while it is still to come, is the one step that replaces the view.
  predicate Unread(client: Client) { !client.streaming && !client.complete && client.view == map[] }

  lemma IdsStep(s: Sys, action: Action, c: nat)
    requires IdsUsed(s) && c < s.next
    ensures IdsUsed(Step(s, action)) && c < Step(s, action).next
    ensures c in Step(s, action).clients ==> c in s.clients
  {}

  lemma {:induction false} GoneStays(s: Sys, actions: seq<Action>, c: nat)
    requires IdsUsed(s) && c < s.next && c !in s.clients
    ensures c !in Run(s, actions).clients
    decreases actions
  {
    if actions != [] {
      IdsStep(s, actions[0], c);
      GoneStays(Step(s, actions[0]), actions[1..], c);
    }
  }

  lemma ApplyShows(client: Client, a: Id)
    requires client.reader.buffer != []
    ensures Shown(Applied(client), a) == Shown(client, a)
  {
    LastBehind(client.reader.buffer, a);
  }

  // Every other step leaves the client as it was.
  lemma OtherStep(s: Sys, action: Action, c: nat)
    requires IdsUsed(s) && c in s.clients && c in Step(s, action).clients
    requires !(action.Deliver? && action.c == c) && action != Apply(c) && !(action.Snapshot? && action.c == c)
    ensures Step(s, action).clients[c] == s.clients[c]
  {}

  lemma ShownStep(s: Sys, action: Action, c: nat, a: Id)
    requires IdsUsed(s) && c in s.clients && c in Step(s, action).clients
    requires s.clients[c].streaming || Unread(s.clients[c])
    requires action == Snapshot(c, true) ==> s.clients[c].streaming
    ensures var earlier, later := s.clients[c], Step(s, action).clients[c];
      && later.reader.dropped >= earlier.reader.dropped && later.complete == earlier.complete
      && (later.streaming || Unread(later)) && (earlier.streaming ==> later.streaming)
      && Shown(later, a) == if later.reader.dropped == earlier.reader.dropped
                           then Latest(OfferedTo(s, action, c, a), Shown(earlier, a)) else Shown(earlier, a)
  {
    if action == Apply(c) {
      if s.clients[c].streaming && s.clients[c].reader.buffer != [] { ApplyShows(s.clients[c], a); }
    } else if (action.Deliver? || action.Snapshot?) && action.c == c {
    } else {
      OtherStep(s, action, c);
    }
  }

  // A client that lost nothing shows of an account the last status it was offered, or what it showed
  // before -- whoever wrote and announced, in whatever order.
  lemma {:induction false} OfferedIsShown(s: Sys, actions: seq<Action>, c: nat, a: Id)
    requires IdsUsed(s) && c in s.clients && c in Run(s, actions).clients && s.clients[c].streaming
    ensures Run(s, actions).clients[c].reader.dropped >= s.clients[c].reader.dropped
    ensures Run(s, actions).clients[c].reader.dropped == s.clients[c].reader.dropped ==>
      Shown(Run(s, actions).clients[c], a) == Latest(LastOffered(s, actions, c, a), Shown(s.clients[c], a))
    decreases actions
  {
    if actions != [] {
      var t := Step(s, actions[0]);
      IdsStep(s, actions[0], c);
      if c !in t.clients { GoneStays(t, actions[1..], c); }
      ShownStep(s, actions[0], c, a);
      OfferedIsShown(t, actions[1..], c, a);
    }
  }

  lemma {:induction false} TableIsLastWritten(s: Sys, actions: seq<Action>, a: Id)
    requires Delete(a) !in actions
    ensures Lookup(Run(s, actions).table, a) == Latest(LastWritten(s, actions, a), Lookup(s.table, a))
    decreases actions
  {
    if actions != [] {
      TableIsLastWritten(Step(s, actions[0]), actions[1..], a);
    }
  }

  // With any number of writers to one account: at rest, a client that lost nothing agrees with the
  // table about it exactly when the last status it was offered is the last one written.
  lemma AgreesIffLastOfferedIsLastWritten(s: Sys, actions: seq<Action>, c: nat, a: Id)
    requires IdsUsed(s) && c in s.clients && c in Run(s, actions).clients && s.clients[c].streaming
    requires Delete(a) !in actions
    requires var client := Run(s, actions).clients[c];
      client.reader.dropped == s.clients[c].reader.dropped && Last(client.reader.buffer, a) == None
    ensures Lookup(Run(s, actions).clients[c].view, a) == Lookup(Run(s, actions).table, a) <==>
      Latest(LastOffered(s, actions, c, a), Shown(s.clients[c], a))
        == Latest(LastWritten(s, actions, a), Lookup(s.table, a))
  {
    OfferedIsShown(s, actions, c, a);
    TableIsLastWritten(s, actions, a);
  }

  // ----- deleted rows and failed snapshots -----

  // The account has no row and nobody is announcing it.
  ghost predicate Silent(s: Sys, a: Id) {
    && a !in s.table
    && forall w :: w in s.writers && !s.writers[w].Read? ==> s.writers[w].ev.account != a
  }

  lemma SilentStep(s: Sys, action: Action, c: nat, a: Id)
    requires Silent(s, a) && !(action.Upsert? && action.account == a)
    ensures Silent(Step(s, action), a) && OfferedTo(s, action, c, a) == None
  {}

  ghost predicate Recreates(actions: seq<Action>, a: Id) { exists x :: x in actions && x.Upsert? && x.account == a }

  lemma {:induction false} SilenceShowsTheSame(s: Sys, actions: seq<Action>, c: nat, a: Id)
    requires Silent(s, a) && !Recreates(actions, a)
    requires IdsUsed(s) && c in s.clients && c in Run(s, actions).clients && s.clients[c].streaming
    ensures Shown(Run(s, actions).clients[c], a) == Shown(s.clients[c], a)
    decreases actions
  {
    if actions != [] {
      var t := Step(s, actions[0]);
      assert actions[0] in actions;
      assert forall x :: x in actions[1..] ==> x in actions;
      IdsStep(s, actions[0], c);
      if c !in t.clients { GoneStays(t, actions[1..], c); }
      SilentStep(s, actions[0], c, a);
      ShownStep(s, actions[0], c, a);
      SilenceShowsTheSame(t, actions[1..], c, a);
    }
  }

  // A deletion is announced to nobody: whatever follows, short of the account's return, a client that
  // agreed with the table goes on showing the status the row had when it was deleted.
  lemma DeletedAccountKeepsItsStatus(table: map<Id, Status>, before: seq<Action>, a: Id, after: seq<Action>, c: nat)
    requires OneWriter(Init(table), before) && Idle(Run(Init(table), before), a) && !Recreates(after, a)
    requires var s := Run(Init(table), before);
      && a in s.table && c in s.clients && s.clients[c].streaming && s.clients[c].complete
      && s.clients[c].reader.dropped == 0 && InScope(s.clients[c].reader.account, a)
    requires c in Run(Step(Run(Init(table), before), Delete(a)), after).clients
    ensures var s := Run(Init(table), before);
      Shown(Run(Step(s, Delete(a)), after).clients[c], a) == Some(s.table[a])
  {
    var s := Run(Init(table), before);
    RunKeeps(Init(table), before);
    assert Current(s, c, a);
    forall w | w in s.writers && !s.writers[w].Read? ensures s.writers[w].ev.account != a { assert WriterTrue(s, w); }
    SilenceShowsTheSame(Step(s, Delete(a)), after, c, a);
  }

  // A client whose snapshot has not been read, or could not be, shows exactly the changes it was
  // offered since it subscribed, and of every other account nothing.
  lemma {:induction false} WithoutASnapshot(s: Sys, actions: seq<Action>, c: nat, a: Id)
    requires IdsUsed(s) && c in s.clients && c in Run(s, actions).clients
    requires (s.clients[c].streaming || Unread(s.clients[c])) && !s.clients[c].complete
    requires !Run(s, actions).clients[c].complete
    ensures Run(s, actions).clients[c].reader.dropped >= s.clients[c].reader.dropped
    ensures Run(s, actions).clients[c].reader.dropped == s.clients[c].reader.dropped ==>
      Shown(Run(s, actions).clients[c], a) == Latest(LastOffered(s, actions, c, a), Shown(s.clients[c], a))
    decreases actions
  {
    if actions != [] {
      var t := Step(s, actions[0]);
      IdsStep(s, actions[0], c);
      if c !in t.clients { GoneStays(t, actions[1..], c); }
      if actions[0] == Snapshot(c, true) && !s.clients[c].streaming { CompleteStays(t, actions[1..], c); }
      ShownStep(s, actions[0], c, a);
      WithoutASnapshot(t, actions[1..], c, a);
    }
  }

  lemma {:induction false} CompleteStays(s: Sys, actions: seq<Action>, c: nat)
    requires IdsUsed(s) && c in s.clients && s.clients[c].streaming && s.clients[c].complete
    ensures c in Run(s, actions).clients ==> Run(s, actions).clients[c].complete
    decreases actions
  {
    if actions != [] {
      var t := Step(s, actions[0]);
      IdsStep(s, actions[0], c);
      if c !in t.clients {
        GoneStays(t, actions[1..], c);
      } else {
        ShownStep(s, actions[0], c, "");
        CompleteStays(t, actions[1..], c);
      }
    }
  }

  // So with a failed snapshot a stream shows an account exactly when it changed meanwhile.
  lemma AFailedSnapshotShowsOnlyChanges(s: Sys, follow: Id, actions: seq<Action>, a: Id)
    requires IdsUsed(s)
    requires var t := Step(s, Subscribe(follow));
      && s.next in Run(t, actions).clients && !Run(t, actions).clients[s.next].complete
      && Run(t, actions).clients[s.next].reader.dropped == 0
    ensures var t := Step(s, Subscribe(follow));
      Shown(Run(t, actions).clients[s.next], a) == LastOffered(t, actions, s.next, a)
  {
    WithoutASnapshot(Step(s, Subscribe(follow)), actions, s.next, a);
  }

  // ----- where it stops -----

  lemma RunFirst(s: Sys, action: Action, rest: seq<Action>)
    ensures Run(s, [action] + rest) == Run(Step(s, action), rest)
  {
    assert ([action] + rest)[1..] == rest;
  }

  function Watching(table: map<Id, Status>, complete: bool, view: map<Id, Status>): Sys {
    Sys(table, map[], map[0 := Client(Reader("", [], 0), true, complete, view)], 1)
  }

  lemma OpenStream(table: map<Id, Status>, ok: bool, rest: seq<Action>)
    ensures Run(Init(table), [Subscribe(""), Snapshot(0, ok)] + rest)
         == Run(Watching(table, ok, if ok then table else map[]), rest)
  {
    assert [Subscribe(""), Snapshot(0, ok)] + rest == [Subscribe("")] + ([Snapshot(0, ok)] + rest);
    RunFirst(Init(table), Subscribe(""), [Snapshot(0, ok)] + rest);
    var s := Step(Init(table), Subscribe(""));
    assert s == Sys(table, map[], map[0 := Client(Reader("", [], 0), false, false, map[])], 1);
    RunFirst(s, Snapshot(0, ok), rest);
    assert (map a | a in table && InScope("", a) :: table[a]) == table;
    assert Step(s, Snapshot(0, ok)).clients == Watching(table, ok, if ok then table else map[]).clients;
  }

  // When the snapshot's read fails the stream goes on, and shows nothing of what is there.
  lemma AFailedSnapshotShowsNothing(table: map<Id, Status>)
    ensures Run(Init(table), [Subscribe(""), Snapshot(0, false)]) == Watching(table, false, map[])
  {
    OpenStream(table, false, []);
    assert [Subscribe(""), Snapshot(0, false)] + [] == [Subscribe(""), Snapshot(0, false)];
  }

  // Deleting a row announces nothing: the client goes on showing the account.
  lemma DeletionIsSilent(table: map<Id, Status>, account: Id)
    ensures Run(Init(table), [Subscribe(""), Snapshot(0, true), Delete(account)])
         == Watching(table - {account}, true, table)
  {
    OpenStream(table, true, [Delete(account)]);
    RunFirst(Watching(table, true, table), Delete(account), []);
    assert [Subscribe(""), Snapshot(0, true)] + [Delete(account)]
        == [Subscribe(""), Snapshot(0, true), Delete(account)];
  }

  // ----- what is announced, and to whom -----

  // Writing the state and the reason a row already has announces nothing; writing any other does, and so
  // does pairing, whatever the row was.
  lemma AnnouncedIffChanged(s: Sys, w: nat)
    requires w in s.writers && s.writers[w].Read? && s.writers[w].account in s.table
    ensures var p, t := s.writers[w], Step(s, Write(w));
      && t.table == s.table[p.account := p.to]
      && (w in t.writers <==> p.from != Some(p.to))
      && (w in t.writers ==> t.writers[w] == Written(p.account,
            StateChange(p.account, if p.from.Some? then p.from.value.state else "", p.to.state, p.to.reason)))
  {}

  lemma PairingIsAnnounced(s: Sys, w: nat, account: Id, to: Status)
    requires w !in s.writers
    ensures var t := Step(s, Upsert(w, account, to));
      && t.table == s.table[account := to] && w in t.writers
      && t.writers[w] == Written(account,
           StateChange(account, if account in s.table then s.table[account].state else "", to.state, to.reason))
  {}

  // A stream that follows one account is offered and shows no other.
  ghost predicate KeepsToItsScope(client: Client) {
    client.reader.account != "" ==>
      && (forall a :: a in client.view ==> a == client.reader.account)
      && (forall ev :: ev in client.reader.buffer ==> ev.account == client.reader.account)
  }

  lemma ScopeOnce(s: Sys, action: Action, c: nat)
    requires forall k :: k in s.clients ==> KeepsToItsScope(s.clients[k])
    requires c in Step(s, action).clients
    ensures KeepsToItsScope(Step(s, action).clients[c])
  {
    if c in s.clients { assert KeepsToItsScope(s.clients[c]); }
  }

  lemma {:induction false} AStreamShowsItsAccountOnly(s: Sys, actions: seq<Action>, c: nat)
    requires (forall k :: k in s.clients ==> KeepsToItsScope(s.clients[k])) && c in Run(s, actions).clients
    ensures KeepsToItsScope(Run(s, actions).clients[c])
    decreases actions
  {
    if actions != [] {
      var t := Step(s, actions[0]);
      forall k | k in t.clients ensures KeepsToItsScope(t.clients[k]) { ScopeOnce(s, actions[0], k); }
      AStreamShowsItsAccountOnly(t, actions[1..], c);
    }
  }

  // ----- closing while a change is being sent -----

  // The change was collected for this subscription and not sent to it yet.
  predicate StillToSend(s: Sys, w: nat, c: nat) {
    w in s.writers && s.writers[w].Sending? && c in s.writers[w].left && c < s.next
  }

  lemma ToSendOnce(s: Sys, w: nat, c: nat, action: Action)
    requires StillToSend(s, w, c) && action != Deliver(w, c)
    ensures var t := Step(s, action);
      StillToSend(t, w, c) && (c in t.clients <==> c in s.clients && action != Close(c))
  {
  }

  // A send meets a subscription that is closed already exactly when that was closed after the
  // subscribers were collected. The model skips it; in the code its channel is closed or about to be.
  lemma {:induction false} SendMeetsAClosedOneIff(s: Sys, w: nat, c: nat, actions: seq<Action>)
    requires StillToSend(s, w, c) && c in s.clients && Deliver(w, c) !in actions
    ensures StillToSend(Run(s, actions), w, c)
    ensures c !in Run(s, actions).clients <==> Close(c) in actions
    decreases actions
  {
    if actions != [] {
      ToSendOnce(s, w, c, actions[0]);
      if actions[0] == Close(c) {
        StaysClosed(Step(s, actions[0]), w, c, actions[1..]);
      } else {
        SendMeetsAClosedOneIff(Step(s, actions[0]), w, c, actions[1..]);
      }
    }
  }

  lemma {:induction false} StaysClosed(s: Sys, w: nat, c: nat, actions: seq<Action>)
    requires StillToSend(s, w, c) && c !in s.clients && Deliver(w, c) !in actions
    ensures StillToSend(Run(s, actions), w, c) && c !in Run(s, actions).clients
    decreases actions
  {
    if actions != [] {
      ToSendOnce(s, w, c, actions[0]);
      StaysClosed(Step(s, actions[0]), w, c, actions[1..]);
    }
  }

  // Two writers of one account, as a start and the event loop can be: the first to write announces last.
  const TWO_WRITES: seq<Action> := [Upsert(1, "a", Status("x", "")), Upsert(2, "a", Status("y", ""))]
  const THEN_ANNOUNCE: seq<Action> :=
    [Collect(2), Deliver(2, 0), Finish(2)] + ([Collect(1), Deliver(1, 0), Finish(1)] + [Apply(0), Apply(0)])

  function Change(from: string, to: string): StateChange { StateChange("a", from, to, "") }

  lemma BothWritten(table: map<Id, Status>, rest: seq<Action>)
    requires table == map["a" := Status("z", "")]
    ensures Run(Watching(table, true, table), [Upsert(1, "a", Status("x", "")), Upsert(2, "a", Status("y", ""))] + rest)
         == Run(Watching(table["a" := Status("y", "")], true, table)
                  .(writers := map[1 := Written("a", Change("z", "x")), 2 := Written("a", Change("x", "y"))]), rest)
  {
    var u1, u2 := Upsert(1, "a", Status("x", "")), Upsert(2, "a", Status("y", ""));
    var s := Watching(table, true, table);
    assert [u1, u2] + rest == [u1] + ([u2] + rest);
    RunFirst(s, u1, [u2] + rest);
    var t := Watching(table["a" := Status("x", "")], true, table).(writers := map[1 := Written("a", Change("z", "x"))]);
    assert Step(s, u1) == t;
    RunFirst(t, u2, rest);
    assert table["a" := Status("x", "")]["a" := Status("y", "")] == table["a" := Status("y", "")];
  }

  // One announcement, from collecting to the end, to the only client there is.
  lemma Announced(s: Sys, w: nat, rest: seq<Action>)
    requires w in s.writers && s.writers[w].Written? && s.clients.Keys == {0}
    requires s.clients[0].reader.account == "" && |s.clients[0].reader.buffer| < SUBSCRIBER_BUFFER
    ensures Run(s, [Collect(w), Deliver(w, 0), Finish(w)] + rest)
         == Run(s.(writers := s.writers - {w},
                   clients := s.clients[0 := s.clients[0].(reader := Offer(s.clients[0].reader, s.writers[w].ev))]),
                rest)
  {
    assert [Collect(w), Deliver(w, 0), Finish(w)] + rest == [Collect(w)] + ([Deliver(w, 0)] + ([Finish(w)] + rest));
    RunFirst(s, Collect(w), [Deliver(w, 0)] + ([Finish(w)] + rest));
    var p := s.writers[w];
    var t := s.(writers := s.writers[w := Sending(p.account, p.ev, {0})]);
    assert Step(s, Collect(w)).writers[w].left == {0};
    assert Step(s, Collect(w)) == t;
    RunFirst(t, Deliver(w, 0), [Finish(w)] + rest);
    var u := Step(t, Deliver(w, 0));
    assert u.writers[w].left == {};
    RunFirst(u, Finish(w), rest);
    assert u.writers - {w} == s.writers - {w};
  }

  // One watching client with these changes waiting.
  function Waiting(now: map<Id, Status>, writers: map<nat, Writer>, buffer: seq<StateChange>,
      view: map<Id, Status>): Sys {
    Sys(now, writers, map[0 := Client(Reader("", buffer, 0), true, true, view)], 1)
  }

  lemma AppliedOnce(now: map<Id, Status>, ev: StateChange, buffer: seq<StateChange>, view: map<Id, Status>,
      rest: seq<Action>)
    ensures Run(Waiting(now, map[], [ev] + buffer, view), [Apply(0)] + rest)
         == Run(Waiting(now, map[], buffer, view[ev.account := StatusOf(ev)]), rest)
  {
    var s := Waiting(now, map[], [ev] + buffer, view);
    assert ([ev] + buffer)[1..] == buffer;
    assert Step(s, Apply(0)).clients == Waiting(now, map[], buffer, view[ev.account := StatusOf(ev)]).clients;
    RunFirst(s, Apply(0), rest);
  }

  lemma BothAnnounced(now: map<Id, Status>, view: map<Id, Status>, one: StateChange, two: StateChange,
      rest: seq<Action>)
    requires one.account == two.account == "a"
    ensures Run(Waiting(now, map[1 := Written("a", one), 2 := Written("a", two)], [], view),
                [Collect(2), Deliver(2, 0), Finish(2)] + ([Collect(1), Deliver(1, 0), Finish(1)] + rest))
         == Run(Waiting(now, map[], [two, one], view), rest)
  {
    var s := Waiting(now, map[1 := Written("a", one), 2 := Written("a", two)], [], view);
    var t := Waiting(now, map[1 := Written("a", one)], [two], view);
    var u := Waiting(now, map[], [two, one], view);
    Announced(s, 2, [Collect(1), Deliver(1, 0), Finish(1)] + rest);
    assert s.writers - {2} == t.writers && [] + [two] == [two];
    assert s.clients[0 := s.clients[0].(reader := Offer(s.clients[0].reader, two))] == t.clients;
    Announced(t, 1, rest);
    assert t.writers - {1} == u.writers && [two] + [one] == [two, one];
    assert t.clients[0 := t.clients[0].(reader := Offer(t.clients[0].reader, one))] == u.clients;
  }

  lemma BothApplied(now: map<Id, Status>, view: map<Id, Status>, one: StateChange, two: StateChange)
    requires one.account == two.account == "a"
    ensures Run(Waiting(now, map[], [two, one], view), [Apply(0), Apply(0)])
         == Waiting(now, map[], [], view["a" := StatusOf(one)])
  {
    assert [two] + [one] == [two, one] && [one] + [] == [one];
    assert [Apply(0)] + [Apply(0)] == [Apply(0), Apply(0)] && [Apply(0)] + [] == [Apply(0)];
    AppliedOnce(now, two, [one], view, [Apply(0)]);
    AppliedOnce(now, one, [], view["a" := StatusOf(two)], []);
    assert view["a" := StatusOf(two)]["a" := StatusOf(one)] == view["a" := StatusOf(one)];
  }

  lemma TwoWritersCanDisagree(table: map<Id, Status>)
    requires table == map["a" := Status("z", "")]
    ensures Run(Init(table), [Subscribe(""), Snapshot(0, true)] + (TWO_WRITES + THEN_ANNOUNCE))
         == Waiting(map["a" := Status("y", "")], map[], [], map["a" := Status("x", "")])
  {
    var now := table["a" := Status("y", "")];
    var one, two := Change("z", "x"), Change("x", "y");
    OpenStream(table, true, TWO_WRITES + THEN_ANNOUNCE);
    BothWritten(table, THEN_ANNOUNCE);
    BothAnnounced(now, table, one, two, [Apply(0), Apply(0)]);
    BothApplied(now, table, one, two);
    assert now == map["a" := Status("y", "")] && table["a" := StatusOf(one)] == map["a" := Status("x", "")];
  }
}
