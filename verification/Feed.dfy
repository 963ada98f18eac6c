// internal/accounts/state.go: the state-change feed, its subscriptions and what a slow reader loses.
module Feed {
  import opened Wrappers

  type Id = string

  const SUBSCRIBER_BUFFER: nat := 64

  datatype StateChange = StateChange(account: Id, from: string, to: string, reason: string)

  // One subscription: the account it follows ("" for all), its channel and its drop counter.
  datatype Reader = Reader(account: Id, buffer: seq<StateChange>, dropped: nat)

  predicate Follows(account: Id, ev: StateChange) { account == "" || account == ev.account }

  // The non-blocking send: a full channel loses the new change and counts it.
  function Offer(r: Reader, ev: StateChange): Reader {
    if !Follows(r.account, ev) then r
    else if |r.buffer| < SUBSCRIBER_BUFFER then r.(buffer := r.buffer + [ev])
    else r.(dropped := r.dropped + 1)
  }

  class Subscription {
    const account: Id
    const id: nat
    var ch: seq<StateChange>
    var dropped: nat
    var closed: bool

    constructor (account: Id, id: nat)
      ensures View() == Reader(account, [], 0) && this.id == id && !closed
    {
      this.account := account;
      this.id := id;
      ch := [];
      dropped := 0;
      closed := false;
    }

    function View(): Reader
      reads this
    {
      Reader(account, ch, dropped)
    }

    // state.go:287-291
    method Send(ev: StateChange)
      requires Follows(account, ev)
      modifies this`ch, this`dropped
      ensures View() == Offer(old(View()), ev)
    {
      if |ch| < SUBSCRIBER_BUFFER {
        ch := ch + [ev];
      } else {
        dropped := dropped + 1;
      }
    }

    // A receive that does not wait.
    method Take() returns (next: Option<StateChange>)
      modifies this`ch
      ensures old(ch) == [] ==> next == None && ch == []
      ensures old(ch) != [] ==> next == Some(old(ch)[0]) && ch == old(ch)[1..]
    {
      if ch == [] { return None; }
      next := Some(ch[0]);
      ch := ch[1..];
    }
  }

  class Feed {
    var next: nat
    var subs: map<nat, Subscription>

    ghost predicate Valid()
      reads this, subs.Values
    {
      forall i :: i in subs ==> i <= next && subs[i].id == i && !subs[i].closed && |subs[i].ch| <= SUBSCRIBER_BUFFER
    }

    constructor ()
      ensures Valid() && subs == map[]
    {
      next := 0;
      subs := map[];
    }

    // state.go:258-272
    method Subscribe(account: Id) returns (sub: Subscription)
      requires Valid()
      modifies this
      ensures Valid() && fresh(sub) && sub.View() == Reader(account, [], 0)
      ensures sub.id !in old(subs) && subs == old(subs)[sub.id := sub]
      ensures forall i :: i in old(subs) ==> subs[i].View() == old(subs[i].View())
    {
      next := next + 1;
      sub := new Subscription(account, next);
      subs := subs[next := sub];
    }

    // state.go:278-285: the subscriptions that follow the account, in whatever order the map gives them.
    method Followers(ev: StateChange) returns (matching: seq<Subscription>)
      requires Valid()
      ensures forall i :: i in subs && Follows(subs[i].account, ev) ==> subs[i] in matching
      ensures forall s :: s in matching ==> s.id in subs && subs[s.id] == s && Follows(s.account, ev)
      ensures forall j, k :: 0 <= j < k < |matching| ==> matching[j] != matching[k]
    {
      matching := [];
      var todo := subs.Keys;
      while todo != {}
        invariant todo <= subs.Keys
        invariant forall i :: i in subs && i !in todo && Follows(subs[i].account, ev) ==> subs[i] in matching
        invariant forall s :: s in matching ==>
          s.id in subs && subs[s.id] == s && s.id !in todo && Follows(s.account, ev)
        invariant forall j, k :: 0 <= j < k < |matching| ==> matching[j] != matching[k]
        decreases todo
      {
        var i :| i in todo;
        todo := todo - {i};
        if subs[i].account == "" || subs[i].account == ev.account {
          matching := matching + [subs[i]];
        }
      }
    }

    // state.go:277-293
    method Publish(ev: StateChange)
      requires Valid()
      modifies subs.Values
      ensures Valid()
      ensures forall i :: i in subs ==> subs[i].View() == Offer(old(subs[i].View()), ev)
    {
      var matching := Followers(ev);
      for k := 0 to |matching|
        invariant forall i :: i in subs ==> !subs[i].closed
        invariant forall s :: s in matching[..k] ==> s.View() == Offer(old(s.View()), ev)
        invariant forall i :: i in subs && subs[i] !in matching[..k] ==> subs[i].View() == old(subs[i].View())
      {
        assert matching[k] in matching && matching[k] !in matching[..k];
        matching[k].Send(ev);
        assert matching[..k + 1] == matching[..k] + [matching[k]];
      }
      assert matching[..|matching|] == matching;
    }

    // state.go:243-250. What is in the channel stays readable.
    method Close(sub: Subscription)
      requires Valid()
      requires sub.closed || (sub.id in subs && subs[sub.id] == sub)
      modifies this`subs, sub`closed
      ensures Valid() && sub.closed && sub.View() == old(sub.View())
      ensures subs == if old(sub.closed) then old(subs) else old(subs) - {sub.id}
    {
      if sub.closed { return; }
      subs := subs - {sub.id};
      sub.closed := true;
    }
  }

  // ----- the life of one subscription -----

  datatype Op = Publish(ev: StateChange) | Take

  function After(r: Reader, ops: seq<Op>): Reader
    decreases ops
  {
    if ops == [] then r else After(Step(r, ops[0]), ops[1..])
  }

  function Step(r: Reader, op: Op): Reader {
    match op
    case Publish(ev) => Offer(r, ev)
    case Take => if r.buffer == [] then r else r.(buffer := r.buffer[1..])
  }

  // What the reader took, in order.
  function Delivered(r: Reader, ops: seq<Op>): seq<StateChange>
    decreases ops
  {
    if ops == [] then []
    else (if ops[0].Take? && r.buffer != [] then [r.buffer[0]] else []) + Delivered(Step(r, ops[0]), ops[1..])
  }

  // What was published for it, in order.
  function Matching(account: Id, ops: seq<Op>): seq<StateChange> {
    if ops == [] then []
    else (if ops[0].Publish? && Follows(account, ops[0].ev) then [ops[0].ev] else []) + Matching(account, ops[1..])
  }

  lemma {:induction false} Conservation(r: Reader, ops: seq<Op>)
    ensures |r.buffer| + r.dropped + |Matching(r.account, ops)|
         == |Delivered(r, ops)| + |After(r, ops).buffer| + After(r, ops).dropped
    decreases ops
  {
    if ops != [] { Conservation(Step(r, ops[0]), ops[1..]); }
  }

  ghost predicate Subsequence<T(!new)>(xs: seq<T>, ys: seq<T>)
    decreases ys
  {
    if xs == [] then true
    else ys != [] && ((xs[0] == ys[0] && Subsequence(xs[1..], ys[1..])) || Subsequence(xs, ys[1..]))
  }

  lemma {:induction false} SubsequenceInsert<T(!new)>(xs: seq<T>, front: seq<T>, x: T, back: seq<T>)
    requires Subsequence(xs, front + back)
    ensures Subsequence(xs, front + [x] + back)
    decreases front
  {
    var ys := front + [x] + back;
    if xs == [] {
    } else if front == [] {
      assert ys[1..] == front + back;
    } else {
      assert ys[1..] == front[1..] + [x] + back;
      assert (front + back)[1..] == front[1..] + back;
      if xs[0] == front[0] && Subsequence(xs[1..], front[1..] + back) {
        SubsequenceInsert(xs[1..], front[1..], x, back);
      } else {
        SubsequenceInsert(xs, front[1..], x, back);
      }
    }
  }

  lemma {:induction false} SubsequenceOfItself<T(!new)>(xs: seq<T>)
    ensures Subsequence(xs, xs)
  {
    if xs != [] { SubsequenceOfItself(xs[1..]); }
  }

  function Seen(r: Reader, ops: seq<Op>): seq<StateChange> { Delivered(r, ops) + After(r, ops).buffer }

  function Due(r: Reader, ops: seq<Op>): seq<StateChange> { r.buffer + Matching(r.account, ops) }

  lemma Unfolded(r: Reader, op: Op, rest: seq<Op>)
    ensures After(r, [op] + rest) == After(Step(r, op), rest)
    ensures if op.Take? && r.buffer != []
      then Delivered(r, [op] + rest) == [r.buffer[0]] + Delivered(Step(r, op), rest)
      else Delivered(r, [op] + rest) == Delivered(Step(r, op), rest)
  {
    assert ([op] + rest)[1..] == rest;
    assert [] + Delivered(Step(r, op), rest) == Delivered(Step(r, op), rest);
  }

  // How one operation changes what has been seen and what is due.
  lemma TakeSeen(r: Reader, rest: seq<Op>)
    requires r.buffer != []
    ensures Seen(r, [Take] + rest) == [r.buffer[0]] + Seen(Step(r, Take), rest)
  {
    Unfolded(r, Take, rest);
  }

  lemma TakeDue(r: Reader, rest: seq<Op>)
    requires r.buffer != []
    ensures Due(r, [Take] + rest) == [r.buffer[0]] + Due(Step(r, Take), rest)
  {
    var t := Step(r, Take);
    assert t.account == r.account && r.buffer == [r.buffer[0]] + t.buffer;
  }

  lemma PublishOne(r: Reader, ev: StateChange, rest: seq<Op>)
    requires Follows(r.account, ev)
    ensures Seen(r, [Publish(ev)] + rest) == Seen(Offer(r, ev), rest)
    ensures Due(r, [Publish(ev)] + rest) == r.buffer + [ev] + Matching(r.account, rest)
  {
    Unfolded(r, Publish(ev), rest);
  }

  lemma IdleOne(r: Reader, op: Op, rest: seq<Op>)
    requires !(op.Take? && r.buffer != []) && !(op.Publish? && Follows(r.account, op.ev))
    ensures Step(r, op) == r && Seen(r, [op] + rest) == Seen(r, rest) && Due(r, [op] + rest) == Due(r, rest)
  {
    Unfolded(r, op, rest);
  }

  // What is taken and what waits to be taken is what was published, in that order, with nothing
  // invented and nothing twice.
  lemma {:induction false} InPublishOrder(r: Reader, ops: seq<Op>)
    ensures Subsequence(Delivered(r, ops) + After(r, ops).buffer, r.buffer + Matching(r.account, ops))
    decreases ops
  {
    if ops == [] {
      SubsequenceOfItself(r.buffer);
      assert Seen(r, ops) == r.buffer == Due(r, ops);
    } else {
      var op, rest := ops[0], ops[1..];
      var t := Step(r, op);
      assert ops == [op] + rest;
      InPublishOrder(t, rest);
      if op.Take? && r.buffer != [] {
        TakeSeen(r, rest);
        TakeDue(r, rest);
      } else if op.Publish? && Follows(r.account, op.ev) {
        PublishOne(r, op.ev, rest);
        if t.dropped != r.dropped {
          SubsequenceInsert(Seen(t, rest), r.buffer, op.ev, Matching(r.account, rest));
        } else {
        }
      } else {
        IdleOne(r, op, rest);
      }
      assert Subsequence(Seen(r, ops), Due(r, ops));
    }
  }

  lemma {:induction false} DropsOnlyGrow(r: Reader, ops: seq<Op>)
    ensures After(r, ops).dropped >= r.dropped
    decreases ops
  {
    if ops != [] { DropsOnlyGrow(Step(r, ops[0]), ops[1..]); }
  }

  // It is all of it when the counter did not move.
  lemma {:induction false} NothingLost(r: Reader, ops: seq<Op>)
    requires After(r, ops).dropped == r.dropped
    ensures Delivered(r, ops) + After(r, ops).buffer == r.buffer + Matching(r.account, ops)
    decreases ops
  {
    if ops == [] {
      assert Seen(r, ops) == r.buffer == Due(r, ops);
    } else {
      var op, rest := ops[0], ops[1..];
      assert ops == [op] + rest;
      DropsOnlyGrow(Step(r, op), rest);
      assert After(r, ops) == After(Step(r, op), rest) by { Unfolded(r, op, rest); }
      NothingLost(Step(r, op), rest);
      assert Seen(Step(r, op), rest) == Due(Step(r, op), rest);
      if op.Take? && r.buffer != [] {
        TakeSeen(r, rest);
        TakeDue(r, rest);
      } else if op.Publish? && Follows(r.account, op.ev) {
        PublishOne(r, op.ev, rest);
      } else {
        IdleOne(r, op, rest);
      }
      assert Seen(r, ops) == Due(r, ops);
    }
  }

  // How far the reader is behind, were nothing ever dropped.
  function Behind(r: Reader, ops: seq<Op>): int {
    |r.buffer| + |Matching(r.account, ops)| - |Delivered(r, ops)|
  }

  // A change is lost exactly when the reader is at some point more than SUBSCRIBER_BUFFER behind.
  lemma {:induction false} LosesIffBehind(r: Reader, ops: seq<Op>)
    requires |r.buffer| <= SUBSCRIBER_BUFFER
    ensures After(r, ops).dropped == r.dropped <==>
      forall k | 0 <= k <= |ops| :: Behind(r, ops[..k]) <= SUBSCRIBER_BUFFER
    decreases ops
  {
    if ops == [] {
      assert ops[..0] == [];
    } else {
      var t, rest := Step(r, ops[0]), ops[1..];
      LosesIffBehind(t, rest);
      DropsOnlyGrow(t, rest);
      assert Behind(r, ops[..0]) == |r.buffer|;
      forall k | 0 <= k <= |rest|
        ensures Behind(r, ops[..k + 1]) == Behind(t, rest[..k]) + t.dropped - r.dropped
      {
        assert ops[..k + 1][0] == ops[0] && ops[..k + 1][1..] == rest[..k];
      }
      if t.dropped != r.dropped {
        assert Behind(t, rest[..0]) == |t.buffer|;
        assert Behind(r, ops[..1]) == SUBSCRIBER_BUFFER + 1;
      } else {
        if After(r, ops).dropped == r.dropped {
          forall k | 0 <= k <= |ops| ensures Behind(r, ops[..k]) <= SUBSCRIBER_BUFFER {
            if k > 0 { assert Behind(r, ops[..k - 1 + 1]) == Behind(t, rest[..k - 1]); }
          }
        } else {
          var k :| 0 <= k <= |rest| && Behind(t, rest[..k]) > SUBSCRIBER_BUFFER;
          assert Behind(r, ops[..k + 1]) > SUBSCRIBER_BUFFER;
        }
      }
    }
  }
}
