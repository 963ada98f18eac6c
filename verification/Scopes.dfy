// internal/authz/scopes.go: what a scope set is, how a caller's list is parsed and how a set is
// stored. A ScopeSet is a Go map used only as a set and never shared after it is built, so it is a
// `set` here.
module Scopes {
  import opened Wrappers
  import Order
  import Text

  type Scope = string

  const READ: Scope := "messages:read"
  const WRITE: Scope := "messages:write"
  const DELETE: Scope := "messages:delete"
  const ADMIN: Scope := "admin"

  const CANONICAL: seq<Scope> := [ADMIN, READ, WRITE, DELETE]

  function AdminBootstrap(): set<Scope> { {ADMIN, READ, WRITE, DELETE} }

  predicate Known(s: Scope) { s in CANONICAL }

  // The entries of a caller's list that name something: trimmed and not blank.
  function Named(raw: seq<string>): set<Scope> {
    set r | r in raw && Text.TrimSpace(r) != "" :: Text.TrimSpace(r)
  }

  // What ParseScopes answers: nothing if any named entry is unknown, else exactly the named ones.
  function Parsed(raw: seq<string>): Option<set<Scope>> {
    if forall s :: s in Named(raw) ==> Known(s) then Some(Named(raw)) else None
  }

  method ParseScopes(raw: seq<string>) returns (result: Option<set<Scope>>)
    ensures result == Parsed(raw)
  {
    var m: set<Scope> := {};
    for i := 0 to |raw|
      invariant m == Named(raw[..i])
      invariant forall s :: s in m ==> Known(s)
    {
      assert raw[..i + 1] == raw[..i] + [raw[i]];
      var r := Text.TrimSpace(raw[i]);
      if r == "" { continue; }
      if !Known(r) {
        assert r in Named(raw);
        return None;
      }
      m := m + {r};
    }
    assert raw[..|raw|] == raw;
    return Some(m);
  }

  function ParsedColumn(column: string): Option<set<Scope>> { Parsed(Text.Fields(column)) }

  // The canonical list of a set of known scopes.
  function Listed(s: set<Scope>, order: seq<Scope>): seq<Scope> {
    if order == [] then []
    else (if order[0] in s then [order[0]] else []) + Listed(s, order[1..])
  }

  lemma {:induction false} ListedSnoc(s: set<Scope>, order: seq<Scope>, c: Scope)
    ensures Listed(s, order + [c]) == Listed(s, order) + (if c in s then [c] else [])
  {
    if order != [] {
      assert (order + [c])[1..] == order[1..] + [c];
      ListedSnoc(s, order[1..], c);
    }
  }

  function Strangers(s: set<Scope>): set<Scope> { set x | x in s && !Known(x) }

  // The canonical order of any set: the known scopes as listed, then the rest alphabetically.
  ghost function InOrder(s: set<Scope>): seq<Scope> { Listed(s, CANONICAL) + Order.SortedKeys(Strangers(s)) }

  method List(s: set<Scope>) returns (out: seq<Scope>)
    ensures out == InOrder(s)
    ensures forall x :: x in out <==> x in s
  {
    out := [];
    for i := 0 to |CANONICAL|
      invariant out == Listed(s, CANONICAL[..i])
    {
      assert CANONICAL[..i + 1] == CANONICAL[..i] + [CANONICAL[i]];
      ListedSnoc(s, CANONICAL[..i], CANONICAL[i]);
      if CANONICAL[i] in s { out := out + [CANONICAL[i]]; }
    }
    assert CANONICAL[..|CANONICAL|] == CANONICAL;
    var rest := Order.Sort(Strangers(s));
    ListedHolds(s, CANONICAL);
    out := out + rest;
  }

  // String(): how authorizations.scopes and authorizations.minted_scopes are stored.
  ghost function Rendered(s: set<Scope>): string { Text.Join(InOrder(s), ' ') }

  lemma NoStrangers(s: set<Scope>)
    requires forall x :: x in s ==> Known(x)
    ensures InOrder(s) == Listed(s, CANONICAL)
  {
    assert Strangers(s) == {};
    assert InOrder(s) == Listed(s, CANONICAL) + [];
  }

  lemma {:induction false} ListedHolds(s: set<Scope>, order: seq<Scope>)
    ensures forall x :: x in Listed(s, order) <==> x in s && x in order
  {
    if order != [] { ListedHolds(s, order[1..]); }
  }

  lemma KnownSolid(x: Scope)
    requires Known(x)
    ensures Text.Solid(x) && Text.TrimSpace(x) == x
  {
    Text.TrimmedStays(x);
  }

  // A stored column parses back to the set it was rendered from, so two sets of known scopes have
  // the same column exactly when they are equal.
  lemma ColumnRoundTrip(s: set<Scope>)
    requires forall x :: x in s ==> Known(x)
    ensures ParsedColumn(Rendered(s)) == Some(s)
  {
    var l := Listed(s, CANONICAL);
    NoStrangers(s);
    ListedHolds(s, CANONICAL);
    forall x | x in l ensures Text.Solid(x) && Text.TrimSpace(x) == x { KnownSolid(x); }
    Text.FieldsJoin(l);
    assert Named(l) == s by {
      forall x | x in s ensures x in Named(l) { KnownSolid(x); assert x in l; }
    }
  }

  lemma ColumnCanonical(a: set<Scope>, b: set<Scope>)
    requires (forall x :: x in a ==> Known(x)) && (forall x :: x in b ==> Known(x))
    ensures Rendered(a) == Rendered(b) <==> a == b
  {
    ColumnRoundTrip(a);
    ColumnRoundTrip(b);
  }

  // The scan behind Subset visits the map in no particular order.
  method Subset(s: set<Scope>, other: set<Scope>) returns (b: bool)
    ensures b <==> s <= other
  {
    var todo := s;
    while todo != {}
      invariant todo <= s
      invariant forall x :: x in s - todo ==> x in other
      decreases todo
    {
      var sc :| sc in todo;
      if sc !in other { return false; }
      todo := todo - {sc};
    }
    return true;
  }

  // Equal compares sizes and then one inclusion; that is set equality.
  method Equal(s: set<Scope>, other: set<Scope>) returns (b: bool)
    ensures b <==> s == other
  {
    b := false;
    if |s| == |other| { b := Subset(s, other); }
    if b { SameSizeSubset(s, other); }
  }

  lemma SameSizeSubset(s: set<Scope>, other: set<Scope>)
    requires s <= other && |s| == |other|
    ensures s == other
  {
    assert other == s + (other - s);
  }
}
