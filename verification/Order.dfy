// The order sort.Strings puts map keys in.
module Order {

  // a comes strictly before b.
  predicate Before(a: string, b: string) {
    if b == [] then false
    else if a == [] then true
    else if a[0] != b[0] then a[0] < b[0]
    else Before(a[1..], b[1..])
  }

  // Where two strings first differ decides, and a proper beginning comes first.
  lemma {:induction false} FirstDifferenceDecides(same: string, a: char, left: string, b: char, right: string)
    ensures Before(same + [a] + left, same + [b] + right) <==> a < b || (a == b && Before(left, right))
    ensures Before(same, same + [b] + right) && !Before(same, same)
  {
    var x, y := same + [a] + left, same + [b] + right;
    if same == [] {
      assert x[1..] == left && y[1..] == right;
    } else {
      assert x[1..] == same[1..] + [a] + left && y[1..] == same[1..] + [b] + right;
      FirstDifferenceDecides(same[1..], a, left, b, right);
    }
  }

  lemma {:induction false} OneWayOrTheOther(a: string, b: string)
    ensures a == b || Before(a, b) || Before(b, a)
  {
    if a != [] && b != [] && a[0] == b[0] {
      OneWayOrTheOther(a[1..], b[1..]);
      assert a == [a[0]] + a[1..] && b == [b[0]] + b[1..];
    }
  }

  lemma {:induction false} NotBoth(a: string, b: string)
    ensures !(Before(a, b) && Before(b, a)) && !Before(a, a)
  {
    if a != [] {
      NotBoth(a[1..], a[1..]);
      if b != [] && a[0] == b[0] { NotBoth(a[1..], b[1..]); }
    }
  }

  lemma {:induction false} Chain(a: string, b: string, c: string)
    requires Before(a, b) && Before(b, c)
    ensures Before(a, c)
  {
    if a != [] && a[0] == b[0] == c[0] { Chain(a[1..], b[1..], c[1..]); }
  }

  ghost predicate Sorted(s: seq<string>) {
    forall i, j :: 0 <= i < j < |s| ==> Before(s[i], s[j])
  }

  ghost predicate Holds(s: seq<string>, keys: set<string>) {
    forall k :: k in s <==> k in keys
  }

  function Insert(k: string, s: seq<string>): (r: seq<string>)
    ensures forall x :: x in r <==> x == k || x in s
  {
    if s == [] then [k]
    else if Before(k, s[0]) then [k] + s
    else [s[0]] + Insert(k, s[1..])
  }

  lemma {:induction false} InsertSorted(k: string, s: seq<string>)
    requires Sorted(s) && k !in s
    ensures Sorted(Insert(k, s))
  {
    if s == [] {
    } else if Before(k, s[0]) {
      forall j | 0 <= j < |s| ensures Before(k, s[j]) { if j > 0 { Chain(k, s[0], s[j]); } }
    } else {
      OneWayOrTheOther(k, s[0]);
      InsertSorted(k, s[1..]);
      var rest := Insert(k, s[1..]);
      forall j | 0 <= j < |rest| ensures Before(s[0], rest[j]) {
        assert rest[j] in rest;
        if rest[j] != k { assert rest[j] in s[1..]; }
      }
    }
  }

  // There is only one way to put a set of keys in order.
  lemma {:induction false} OneSorting(a: seq<string>, b: seq<string>)
    requires Sorted(a) && Sorted(b) && (forall k :: k in a <==> k in b)
    ensures a == b
  {
    assert a == [] || a[0] in a;
    assert b == [] || b[0] in b;
    if a != [] && b != [] {
      SameHead(a, b);
      forall k ensures k in a[1..] <==> k in b[1..] {
        NotBoth(a[0], a[0]);
        assert a[0] !in a[1..] && b[0] !in b[1..];
        assert (k in a <==> k == a[0] || k in a[1..]) && (k in b <==> k == b[0] || k in b[1..]);
      }
      OneSorting(a[1..], b[1..]);
      assert a == [a[0]] + a[1..] && b == [b[0]] + b[1..];
    }
  }

  lemma SameHead(a: seq<string>, b: seq<string>)
    requires Sorted(a) && Sorted(b) && a != [] && b != [] && a[0] in b && b[0] in a
    ensures a[0] == b[0]
  {
    if a[0] != b[0] {
      var i :| 0 <= i < |b| && b[i] == a[0];
      var j :| 0 <= j < |a| && a[j] == b[0];
      NotBoth(a[0], b[0]);
      assert false;
    }
  }

  // The keys in order.
  ghost function SortedKeys(keys: set<string>): (r: seq<string>)
    ensures Sorted(r) && Holds(r, keys)
    ensures keys == {} ==> r == []
  {
    if keys == {} then []
    else
      var k :| k in keys;
      var rest := SortedKeys(keys - {k});
      InsertSorted(k, rest);
      Insert(k, rest)
  }

  // A map's keys come in any order; sorting them gives the one sequence there is.
  method Sort(keys: set<string>) returns (r: seq<string>)
    ensures r == SortedKeys(keys)
  {
    r := [];
    var todo := keys;
    while todo != {}
      invariant todo <= keys && Sorted(r) && Holds(r, keys - todo)
      decreases todo
    {
      var k :| k in todo;
      assert k !in r;
      InsertSorted(k, r);
      r := Insert(k, r);
      todo := todo - {k};
    }
    OneSorting(r, SortedKeys(keys));
  }
}
