// What the limiters share.
module Numbers {

  function Min(a: int, b: int): int { if a < b then a else b }

  // Readings of a clock that never goes back.
  ghost predicate Ordered(ts: seq<int>) { forall i, j :: 0 <= i <= j < |ts| ==> ts[i] <= ts[j] }

  lemma OrderedParts(ts: seq<int>, i: nat)
    requires Ordered(ts) && i <= |ts|
    ensures Ordered(ts[..i]) && Ordered(ts[i..])
  {
    forall m, n | 0 <= m <= n < i ensures ts[..i][m] <= ts[..i][n] {
      assert ts[..i][m] == ts[m] && ts[..i][n] == ts[n];
    }
    forall m, n | 0 <= m <= n < |ts| - i ensures ts[i..][m] <= ts[i..][n] {
      assert ts[i..][m] == ts[i + m] && ts[i..][n] == ts[i + n];
    }
  }

  lemma OrderedAfter(t: int, ts: seq<int>)
    requires Ordered(ts) && (ts != [] ==> t <= ts[0])
    ensures Ordered([t] + ts)
  {
    var whole := [t] + ts;
    forall m, n | 0 <= m <= n < |whole| ensures whole[m] <= whole[n] {
      if m > 0 {
        assert whole[m] == ts[m - 1] && whole[n] == ts[n - 1];
      } else if n > 0 {
        assert whole[n] == ts[n - 1] && ts[0] <= ts[n - 1];
      }
    }
  }
}
