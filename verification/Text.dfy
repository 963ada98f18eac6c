// The handful of Go string operations the modelled code relies on, over rune sequences.
module Text {

  // unicode.IsSpace, the class strings.TrimSpace and strings.Fields use.
  predicate IsSpace(c: char) {
    c in {'\t', '\n', '\U{B}', '\U{C}', '\r', ' ', '\U{85}', '\U{A0}', '\U{1680}',
          '\U{2028}', '\U{2029}', '\U{202F}', '\U{205F}', '\U{3000}'}
    || '\U{2000}' <= c <= '\U{200A}'
  }

  // unicode.ToLower, on ASCII letters.
  function LowerChar(c: char): char { if 'A' <= c <= 'Z' then (c as int + 32) as char else c }

  function TrimLeft(s: string): string {
    if s != [] && IsSpace(s[0]) then TrimLeft(s[1..]) else s
  }

  function TrimRight(s: string): string {
    if s != [] && IsSpace(s[|s| - 1]) then TrimRight(s[..|s| - 1]) else s
  }

  // strings.TrimSpace
  function TrimSpace(s: string): string { TrimRight(TrimLeft(s)) }

  // strings.TrimRight(s, "/")
  function TrimSlashes(s: string): string {
    if s != [] && s[|s| - 1] == '/' then TrimSlashes(s[..|s| - 1]) else s
  }

  // Neither end is white space, so trimming leaves the string alone.
  predicate Trimmed(s: string) {
    s == [] || (!IsSpace(s[0]) && !IsSpace(s[|s| - 1]))
  }

  lemma TrimmedStays(s: string)
    requires Trimmed(s)
    ensures TrimSpace(s) == s
  {}

  // Trimming cuts white space off both ends, and all of it.
  lemma TrimSpaceCuts(s: string) returns (i: nat, j: nat)
    ensures i <= j <= |s| && TrimSpace(s) == s[i..j] && Trimmed(TrimSpace(s))
    ensures forall k :: 0 <= k < |s| && !(i <= k < j) ==> IsSpace(s[k])
  {
    i := TrimLeftCuts(s);
    var n := TrimRightCuts(s[i..]);
    j := i + n;
    forall k | 0 <= k < |s| && !(i <= k < j) ensures IsSpace(s[k]) {
      if k >= j { assert s[k] == s[i..][k - i]; }
    }
    if i < j { assert TrimSpace(s)[0] == s[i..][0]; }
  }

  lemma {:induction false} TrimLeftCuts(s: string) returns (i: nat)
    ensures i <= |s| && TrimLeft(s) == s[i..] && (i < |s| ==> !IsSpace(s[i]))
    ensures forall k :: 0 <= k < i ==> IsSpace(s[k])
  {
    i := 0;
    if s != [] && IsSpace(s[0]) {
      var n := TrimLeftCuts(s[1..]);
      assert forall k :: 0 < k < |s| ==> s[k] == s[1..][k - 1];
      i := n + 1;
    }
  }

  lemma {:induction false} TrimRightCuts(s: string) returns (j: nat)
    ensures j <= |s| && TrimRight(s) == s[..j] && (j > 0 ==> !IsSpace(s[j - 1]))
    ensures forall k :: j <= k < |s| ==> IsSpace(s[k])
    decreases |s|
  {
    j := |s|;
    if s != [] && IsSpace(s[|s| - 1]) { j := TrimRightCuts(s[..|s| - 1]); }
  }

  lemma {:induction false} TrimSpaceBetween(left: string, s: string, right: string)
    requires Blank(left) && Blank(right) && s != "" && Trimmed(s)
    ensures TrimSpace(left + s + right) == s
    decreases |left| + |right|
  {
    var whole := left + s + right;
    if left != [] {
      assert whole[0] == left[0] && left[0] in left && whole[1..] == left[1..] + s + right;
      assert forall c :: c in left[1..] ==> c in left;
      TrimSpaceBetween(left[1..], s, right);
    } else {
      assert whole == s + right && whole[0] == s[0];
      TrimRightBehind(s, right);
    }
  }

  lemma {:induction false} TrimRightBehind(s: string, right: string)
    requires Blank(right) && s != "" && Trimmed(s)
    ensures TrimRight(s + right) == s
    decreases |right|
  {
    var n := |right| - 1;
    if right != [] {
      var whole := s + right;
      assert whole[|whole| - 1] == right[n] && right[n] in right && whole[..|whole| - 1] == s + right[..n];
      assert forall c :: c in right[..n] ==> c in right;
      TrimRightBehind(s, right[..n]);
    } else {
      assert s + right == s;
    }
  }

  lemma {:induction false} TrimSlashesBehind(s: string, slashes: string)
    requires (forall c :: c in slashes ==> c == '/') && (s != "" ==> s[|s| - 1] != '/')
    ensures TrimSlashes(s + slashes) == s
    decreases |slashes|
  {
    var n := |slashes| - 1;
    if slashes != [] {
      assert (s + slashes)[|s + slashes| - 1] == slashes[n] && (s + slashes)[..|s + slashes| - 1] == s + slashes[..n];
      assert slashes[n] in slashes && forall c :: c in slashes[..n] ==> c in slashes;
      TrimSlashesBehind(s, slashes[..n]);
    } else {
      assert s + slashes == s;
    }
  }

  // Blank is what has nothing but white space in it.
  predicate Blank(s: string) { forall c :: c in s ==> IsSpace(c) }

  lemma BlankIsEmptyTrimmed(s: string)
    ensures TrimSpace(s) == "" <==> Blank(s)
  {
    var i, j := TrimSpaceCuts(s);
    if TrimSpace(s) != "" { assert TrimSpace(s)[0] == s[i] && s[i] in s; }
  }

  lemma {:induction false} TrimSlashesCuts(s: string) returns (j: nat)
    ensures j <= |s| && TrimSlashes(s) == s[..j] && (j > 0 ==> s[j - 1] != '/')
    ensures forall k :: j <= k < |s| ==> s[k] == '/'
    decreases |s|
  {
    j := |s|;
    if s != [] && s[|s| - 1] == '/' { j := TrimSlashesCuts(s[..|s| - 1]); }
  }

  // strings.Split with a one-character separator, which never returns an empty list.
  function Split(s: string, sep: char): (parts: seq<string>)
    ensures |parts| >= 1
  {
    if s == [] then [[]]
    else
      var rest := Split(s[1..], sep);
      if s[0] == sep then [[]] + rest else [[s[0]] + rest[0]] + rest[1..]
  }

  // strings.Join with a one-character separator.
  function Join(parts: seq<string>, sep: char): string {
    if parts == [] then []
    else if |parts| == 1 then parts[0]
    else parts[0] + [sep] + Join(parts[1..], sep)
  }

  lemma {:induction false} SplitSolid(s: string, sep: char)
    requires sep !in s
    ensures Split(s, sep) == [s]
  {
    if s != [] {
      SplitSolid(s[1..], sep);
      assert [s[0]] + s[1..] == s;
    }
  }

  lemma {:induction false} SplitAt(a: string, sep: char, b: string)
    ensures Split(a + [sep] + b, sep) == Split(a, sep) + Split(b, sep)
  {
    var whole := a + [sep] + b;
    if a == [] {
      assert whole[1..] == b;
    } else {
      assert whole[1..] == a[1..] + [sep] + b;
      SplitAt(a[1..], sep, b);
    }
  }

  // Splitting what was joined gives the parts back when no part holds the separator.
  lemma {:induction false} SplitJoin(parts: seq<string>, sep: char)
    requires parts != [] && forall p :: p in parts ==> sep !in p
    ensures Split(Join(parts, sep), sep) == parts
  {
    SplitSolid(parts[0], sep);
    if |parts| > 1 {
      SplitAt(parts[0], sep, Join(parts[1..], sep));
      SplitJoin(parts[1..], sep);
    }
  }

  // No part holds the separator, and joining the parts gives the string back.
  lemma {:induction false} JoinSplit(s: string, sep: char)
    ensures Join(Split(s, sep), sep) == s
    ensures forall p :: p in Split(s, sep) ==> sep !in p
  {
    if s != [] {
      JoinSplit(s[1..], sep);
      var rest := Split(s[1..], sep);
      if s[0] == sep {
        assert Split(s, sep)[1..] == rest;
      } else {
        assert Split(s, sep)[1..] == rest[1..];
        assert rest[0] in rest && forall p :: p in rest[1..] ==> p in rest;
      }
    }
  }

  // strings.Fields: the maximal runs without white space.
  function Fields(s: string): seq<string> {
    if s == [] then []
    else if IsSpace(s[0]) then Fields(s[1..])
    else
      var n := RunLength(s);
      [s[..n]] + Fields(s[n..])
  }

  function RunLength(s: string): (n: nat)
    ensures n <= |s|
    ensures s != [] && !IsSpace(s[0]) ==> n > 0
  {
    if s == [] || IsSpace(s[0]) then 0 else 1 + RunLength(s[1..])
  }

  predicate Solid(s: string) {
    s != [] && forall c :: c in s ==> !IsSpace(c)
  }

  lemma {:induction false} RunLengthSolid(a: string, b: string)
    requires forall c :: c in a ==> !IsSpace(c)
    requires b != [] ==> IsSpace(b[0])
    ensures RunLength(a + b) == |a|
  {
    if a == [] {
      assert a + b == b;
    } else {
      assert (a + b)[1..] == a[1..] + b;
      RunLengthSolid(a[1..], b);
    }
  }

  lemma {:induction false} FieldsJoin(parts: seq<string>)
    requires forall p :: p in parts ==> Solid(p)
    ensures Fields(Join(parts, ' ')) == parts
  {
    if parts != [] {
      var tail := if |parts| == 1 then [] else [' '] + Join(parts[1..], ' ');
      var whole := Join(parts, ' ');
      assert whole == parts[0] + tail;
      assert Solid(parts[0]) && whole[0] == parts[0][0];
      RunLengthSolid(parts[0], tail);
      assert whole[..|parts[0]|] == parts[0] && whole[|parts[0]|..] == tail;
      FieldsJoin(parts[1..]);
      if |parts| > 1 { assert tail[1..] == Join(parts[1..], ' '); }
    }
  }

  // White space anywhere separates: what is on either side is cut up by itself.
  lemma {:induction false} FieldsAt(a: string, c: char, b: string)
    requires IsSpace(c)
    ensures Fields(a + [c] + b) == Fields(a) + Fields(b)
    decreases |a|
  {
    var whole := a + [c] + b;
    if a == [] {
      assert whole[1..] == b;
    } else if IsSpace(a[0]) {
      assert whole[1..] == a[1..] + [c] + b;
      FieldsAt(a[1..], c, b);
    } else {
      var n := RunLength(a);
      RunStops(a, [c] + b);
      assert whole == a + ([c] + b) && whole[..n] == a[..n] && whole[n..] == a[n..] + [c] + b;
      FieldsAt(a[n..], c, b);
    }
  }

  lemma {:induction false} RunStops(a: string, b: string)
    requires b != [] && IsSpace(b[0])
    ensures RunLength(a + b) == RunLength(a)
  {
    if a == [] {
      assert a + b == b;
    } else {
      assert (a + b)[1..] == a[1..] + b;
      RunStops(a[1..], b);
    }
  }
}
