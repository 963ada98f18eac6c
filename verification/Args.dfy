// internal/cli/args.go: one command's arguments, flags and positionals in any order.
module Args {
  import opened Wrappers

  datatype Kind = Bool | Valued

  datatype Parsed = Parsed(values: map<string, string>, given: map<string, bool>, pos: seq<string>)

  datatype UsageError = UnknownFlag(flag: string) | NotABool(flag: string, value: string) | NeedsAValue(flag: string)

  // strings.Cut(s, "=")
  function Cut(s: string): (r: (string, Option<string>)) {
    if s == [] then ("", None)
    else if s[0] == '=' then ("", Some(s[1..]))
    else var r := Cut(s[1..]); ([s[0]] + r.0, r.1)
  }

  predicate IsHelp(arg: string) { arg == "-h" || arg == "--help" }

  predicate IsFlag(arg: string) { "--" <= arg && arg != "--" && !IsHelp(arg) }

  predicate IsPositional(arg: string) { !("--" <= arg) && !IsHelp(arg) }

  // What one flag does, and whether it used the argument after it.
  datatype Turn = Turn(width: nat, acc: Parsed) | Bad(error: UsageError)

  function SetFlag(acc: Parsed, name: string, value: string, on: bool): Parsed {
    acc.(values := acc.values[name := value], given := acc.given[name := on])
  }

  function FlagTurn(args: seq<string>, kinds: map<string, Kind>, acc: Parsed): (t: Turn)
    requires args != []
    ensures t.Turn? ==> 1 <= t.width <= |args| && t.acc.pos == acc.pos
  {
    var cut := Cut(args[0]);
    var name, inline := cut.0, cut.1;
    if name !in kinds then Bad(UnknownFlag(name))
    else if kinds[name].Bool? then
      match inline
      case None => Turn(1, SetFlag(acc, name, "true", true))
      case Some(v) =>
        if v != "true" && v != "false" then Bad(NotABool(name, v))
        else Turn(1, SetFlag(acc, name, v, v == "true"))
    else
      match inline
      case Some(v) => Turn(1, SetFlag(acc, name, v, true))
      case None => if |args| < 2 then Bad(NeedsAValue(name)) else Turn(2, SetFlag(acc, name, args[1], true))
  }

  function Helped(acc: Parsed): Parsed { acc.(given := acc.given["--help" := true]) }

  function Parse(args: seq<string>, kinds: map<string, Kind>, acc: Parsed): Result<Parsed, UsageError>
    decreases |args|
  {
    if args == [] then Ok(acc)
    else if args[0] == "--" then Ok(acc.(pos := acc.pos + args[1..]))
    else if IsHelp(args[0]) then Parse(args[1..], kinds, Helped(acc))
    else if "--" <= args[0] then
      match FlagTurn(args, kinds, acc)
      case Bad(e) => Err(e)
      case Turn(n, next) => Parse(args[n..], kinds, next)
    else Parse(args[1..], kinds, acc.(pos := acc.pos + [args[0]]))
  }

  const NOTHING := Parsed(map[], map[], [])

  method OneFlag(args: seq<string>, idx: nat, kinds: map<string, Kind>, acc: Parsed) returns (t: Turn)
    requires idx < |args|
    ensures t == FlagTurn(args[idx..], kinds, acc)
  {
    var cut := Cut(args[idx]);
    var name, inline := cut.0, cut.1;
    if name !in kinds { return Bad(UnknownFlag(name)); }
    if kinds[name].Bool? {
      if inline.Some? {
        if inline.value != "true" && inline.value != "false" { return Bad(NotABool(name, inline.value)); }
        return Turn(1, SetFlag(acc, name, inline.value, inline.value == "true"));
      }
      return Turn(1, SetFlag(acc, name, "true", true));
    }
    if inline.Some? { return Turn(1, SetFlag(acc, name, inline.value, true)); }
    if idx + 1 >= |args| { return Bad(NeedsAValue(name)); }
    return Turn(2, SetFlag(acc, name, args[idx + 1], true));
  }

  // args.go:134-192
  method ParseArgs(args: seq<string>, kinds: map<string, Kind>) returns (r: Result<Parsed, UsageError>)
    ensures r == Parse(args, kinds, NOTHING)
  {
    var acc := NOTHING;
    var idx := 0;
    ghost var whole := Parse(args, kinds, NOTHING);
    assert args[0..] == args;
    while idx < |args|
      invariant 0 <= idx <= |args|
      invariant Parse(args[idx..], kinds, acc) == whole
      decreases |args| - idx
    {
      var arg := args[idx];
      if arg == "--" { return Ok(acc.(pos := acc.pos + args[idx + 1..])); }
      if arg == "-h" || arg == "--help" {
        acc := Helped(acc);
        idx := idx + 1;
      } else if "--" <= arg {
        var t := OneFlag(args, idx, kinds, acc);
        if t.Bad? { return Err(t.error); }
        acc := t.acc;
        idx := idx + t.width;
      } else {
        acc := acc.(pos := acc.pos + [arg]);
        idx := idx + 1;
      }
    }
    return Ok(acc);
  }

  // ----- flags and positionals in any order -----

  // A positional, a plain help flag, or a flag together with the value it takes.
  datatype Part = Positional(arg: string) | Help(arg: string) | Group(args: seq<string>)

  predicate PartOk(p: Part, kinds: map<string, Kind>) {
    match p
    case Positional(arg) => IsPositional(arg)
    case Help(arg) => IsHelp(arg)
    case Group(args) =>
      && args != [] && IsFlag(args[0])
      && FlagTurn(args, kinds, NOTHING).Turn? && FlagTurn(args, kinds, NOTHING).width == |args|
  }

  function PartArgs(p: Part): seq<string> {
    match p
    case Positional(arg) => [arg]
    case Help(arg) => [arg]
    case Group(args) => args
  }

  function Flat(parts: seq<Part>): seq<string> {
    if parts == [] then [] else PartArgs(parts[0]) + Flat(parts[1..])
  }

  function Flags(parts: seq<Part>): seq<Part> {
    if parts == [] then [] else (if parts[0].Positional? then [] else [parts[0]]) + Flags(parts[1..])
  }

  function Positionals(parts: seq<Part>): seq<string> {
    if parts == [] then [] else (if parts[0].Positional? then [parts[0].arg] else []) + Positionals(parts[1..])
  }

  function Played(p: Part, kinds: map<string, Kind>, acc: Parsed): Parsed
    requires PartOk(p, kinds)
  {
    match p
    case Positional(arg) => acc.(pos := acc.pos + [arg])
    case Help(_) => Helped(acc)
    case Group(args) => GroupTurn(args, kinds, acc); FlagTurn(args, kinds, acc).acc
  }

  // Whether a flag is well formed, and how much it takes, does not depend on what came before; it
  // never looks past its own group and never touches the positionals.
  lemma GroupTurn(args: seq<string>, kinds: map<string, Kind>, acc: Parsed)
    requires PartOk(Group(args), kinds)
    ensures FlagTurn(args, kinds, acc).Turn? && FlagTurn(args, kinds, acc).width == |args|
  {
  }

  ghost predicate AllOk(parts: seq<Part>, kinds: map<string, Kind>) {
    forall i :: 0 <= i < |parts| ==> PartOk(parts[i], kinds)
  }

  function Play(parts: seq<Part>, kinds: map<string, Kind>, acc: Parsed): Parsed
    requires AllOk(parts, kinds)
    decreases parts
  {
    if parts == [] then acc else Play(parts[1..], kinds, Played(parts[0], kinds, acc))
  }

  lemma ParsePart(p: Part, rest: seq<string>, kinds: map<string, Kind>, acc: Parsed)
    requires PartOk(p, kinds)
    ensures Parse(PartArgs(p) + rest, kinds, acc) == Parse(rest, kinds, Played(p, kinds, acc))
  {
    var args := PartArgs(p) + rest;
    match p
    case Positional(arg) => assert args[1..] == rest;
    case Help(arg) => assert args[1..] == rest;
    case Group(group) =>
      GroupTurn(group, kinds, acc);
      assert args[0] == group[0] && args[|group|..] == rest;
  }

  lemma {:induction false} ParseParts(parts: seq<Part>, rest: seq<string>, kinds: map<string, Kind>, acc: Parsed)
    requires AllOk(parts, kinds)
    ensures Parse(Flat(parts) + rest, kinds, acc) == Parse(rest, kinds, Play(parts, kinds, acc))
    decreases parts
  {
    if parts == [] {
      assert Flat(parts) + rest == rest;
    } else {
      assert Flat(parts) + rest == PartArgs(parts[0]) + (Flat(parts[1..]) + rest);
      ParsePart(parts[0], Flat(parts[1..]) + rest, kinds, acc);
      ParseParts(parts[1..], rest, kinds, Played(parts[0], kinds, acc));
    }
  }

  // A flag does the same whatever positionals there are, and leaves them alone.
  lemma FlagIgnoresPositionals(p: Part, kinds: map<string, Kind>, acc: Parsed, pos: seq<string>)
    requires PartOk(p, kinds) && !p.Positional?
    ensures Played(p, kinds, acc.(pos := pos)) == Played(p, kinds, acc).(pos := pos)
    ensures Played(p, kinds, acc).pos == acc.pos
  {
  }

  lemma {:induction false} FlagsIgnorePositionals(flags: seq<Part>, kinds: map<string, Kind>, acc: Parsed,
      pos: seq<string>)
    requires AllOk(flags, kinds) && (forall i :: 0 <= i < |flags| ==> !flags[i].Positional?)
    ensures Play(flags, kinds, acc.(pos := pos)) == Play(flags, kinds, acc).(pos := pos)
    decreases flags
  {
    if flags != [] {
      FlagIgnoresPositionals(flags[0], kinds, acc, pos);
      FlagsIgnorePositionals(flags[1..], kinds, Played(flags[0], kinds, acc), pos);
    }
  }

  lemma {:induction false} FlagsOk(parts: seq<Part>, kinds: map<string, Kind>)
    requires AllOk(parts, kinds)
    ensures AllOk(Flags(parts), kinds) && forall i :: 0 <= i < |Flags(parts)| ==> !Flags(parts)[i].Positional?
    decreases parts
  {
    if parts != [] {
      FlagsOk(parts[1..], kinds);
    }
  }

  ghost predicate ByKind(parts: seq<Part>, kinds: map<string, Kind>, acc: Parsed)
    requires AllOk(parts, kinds)
  {
    FlagsOk(parts, kinds);
    Play(parts, kinds, acc) == Play(Flags(parts), kinds, acc).(pos := acc.pos + Positionals(parts))
  }

  lemma PositionalFirst(p: Part, more: seq<Part>, kinds: map<string, Kind>, acc: Parsed)
    requires PartOk(p, kinds) && p.Positional? && AllOk(more, kinds) && AllOk([p] + more, kinds)
    requires ByKind(more, kinds, Played(p, kinds, acc))
    ensures ByKind([p] + more, kinds, acc)
  {
    var parts, pos := [p] + more, acc.pos + [p.arg];
    assert parts[1..] == more && Flags(parts) == Flags(more);
    FlagsOk(more, kinds);
    FlagsIgnorePositionals(Flags(more), kinds, acc, pos);
    assert pos + Positionals(more) == acc.pos + Positionals(parts);
  }

  lemma FlagFirst(p: Part, more: seq<Part>, kinds: map<string, Kind>, acc: Parsed)
    requires PartOk(p, kinds) && !p.Positional? && AllOk(more, kinds) && AllOk([p] + more, kinds)
    requires ByKind(more, kinds, Played(p, kinds, acc))
    ensures ByKind([p] + more, kinds, acc)
  {
    var parts := [p] + more;
    assert parts[1..] == more;
    FlagsOk(parts, kinds);
    FlagsOk(more, kinds);
    assert Flags(parts)[0] == p && Flags(parts)[1..] == Flags(more);
    assert Positionals(parts) == Positionals(more);
    FlagIgnoresPositionals(p, kinds, acc, acc.pos);
  }

  // What a command line comes to is fixed by its flags in their order and its positionals in theirs.
  lemma {:induction false} OrderBetweenKindsDoesNotMatter(parts: seq<Part>, kinds: map<string, Kind>, acc: Parsed)
    requires AllOk(parts, kinds)
    ensures AllOk(Flags(parts), kinds)
    ensures Play(parts, kinds, acc) == Play(Flags(parts), kinds, acc).(pos := acc.pos + Positionals(parts))
    decreases parts
  {
    FlagsOk(parts, kinds);
    if parts == [] {
      assert acc.pos + [] == acc.pos;
    } else {
      var p, more := parts[0], parts[1..];
      assert parts == [p] + more;
      OrderBetweenKindsDoesNotMatter(more, kinds, Played(p, kinds, acc));
      assert ByKind(more, kinds, Played(p, kinds, acc));
      if p.Positional? { PositionalFirst(p, more, kinds, acc); } else { FlagFirst(p, more, kinds, acc); }
      assert ByKind(parts, kinds, acc);
    }
  }

  // So two command lines with the same flags and the same positionals are the same command.
  lemma InterleavingDoesNotMatter(one: seq<Part>, two: seq<Part>, rest: seq<string>, kinds: map<string, Kind>)
    requires AllOk(one, kinds) && AllOk(two, kinds)
    requires Flags(one) == Flags(two) && Positionals(one) == Positionals(two)
    ensures Parse(Flat(one) + rest, kinds, NOTHING) == Parse(Flat(two) + rest, kinds, NOTHING)
  {
    ParseParts(one, rest, kinds, NOTHING);
    ParseParts(two, rest, kinds, NOTHING);
    OrderBetweenKindsDoesNotMatter(one, kinds, NOTHING);
    OrderBetweenKindsDoesNotMatter(two, kinds, NOTHING);
  }

  // In particular a positional and a flag group beside it may change places anywhere before a `--`.
  lemma SwapPositionalAndGroup(before: seq<Part>, arg: string, group: Part, rest: seq<string>, kinds: map<string, Kind>)
    requires AllOk(before, kinds) && IsPositional(arg) && PartOk(group, kinds) && !group.Positional?
    ensures Parse(Flat(before) + ([arg] + PartArgs(group) + rest), kinds, NOTHING)
         == Parse(Flat(before) + (PartArgs(group) + [arg] + rest), kinds, NOTHING)
  {
    var ahead := Play(before, kinds, NOTHING);
    var p := Positional(arg);
    ParseParts(before, [arg] + PartArgs(group) + rest, kinds, NOTHING);
    ParseParts(before, PartArgs(group) + [arg] + rest, kinds, NOTHING);
    ParseBoth(p, group, rest, kinds, ahead);
    ParseBoth(group, p, rest, kinds, ahead);
    FlagIgnoresPositionals(group, kinds, ahead, ahead.pos + [arg]);
  }

  lemma ParseBoth(p: Part, q: Part, rest: seq<string>, kinds: map<string, Kind>, acc: Parsed)
    requires PartOk(p, kinds) && PartOk(q, kinds)
    ensures Parse(PartArgs(p) + PartArgs(q) + rest, kinds, acc)
         == Parse(rest, kinds, Played(q, kinds, Played(p, kinds, acc)))
  {
    assert PartArgs(p) + PartArgs(q) + rest == PartArgs(p) + (PartArgs(q) + rest);
    ParsePart(p, PartArgs(q) + rest, kinds, acc);
    ParsePart(q, rest, kinds, Played(p, kinds, acc));
  }

  // The first part of a command line that parses.
  lemma FirstPart(args: seq<string>, kinds: map<string, Kind>, acc: Parsed)
      returns (p: Part, rest: seq<string>, next: Parsed)
    requires Parse(args, kinds, acc).Ok? && args != [] && args[0] != "--"
    ensures PartOk(p, kinds) && args == PartArgs(p) + rest && |rest| < |args|
    ensures Parse(rest, kinds, next) == Parse(args, kinds, acc)
  {
    if IsHelp(args[0]) {
      p, rest, next := Help(args[0]), args[1..], Helped(acc);
    } else if "--" <= args[0] {
      var t := FlagTurn(args, kinds, acc);
      p, rest, next := Group(args[..t.width]), args[t.width..], t.acc;
    } else {
      p, rest, next := Positional(args[0]), args[1..], acc.(pos := acc.pos + [args[0]]);
    }
  }

  lemma FlatFirst(p: Part, more: seq<Part>, tail: seq<string>)
    ensures Flat([p] + more) + tail == PartArgs(p) + (Flat(more) + tail)
  {
    assert ([p] + more)[1..] == more;
    assert Flat([p] + more) == PartArgs(p) + Flat(more);
  }

  // Every command line that parses is such a list of parts, followed by nothing or by `--` and the rest.
  lemma {:induction false} EveryParseHasParts(args: seq<string>, kinds: map<string, Kind>, acc: Parsed)
      returns (parts: seq<Part>, tail: seq<string>)
    requires Parse(args, kinds, acc).Ok?
    ensures AllOk(parts, kinds) && args == Flat(parts) + tail && (tail == [] || tail[0] == "--")
    decreases |args|
  {
    if args == [] || args[0] == "--" {
      parts, tail := [], args;
    } else {
      var first, rest, next := FirstPart(args, kinds, acc);
      var more;
      more, tail := EveryParseHasParts(rest, kinds, next);
      parts := [first] + more;
      FlatFirst(first, more, tail);
    }
  }

  // ----- writing a parse back -----

  lemma {:induction false} CutShape(s: string)
    ensures '=' !in Cut(s).0
    ensures s == Cut(s).0 + (if Cut(s).1.Some? then ['='] + Cut(s).1.value else [])
  {
    if s != [] && s[0] != '=' {
      CutShape(s[1..]);
      assert s == [s[0]] + s[1..];
    }
  }

  lemma {:induction false} CutJoined(name: string, value: string)
    requires '=' !in name
    ensures Cut(name + ['='] + value) == (name, Some(value))
  {
    var s := name + ['='] + value;
    if name == [] {
      assert s[1..] == value;
    } else {
      assert s[1..] == name[1..] + ['='] + value;
      CutJoined(name[1..], value);
      assert [name[0]] + name[1..] == name;
      assert name[0] in name;
    }
  }

  // Whether the last `--name=value` of this flag turned it on.
  function TurnsOn(kind: Kind, value: string): bool { kind.Valued? || value == "true" }

  ghost predicate FlagShaped(r: Parsed, kinds: map<string, Kind>, n: string)
    requires n in r.values
  {
    && n in kinds && "--" <= n && '=' !in n && n in r.given
    && (kinds[n].Bool? ==> r.values[n] == "true" || r.values[n] == "false")
    && (r.given[n] == TurnsOn(kinds[n], r.values[n]) || (n == "--help" && r.given[n]))
  }

  // What parsing leaves behind: every value belongs to a flag of the command, and only a plain help
  // flag is given without one.
  ghost predicate Shaped(r: Parsed, kinds: map<string, Kind>) {
    && (forall n :: n in r.values ==> FlagShaped(r, kinds, n))
    && (forall n :: n in r.given && n !in r.values ==> n == "--help" && r.given[n])
  }

  lemma TurnShaped(args: seq<string>, kinds: map<string, Kind>, acc: Parsed)
    requires args != [] && "--" <= args[0] && Shaped(acc, kinds) && FlagTurn(args, kinds, acc).Turn?
    ensures Shaped(FlagTurn(args, kinds, acc).acc, kinds)
  {
    CutShape(args[0]);
    var name := Cut(args[0]).0;
    var next := FlagTurn(args, kinds, acc).acc;
    assert args[0][0] == '-' && args[0][1] == '-';
    assert "--" <= name;
    assert FlagShaped(next, kinds, name);
    forall n | n in next.values && n != name ensures FlagShaped(next, kinds, n) { assert FlagShaped(acc, kinds, n); }
  }

  lemma {:induction false} ParseShaped(args: seq<string>, kinds: map<string, Kind>, acc: Parsed)
    requires Shaped(acc, kinds) && Parse(args, kinds, acc).Ok?
    ensures Shaped(Parse(args, kinds, acc).value, kinds)
    decreases |args|
  {
    if args == [] || args[0] == "--" {
    } else if IsHelp(args[0]) {
      ParseShaped(args[1..], kinds, Helped(acc));
    } else if "--" <= args[0] {
      TurnShaped(args, kinds, acc);
      var t := FlagTurn(args, kinds, acc);
      ParseShaped(args[t.width..], kinds, t.acc);
    } else {
      ParseShaped(args[1..], kinds, acc.(pos := acc.pos + [args[0]]));
    }
  }

  function FlagArgs(names: seq<string>, values: map<string, string>): seq<string>
    requires forall n :: n in names ==> n in values
  {
    if names == [] then [] else [names[0] + ['='] + values[names[0]]] + FlagArgs(names[1..], values)
  }

  // Every flag as `--name=value`, in whatever order; then help, `--` and the positionals.
  function Rendered(r: Parsed, names: seq<string>): seq<string>
    requires forall n :: n in names ==> n in r.values
  {
    FlagArgs(names, r.values)
    + ((if "--help" in r.given && r.given["--help"] then ["--help"] else []) + (["--"] + r.pos))
  }

  function Filled(names: seq<string>, values: map<string, string>, kinds: map<string, Kind>, acc: Parsed): Parsed
    requires forall n :: n in names ==> n in values && n in kinds
    decreases names
  {
    if names == [] then acc
    else
      var n := names[0];
      Filled(names[1..], values, kinds, SetFlag(acc, n, values[n], TurnsOn(kinds[n], values[n])))
  }

  lemma {:induction false} FilledWith(names: seq<string>, values: map<string, string>, kinds: map<string, Kind>,
      acc: Parsed)
    requires forall n :: n in names ==> n in values && n in kinds
    ensures var t := Filled(names, values, kinds, acc);
      && t.pos == acc.pos
      && (forall n :: n in names ==>
            && n in t.values && t.values[n] == values[n]
            && n in t.given && t.given[n] == TurnsOn(kinds[n], values[n]))
      && (forall n :: n !in names ==> (n in t.values <==> n in acc.values) && (n in t.given <==> n in acc.given))
    decreases names
  {
    if names != [] {
      var n := names[0];
      var next := SetFlag(acc, n, values[n], TurnsOn(kinds[n], values[n]));
      FilledWith(names[1..], values, kinds, next);
      if n !in names[1..] { FilledKeeps(names[1..], values, kinds, next, n); }
      assert forall m :: m in names <==> m == n || m in names[1..];
    }
  }

  lemma {:induction false} FilledKeeps(names: seq<string>, values: map<string, string>, kinds: map<string, Kind>,
      acc: Parsed, n: string)
    requires (forall m :: m in names ==> m in values && m in kinds) && n !in names && n in acc.values && n in acc.given
    ensures var t := Filled(names, values, kinds, acc);
      n in t.values && t.values[n] == acc.values[n] && n in t.given && t.given[n] == acc.given[n]
    decreases names
  {
    if names != [] {
      var m := names[0];
      FilledKeeps(names[1..], values, kinds, SetFlag(acc, m, values[m], TurnsOn(kinds[m], values[m])), n);
    }
  }

  lemma OneFlagRead(n: string, value: string, rest: seq<string>, kinds: map<string, Kind>, acc: Parsed)
    requires n in kinds && "--" <= n && '=' !in n && (kinds[n].Bool? ==> value == "true" || value == "false")
    ensures Parse([n + ['='] + value] + rest, kinds, acc)
         == Parse(rest, kinds, SetFlag(acc, n, value, TurnsOn(kinds[n], value)))
  {
    var arg := n + ['='] + value;
    CutJoined(n, value);
    assert '=' in arg;
    assert arg[0] == '-' && arg[1] == '-';
    assert "--" <= arg && arg != "--" && !IsHelp(arg);
    assert ([arg] + rest)[1..] == rest;
  }

  lemma {:induction false} FlagsRead(names: seq<string>, r: Parsed, rest: seq<string>, kinds: map<string, Kind>,
      acc: Parsed)
    requires Shaped(r, kinds) && forall n :: n in names ==> n in r.values
    ensures forall n :: n in names ==> n in kinds
    ensures Parse(FlagArgs(names, r.values) + rest, kinds, acc)
         == Parse(rest, kinds, Filled(names, r.values, kinds, acc))
    decreases names
  {
    forall n | n in names ensures n in kinds { assert FlagShaped(r, kinds, n); }
    if names == [] {
      assert FlagArgs(names, r.values) + rest == rest;
    } else {
      var n, more := names[0], FlagArgs(names[1..], r.values) + rest;
      assert FlagShaped(r, kinds, n);
      assert FlagArgs(names, r.values) + rest == [n + ['='] + r.values[n]] + more;
      OneFlagRead(n, r.values[n], more, kinds, acc);
      FlagsRead(names[1..], r, rest, kinds, SetFlag(acc, n, r.values[n], TurnsOn(kinds[n], r.values[n])));
    }
  }

  lemma TailRead(r: Parsed, help: bool, kinds: map<string, Kind>, acc: Parsed)
    ensures Parse((if help then ["--help"] else []) + (["--"] + r.pos), kinds, acc)
         == Ok((if help then Helped(acc) else acc).(pos := acc.pos + r.pos))
  {
    var tail := ["--"] + r.pos;
    assert tail[1..] == r.pos;
    if help {
      assert (["--help"] + tail)[1..] == tail;
    } else {
      assert [] + tail == tail;
    }
  }

  // Writing what a command line came to and parsing that gives the same again.
  lemma RenderingParsesBack(args: seq<string>, kinds: map<string, Kind>, names: seq<string>)
    requires Parse(args, kinds, NOTHING).Ok?
    requires forall n :: n in names <==> n in Parse(args, kinds, NOTHING).value.values
    ensures Parse(Rendered(Parse(args, kinds, NOTHING).value, names), kinds, NOTHING) == Parse(args, kinds, NOTHING)
  {
    var r := Parse(args, kinds, NOTHING).value;
    ParseShaped(args, kinds, NOTHING);
    var help := "--help" in r.given && r.given["--help"];
    FlagsRead(names, r, (if help then ["--help"] else []) + (["--"] + r.pos), kinds, NOTHING);
    TailRead(r, help, kinds, Filled(names, r.values, kinds, NOTHING));
    FilledIsIt(r, kinds, names);
  }

  lemma GivenIs(r: Parsed, kinds: map<string, Kind>, names: seq<string>, n: string)
    requires Shaped(r, kinds) && (forall n :: n in names <==> n in r.values) && (forall n :: n in names ==> n in kinds)
    ensures var t := Filled(names, r.values, kinds, NOTHING);
      var u := if "--help" in r.given && r.given["--help"] then Helped(t) else t;
      (n in u.given <==> n in r.given) && (n in r.given ==> u.given[n] == r.given[n])
  {
    FilledWith(names, r.values, kinds, NOTHING);
    if n in r.values { assert FlagShaped(r, kinds, n); }
  }

  lemma FilledIsIt(r: Parsed, kinds: map<string, Kind>, names: seq<string>)
    requires Shaped(r, kinds) && (forall n :: n in names <==> n in r.values) && (forall n :: n in names ==> n in kinds)
    ensures var t := Filled(names, r.values, kinds, NOTHING);
      (if "--help" in r.given && r.given["--help"] then Helped(t) else t).(pos := t.pos + r.pos) == r
  {
    FilledWith(names, r.values, kinds, NOTHING);
    var t := Filled(names, r.values, kinds, NOTHING);
    var u := if "--help" in r.given && r.given["--help"] then Helped(t) else t;
    assert t.values == r.values;
    forall n ensures (n in u.given <==> n in r.given) && (n in r.given ==> u.given[n] == r.given[n]) {
      GivenIs(r, kinds, names, n);
    }
    assert u.given == r.given;
    assert [] + r.pos == r.pos;
  }
}
