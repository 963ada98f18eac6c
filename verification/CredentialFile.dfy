// internal/cli/credentials.go: writing the credentials file, one process at a time.
module CredentialFile {
  import opened Wrappers
  import opened Profiles
  import Text

  // What is on disk: nothing, white space, text that is not the file's JSON, or the credentials.
  datatype File = Missing | Blank | Broken | Stored(c: Credentials)

  datatype Op =
    | Save(name: string, p: Profile)
    | Update(name: string, p: Profile)
    | Delete(name: string)
    | SetActive(name: string)

  // credentials.go:181-204
  function Loaded(hosts: Hosts, file: File): Option<Credentials> {
    match file
    case Missing => Some(Credentials("", map[]))
    case Blank => Some(Credentials("", map[]))
    case Broken => None
    case Stored(c) => Some(Migrated(hosts, c))
  }

  // What an operation makes of the loaded file; choosing a profile that is not there is refused.
  function Edited(op: Op, c: Credentials): Option<Credentials> {
    match op
    case Save(name, p) => Some(Credentials(name, c.profiles[name := p]))
    case Update(name, p) => Some(c.(profiles := c.profiles[name := p]))
    case Delete(name) =>
      var profiles := c.profiles - {name};
      Some(Credentials(
        if c.active != name then c.active else if |profiles| == 1 then Only(profiles) else "",
        profiles))
    case SetActive(name) => if name in c.profiles then Some(c.(active := name)) else None
  }

  // The whole operation done in one go.
  function Applied(hosts: Hosts, op: Op, file: File): File {
    match Loaded(hosts, file)
    case None => file
    case Some(c) =>
      match Edited(op, c)
      case None => file
      case Some(t) => Stored(Migrated(hosts, t))
  }

  // Migrating leaves a profile alone, and active if it was, unless it is the `default` one.
  lemma NamedProfileStays(hosts: Hosts, c: Credentials, name: string)
    requires name in c.profiles
    ensures var t := Migrated(hosts, c);
      name != DEFAULT ==>
        && name in t.profiles && t.profiles[name] == c.profiles[name]
        && (c.active == name && name != "" ==> t.active == name)
  {
    MigrationLosesNothing(hosts, c);
  }

  method Without(c: Credentials, name: string) returns (t: Credentials)
    ensures Edited(Delete(name), c) == Some(t)
  {
    var profiles, active := c.profiles - {name}, c.active;
    if active == name {
      active := "";
      if |profiles| == 1 {
        OnlyOne(profiles);
        var only :| only in profiles;
        active := only;
      }
    }
    return Credentials(active, profiles);
  }

  class Store {
    const hosts: Hosts
    var file: File

    constructor (hosts: Hosts, file: File)
      ensures this.hosts == hosts && this.file == file
    {
      this.hosts := hosts;
      this.file := file;
    }

    method Load() returns (r: Option<Credentials>)
      ensures r == Loaded(hosts, file)
    {
      match file
      case Missing => return Some(Credentials("", map[]));
      case Blank => return Some(Credentials("", map[]));
      case Broken => return None;
      case Stored(c) =>
        var t := Migrate(hosts, c);
        return Some(t);
    }

    method Commit(c: Credentials)
      modifies this`file
      ensures file == Stored(Migrated(hosts, c))
    {
      var t := Migrate(hosts, c);
      file := Stored(t);
    }

    // credentials.go:346-357
    method SaveProfile(name: string, p: Profile) returns (ok: bool)
      modifies this`file
      ensures file == Applied(hosts, Save(name, p), old(file))
      ensures ok <==> Loaded(hosts, old(file)).Some?
      ensures ok && name != "" && name != DEFAULT ==>
        file.Stored? && file.c.active == name && name in file.c.profiles && file.c.profiles[name] == p
    {
      var c := Load();
      if c.None? { return false; }
      NamedProfileStays(hosts, Credentials(name, c.value.profiles[name := p]), name);
      Commit(Credentials(name, c.value.profiles[name := p]));
      return true;
    }

    // credentials.go:363-373
    method UpdateProfile(name: string, p: Profile) returns (ok: bool)
      modifies this`file
      ensures file == Applied(hosts, Update(name, p), old(file))
      ensures ok <==> Loaded(hosts, old(file)).Some?
      ensures ok && name != DEFAULT ==> file.Stored? && name in file.c.profiles && file.c.profiles[name] == p
    {
      var c := Load();
      if c.None? { return false; }
      NamedProfileStays(hosts, c.value.(profiles := c.value.profiles[name := p]), name);
      Commit(c.value.(profiles := c.value.profiles[name := p]));
      return true;
    }

    // credentials.go:379-394
    method DeleteProfile(name: string) returns (ok: bool)
      modifies this`file
      ensures file == Applied(hosts, Delete(name), old(file))
      ensures ok <==> Loaded(hosts, old(file)).Some?
      // Only a `default` profile that waited for the name can stand under it afterwards.
      ensures ok && file.Stored? && name in file.c.profiles ==>
        var c := Loaded(hosts, old(file)).value;
        DEFAULT in c.profiles && file.c.profiles[name] == c.profiles[DEFAULT]
    {
      var c := Load();
      if c.None? { return false; }
      var t := Without(c.value, name);
      MigrationLosesNothing(hosts, t);
      Commit(t);
      return true;
    }

    // credentials.go:399-409
    method SetActiveProfile(name: string) returns (ok: bool)
      modifies this`file
      ensures file == Applied(hosts, SetActive(name), old(file))
      ensures ok <==> Loaded(hosts, old(file)).Some? && name in Loaded(hosts, old(file)).value.profiles
      ensures !ok ==> file == old(file)
      ensures ok && name != "" && name != DEFAULT ==> file.Stored? && file.c.active == name
    {
      var c := Load();
      if c.None? { return false; }
      if name !in c.value.profiles { return false; }
      NamedProfileStays(hosts, c.value.(active := name), name);
      Commit(c.value.(active := name));
      return true;
    }
  }

  // ----- what every write leaves behind -----

  lemma LoadedIsSettled(hosts: Hosts, file: File)
    ensures Loaded(hosts, file).Some? ==> Settled(Loaded(hosts, file).value)
  {
    if file.Stored? { MigratedIsSettled(hosts, file.c); }
  }

  lemma EditedIsLive(op: Op, c: Credentials)
    requires Settled(c) && Edited(op, c).Some?
    ensures var t := Edited(op, c).value; t.active == "" || t.active in t.profiles
  {
    if op.Delete? && |c.profiles - {op.name}| == 1 { OnlyOne(c.profiles - {op.name}); }
  }

  lemma LiveMigratesOnce(hosts: Hosts, t: Credentials)
    requires t.active == "" || t.active in t.profiles
    ensures Settled(Migrated(hosts, t)) && Loaded(hosts, Stored(Migrated(hosts, t))) == Some(Migrated(hosts, t))
  {
    LiveIsNotStuck(hosts, t);
    MigrationIsIdempotentIff(hosts, t);
    MigratedIsSettled(hosts, t);
  }

  // A file this program wrote is read back unchanged: migrating on the way out leaves migrating on the
  // way in nothing to do.
  lemma WrittenFilesAreFixed(hosts: Hosts, op: Op, file: File)
    requires Loaded(hosts, file).Some? && Edited(op, Loaded(hosts, file).value).Some?
    ensures var t := Applied(hosts, op, file);
      t.Stored? && Settled(t.c) && Loaded(hosts, t) == Some(t.c)
  {
    var c := Loaded(hosts, file).value;
    LoadedIsSettled(hosts, file);
    WrittenIsFixed(hosts, op, c);
    assert Applied(hosts, op, file) == Stored(Migrated(hosts, Edited(op, c).value));
  }

  lemma WrittenIsFixed(hosts: Hosts, op: Op, c: Credentials)
    requires Settled(c) && Edited(op, c).Some?
    ensures var t := Migrated(hosts, Edited(op, c).value);
      Settled(t) && Loaded(hosts, Stored(t)) == Some(t)
  {
    EditedIsLive(op, c);
    LiveMigratesOnce(hosts, Edited(op, c).value);
  }

  // Whether writing a file whose active profile is stored or empty leaves the choice alone.
  predicate KeepsChoice(hosts: Hosts, c: Credentials) {
    if c.active == "" then NewName(hosts, c).None? && (|c.profiles| == 1 ==> Only(c.profiles) == "")
    else !(c.active == DEFAULT && NewName(hosts, c).Some?)
  }

  // Storing a rotated token changes which profile is active only by making one active where none was
  // -- a lone profile, or one being renamed -- or by renaming an active `default`.
  lemma UpdateKeepsTheChoiceIff(hosts: Hosts, name: string, p: Profile, file: File)
    requires Loaded(hosts, file).Some?
    ensures var c := Loaded(hosts, file).value;
      var t := Applied(hosts, Update(name, p), file);
      t.Stored? && (t.c.active == c.active <==> KeepsChoice(hosts, Edited(Update(name, p), c).value))
  {
    LoadedIsSettled(hosts, file);
    var e := Edited(Update(name, p), Loaded(hosts, file).value).value;
    EditedIsLive(Update(name, p), Loaded(hosts, file).value);
    MigrationKeepsTheChoiceIff(hosts, e);
  }

  // An update that activates a profile where none was active: the file names one that is gone, and the
  // `default` profile, whose name another server's profile has, is to be renamed.
  lemma AnUpdateCanActivate(hosts: Hosts, p: Profile)
    requires hosts("https://h/a") == Some("h") && p.server == "https://h/b"
    ensures var file := Stored(Credentials("gone", map[DEFAULT := Profile("https://h/a", "t", "", ""), "h" := p]));
      var t := Applied(hosts, Update("h", p), file);
      && Loaded(hosts, file).Some? && Loaded(hosts, file).value.active == ""
      && t.Stored? && t.c.active == "h"
  {
    var profiles := map[DEFAULT := Profile("https://h/a", "t", "", ""), "h" := p];
    var c := Credentials("gone", profiles);
    Text.TrimmedStays("https://h/a");
    Text.TrimmedStays("https://h/b");
    assert ProfileName(hosts, "https://h/a") == Some("h");
    assert NewName(hosts, c) == Some("h") && !SameServer(p, profiles[DEFAULT]);
    assert |profiles| == 2;
    assert Migrated(hosts, c) == Credentials("", profiles);
    assert profiles["h" := p] == profiles;
    assert Renamed(hosts, Credentials("", profiles)) == Credentials("h", profiles);
  }

  lemma MigrationKeepsTheChoiceIff(hosts: Hosts, c: Credentials)
    requires c.active == "" || c.active in c.profiles
    ensures Migrated(hosts, c).active == c.active <==> KeepsChoice(hosts, c)
  {
    if NewName(hosts, c).None? {
      assert Renamed(hosts, c) == c;
    } else {
      var name, t := NewName(hosts, c).value, Renamed(hosts, c);
      assert name != "" && name in t.profiles && t.active in t.profiles;
      assert Activated(t).active == t.active;
    }
  }

  // In particular a rotation leaves an active profile active.
  lemma UpdateKeepsTheActiveProfile(hosts: Hosts, name: string, p: Profile, file: File)
    requires Loaded(hosts, file).Some? && name != DEFAULT && Loaded(hosts, file).value.active != ""
    ensures var t := Applied(hosts, Update(name, p), file);
      t.Stored? && t.c.active == Loaded(hosts, file).value.active
  {
    var c := Loaded(hosts, file).value;
    if c.active == DEFAULT { ActiveDefaultStays(hosts, file); }
    UpdateKeepsTheChoiceIff(hosts, name, p, file);
  }

  // A loaded file whose active profile is `default` is one whose `default` profile cannot be renamed.
  lemma ActiveDefaultStays(hosts: Hosts, file: File)
    requires Loaded(hosts, file).Some? && Loaded(hosts, file).value.active == DEFAULT
    ensures NewName(hosts, Loaded(hosts, file).value).None?
  {
    if file.Stored? {
      var t := Renamed(hosts, file.c);
      if NewName(hosts, t).Some? { StillThere(hosts, file.c); }
    }
  }

  // An operation touches the profile it names and, besides, only a `default` one being renamed.
  lemma OtherProfilesAreKept(hosts: Hosts, op: Op, file: File, n: string)
    requires Loaded(hosts, file).Some? && Edited(op, Loaded(hosts, file).value).Some?
    requires n in Loaded(hosts, file).value.profiles && n != op.name && n != DEFAULT
    ensures var t := Applied(hosts, op, file);
      t.Stored? && n in t.c.profiles && t.c.profiles[n] == Loaded(hosts, file).value.profiles[n]
  {
    var t := Edited(op, Loaded(hosts, file).value).value;
    assert n in t.profiles && t.profiles[n] == Loaded(hosts, file).value.profiles[n];
    MigrationLosesNothing(hosts, t);
  }

  // ----- many processes -----

  // A process holding the lock: it has an operation to do, and perhaps the file read for it.
  datatype Holder = Holder(pid: nat, op: Op, read: Option<Credentials>)

  datatype Sys = Sys(file: File, lock: Option<Holder>)

  datatype Action =
    | Begin(pid: nat, op: Op)          // takes the lock when it is free
    | Read(pid: nat)
    | Commit(pid: nat, renamed: bool)  // the rename may fail; the lock goes either way
    | Close(pid: nat)                  // gives up, or dies

  predicate Holds(s: Sys, pid: nat) { s.lock.Some? && s.lock.value.pid == pid }

  // What a commit would write, when the holder has read the file and its operation is not refused.
  function Prepared(s: Sys): Option<Credentials> {
    if s.lock.Some? && s.lock.value.read.Some? then Edited(s.lock.value.op, s.lock.value.read.value) else None
  }

  function Step(hosts: Hosts, s: Sys, action: Action): Sys {
    match action
    case Begin(pid, op) => if s.lock.Some? then s else s.(lock := Some(Holder(pid, op, None)))
    case Read(pid) =>
      if !Holds(s, pid) then s
      else
        (match Loaded(hosts, s.file)
         case None => s.(lock := None)
         case Some(c) => s.(lock := Some(s.lock.value.(read := Some(c)))))
    case Commit(pid, renamed) =>
      if !Holds(s, pid) || Prepared(s).None? then s
      else Sys(if renamed then Stored(Migrated(hosts, Prepared(s).value)) else s.file, None)
    case Close(pid) => if Holds(s, pid) then s.(lock := None) else s
  }

  function Run(hosts: Hosts, s: Sys, actions: seq<Action>): Sys
    decreases actions
  {
    if actions == [] then s else Run(hosts, Step(hosts, s, actions[0]), actions[1..])
  }

  // The operations whose rename took effect, in that order.
  function Committed(hosts: Hosts, s: Sys, actions: seq<Action>): seq<Op>
    decreases actions
  {
    if actions == [] then []
    else
      (match actions[0]
       case Commit(pid, renamed) => if Holds(s, pid) && Prepared(s).Some? && renamed then [s.lock.value.op] else []
       case _ => [])
      + Committed(hosts, Step(hosts, s, actions[0]), actions[1..])
  }

  function InTurn(hosts: Hosts, ops: seq<Op>, file: File): File
    decreases ops
  {
    if ops == [] then file else InTurn(hosts, ops[1..], Applied(hosts, ops[0], file))
  }

  // Whoever holds the lock has read the file as it still is.
  ghost predicate ReadIsCurrent(hosts: Hosts, s: Sys) {
    s.lock.Some? && s.lock.value.read.Some? ==> Loaded(hosts, s.file) == s.lock.value.read
  }

  // While one process holds the lock no other takes it or writes, and it is given up by a commit whether
  // the rename worked or not, by a file that cannot be read, and by a process that dies.
  lemma OneHolderAtATime(hosts: Hosts, s: Sys, pid: nat, other: nat, op: Op, renamed: bool)
    requires Holds(s, pid) && other != pid
    ensures Step(hosts, s, Begin(other, op)) == Step(hosts, s, Read(other)) == s
    ensures Step(hosts, s, Commit(other, renamed)) == Step(hosts, s, Close(other)) == s
    ensures Step(hosts, s, Close(pid)) == Sys(s.file, None)
    ensures Loaded(hosts, s.file).None? ==> Step(hosts, s, Read(pid)) == Sys(s.file, None)
    ensures Prepared(s).Some? ==> Step(hosts, s, Commit(pid, renamed)).lock == None
    ensures Prepared(s).Some? && !renamed ==> Step(hosts, s, Commit(pid, renamed)).file == s.file
  {}

  lemma StepKeeps(hosts: Hosts, s: Sys, action: Action)
    requires ReadIsCurrent(hosts, s)
    ensures ReadIsCurrent(hosts, Step(hosts, s, action))
  {
  }

  // However processes interleave, fail and die, the file is what the operations that took effect make
  // of it one after the other: no update is lost.
  lemma {:induction false} WritesAreSerial(hosts: Hosts, s: Sys, actions: seq<Action>)
    requires ReadIsCurrent(hosts, s)
    ensures Run(hosts, s, actions).file == InTurn(hosts, Committed(hosts, s, actions), s.file)
    decreases actions
  {
    if actions != [] {
      var action, rest := actions[0], actions[1..];
      var t := Step(hosts, s, action);
      StepKeeps(hosts, s, action);
      WritesAreSerial(hosts, t, rest);
      var later := Committed(hosts, t, rest);
      if action.Commit? && Holds(s, action.pid) && Prepared(s).Some? && action.renamed {
        assert Committed(hosts, s, actions) == [s.lock.value.op] + later;
        assert ([s.lock.value.op] + later)[1..] == later;
      } else {
        assert t.file == s.file;
        assert Committed(hosts, s, actions) == [] + later == later;
      }
    }
  }
}
