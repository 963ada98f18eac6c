// internal/cli/credentials.go: the stored profiles, bringing an old file forward, and which credential
// a command uses.
module Profiles {
  import opened Wrappers
  import opened Text
  import Order

  const DEFAULT := "default"

  datatype Profile = Profile(server: string, accessToken: string, refreshToken: string, rest: string)

  datatype Credentials = Credentials(active: string, profiles: map<string, Profile>)

  // url.Parse, as far as the host goes.
  type Hosts = string -> Option<string>

  // credentials.go:86-98
  function ProfileName(hosts: Hosts, server: string): Option<string> {
    var trimmed := TrimSlashes(TrimSpace(server));
    if trimmed == "" then None
    else match hosts(trimmed) case None => None case Some(h) => if h == "" then None else Some(h)
  }

  // A profile is named after the host of its server, whatever blanks stand around it and slashes behind.
  lemma NamedAfterTheHost(hosts: Hosts, left: string, core: string, slashes: string, right: string)
    requires Blank(left) && Blank(right) && (forall c :: c in slashes ==> c == '/')
    requires core != "" && Trimmed(core) && core[|core| - 1] != '/'
    ensures ProfileName(hosts, left + (core + slashes) + right) ==
      match hosts(core) case None => None case Some(h) => if h == "" then None else Some(h)
  {
    assert slashes != "" ==> (core + slashes)[|core + slashes| - 1] in slashes;
    TrimSpaceBetween(left, core + slashes, right);
    TrimSlashesBehind(core, slashes);
  }

  // And a server of nothing but blanks names no profile.
  lemma NamedAfterNothing(hosts: Hosts, server: string)
    requires Blank(server)
    ensures ProfileName(hosts, server).None?
  {
    BlankIsEmptyTrimmed(server);
  }

  predicate SameServer(a: Profile, b: Profile) { TrimSlashes(a.server) == TrimSlashes(b.server) }

  // The name a `default` profile is to have, when there is one and its server names a host.
  function NewName(hosts: Hosts, c: Credentials): Option<string> {
    if DEFAULT !in c.profiles then None
    else
      match ProfileName(hosts, c.profiles[DEFAULT].server)
      case None => None
      case Some(name) => if name == DEFAULT then None else Some(name)
  }

  function Renamed(hosts: Hosts, c: Credentials): Credentials {
    match NewName(hosts, c)
    case None => c
    case Some(name) =>
      var legacy := c.profiles[DEFAULT];
      Credentials(
        if c.active == "" || c.active == DEFAULT then name else c.active,
        if name !in c.profiles then c.profiles[name := legacy] - {DEFAULT}
        else if SameServer(c.profiles[name], legacy) then c.profiles - {DEFAULT}
        else c.profiles)
  }

  function Only(profiles: map<string, Profile>): string
    requires |profiles| == 1
  {
    OnlyOne(profiles);
    var n :| n in profiles; n
  }

  lemma OnlyOne(profiles: map<string, Profile>)
    requires |profiles| == 1
    ensures exists n :: n in profiles
    ensures forall m, n :: m in profiles && n in profiles ==> m == n
  {
    assert |profiles.Keys| == 1;
    var n :| n in profiles.Keys;
    assert |profiles.Keys - {n}| == 0;
    assert profiles.Keys == {n};
  }

  // The active profile is a stored one, and a lone profile is active.
  function Activated(c: Credentials): Credentials {
    var active := if c.active !in c.profiles then "" else c.active;
    c.(active := if active == "" && |c.profiles| == 1 then Only(c.profiles) else active)
  }

  function Migrated(hosts: Hosts, c: Credentials): Credentials { Activated(Renamed(hosts, c)) }

  // credentials.go:114-147
  method Migrate(hosts: Hosts, c: Credentials) returns (r: Credentials)
    ensures r == Migrated(hosts, c)
  {
    var active, profiles := c.active, c.profiles;
    if DEFAULT in profiles {
      var legacy := profiles[DEFAULT];
      var name := ProfileName(hosts, legacy.server);
      if name.Some? && name.value != DEFAULT {
        if name.value !in profiles {
          profiles := profiles[name.value := legacy];
          profiles := profiles - {DEFAULT};
        } else if TrimSlashes(profiles[name.value].server) == TrimSlashes(legacy.server) {
          profiles := profiles - {DEFAULT};
        }
        if active == "" || active == DEFAULT { active := name.value; }
      }
    }
    assert Credentials(active, profiles) == Renamed(hosts, c);
    if active != "" && active !in profiles { active := ""; }
    if active == "" && |profiles| == 1 {
      OnlyOne(profiles);
      var only :| only in profiles;
      active := only;
    }
    return Credentials(active, profiles);
  }

  // ----- what migrating promises -----

  ghost predicate Settled(c: Credentials) {
    && (c.active == "" || c.active in c.profiles)
    && (|c.profiles| == 1 ==> c.active in c.profiles)
  }

  lemma MigratedIsSettled(hosts: Hosts, c: Credentials)
    ensures Settled(Migrated(hosts, c))
  {
    var t := Renamed(hosts, c);
    if |t.profiles| == 1 { OnlyOne(t.profiles); }
  }

  // Nothing is lost: every profile is kept as it was, a `default` one perhaps under its host's name,
  // and a `default` one is dropped only when the host's profile is for the same server.
  lemma MigrationLosesNothing(hosts: Hosts, c: Credentials)
    ensures var t := Migrated(hosts, c);
      && (forall n :: n in c.profiles && n != DEFAULT ==> n in t.profiles && t.profiles[n] == c.profiles[n])
      && (DEFAULT in c.profiles ==>
            || (DEFAULT in t.profiles && t.profiles[DEFAULT] == c.profiles[DEFAULT])
            || exists n :: n in t.profiles && ProfileName(hosts, c.profiles[DEFAULT].server) == Some(n) &&
                 (|| t.profiles[n] == c.profiles[DEFAULT]
                  || (n in c.profiles && SameServer(t.profiles[n], c.profiles[DEFAULT]))))
      && (forall n :: n in t.profiles && n !in c.profiles ==>
            && DEFAULT in c.profiles && ProfileName(hosts, c.profiles[DEFAULT].server) == Some(n)
            && t.profiles[n] == c.profiles[DEFAULT])
  {
  }

  // A profile of another server has the name the `default` one should get, and the file names an
  // active profile that is not there.
  predicate Stuck(hosts: Hosts, c: Credentials) {
    var name := NewName(hosts, c);
    && name.Some? && name.value in c.profiles && !SameServer(c.profiles[name.value], c.profiles[DEFAULT])
    && c.active != "" && c.active != DEFAULT && c.active !in c.profiles
  }

  // A `default` profile that is still there after renaming and could be renamed is in conflict.
  lemma StillThere(hosts: Hosts, c: Credentials)
    requires NewName(hosts, Renamed(hosts, c)).Some?
    ensures Renamed(hosts, c).profiles == c.profiles && NewName(hosts, c) == NewName(hosts, Renamed(hosts, c))
    ensures var name := NewName(hosts, c).value;
      && name in c.profiles && !SameServer(c.profiles[name], c.profiles[DEFAULT])
      && name != "" && name != DEFAULT && |c.profiles| >= 2
  {
    var name := NewName(hosts, c).value;
    assert {name, DEFAULT} <= c.profiles.Keys;
    if |c.profiles| == 1 { OnlyOne(c.profiles); }
  }

  // Migrating twice is migrating once, exactly when the file is not stuck.
  lemma MigrationIsIdempotentIff(hosts: Hosts, c: Credentials)
    ensures Migrated(hosts, Migrated(hosts, c)) == Migrated(hosts, c) <==> !Stuck(hosts, c)
  {
    var t := Renamed(hosts, c);
    assert NewName(hosts, Activated(t)) == NewName(hosts, t);
    if NewName(hosts, t).Some? {
      StillThere(hosts, c);
      var name := NewName(hosts, c).value;
      var once := Activated(t);
      assert once.active == if t.active !in c.profiles then "" else t.active;
      assert Stuck(hosts, c) <==> once.active == "";
      assert Renamed(hosts, once) == Credentials(if once.active == "" then name else once.active, c.profiles);
    }
  }

  // A file whose active profile is stored or empty is never stuck.
  lemma LiveIsNotStuck(hosts: Hosts, c: Credentials)
    requires c.active == "" || c.active in c.profiles
    ensures !Stuck(hosts, c)
  {
  }

  // Two migrations always reach a fixed point.
  lemma TwoMigrationsAreEnough(hosts: Hosts, c: Credentials)
    ensures var twice := Migrated(hosts, Migrated(hosts, c));
      Migrated(hosts, twice) == twice
  {
    MigratedIsSettled(hosts, c);
    LiveIsNotStuck(hosts, Migrated(hosts, c));
    MigrationIsIdempotentIff(hosts, Migrated(hosts, c));
  }

  // A stuck file: `default` and the host's profile name different servers, and the active name is stale.
  lemma MigrationIsNotIdempotent(hosts: Hosts)
    requires hosts("https://h/a") == Some("h")
    ensures exists c :: Migrated(hosts, Migrated(hosts, c)) != Migrated(hosts, c)
  {
    var mine, other := Profile("https://h/a", "t", "", ""), Profile("https://h/b", "u", "", "");
    var c := Credentials("gone", map[DEFAULT := mine, "h" := other]);
    TrimmedStays("https://h/a");
    assert ProfileName(hosts, "https://h/a") == Some("h");
    assert Stuck(hosts, c);
    MigrationIsIdempotentIff(hosts, c);
  }

  // ----- which credential a command uses -----

  datatype Source = EnvAccessToken | RefreshFile | FromProfile | NoCredential

  datatype Credential = Credential(server: string, token: string, source: Source, profile: string, refreshable: bool)

  datatype Env = Env(url: string, profile: string, accessToken: string, refreshFile: string, clientId: string)

  datatype ResolveError =
    | UnknownProfile(name: string)
    | NoServer
    | BadServer(server: string)
    | HalfPair
    | NoProfileForServer(server: string)

  predicate ServedBy(c: Credentials, n: string, server: string) {
    n in c.profiles && TrimSlashes(c.profiles[n].server) == server
  }

  // The lowest name that serves the server.
  ghost predicate FirstServing(c: Credentials, server: string, n: string) {
    ServedBy(c, n, server) && forall m :: ServedBy(c, m, server) ==> m == n || Order.Before(n, m)
  }

  lemma FirstInOrder(c: Credentials, server: string, names: seq<string>, i: nat)
    requires Order.Sorted(names) && Order.Holds(names, c.profiles.Keys) && i < |names|
    requires forall j :: 0 <= j < i ==> !ServedBy(c, names[j], server)
    requires ServedBy(c, names[i], server)
    ensures FirstServing(c, server, names[i])
  {
    forall m | ServedBy(c, m, server) ensures m == names[i] || Order.Before(names[i], m) {
      assert m in names;
      var j :| 0 <= j < |names| && names[j] == m;
    }
  }

  method ScanNames(c: Credentials, server: string, names: seq<string>) returns (r: Option<string>)
    requires Order.Sorted(names) && Order.Holds(names, c.profiles.Keys)
    ensures r.None? <==> forall n :: !ServedBy(c, n, server)
    ensures r.Some? ==> FirstServing(c, server, r.value)
  {
    for i := 0 to |names|
      invariant forall j :: 0 <= j < i ==> !ServedBy(c, names[j], server)
    {
      assert names[i] in names;
      if TrimSlashes(c.profiles[names[i]].server) == server {
        FirstInOrder(c, server, names, i);
        return Some(names[i]);
      }
    }
    return None;
  }

  // credentials.go:615-627
  method ProfileForServer(c: Credentials, server: string) returns (r: Option<string>)
    ensures r.None? <==> forall n :: !ServedBy(c, n, server)
    ensures r.Some? ==> FirstServing(c, server, r.value)
  {
    var names := Order.Sort(c.profiles.Keys);
    r := ScanNames(c, server, names);
  }

  // --server, else AGENT_GM_URL.
  function ExplicitServer(serverFlag: string, env: Env): string {
    var flag := TrimSlashes(TrimSpace(serverFlag));
    if flag != "" then flag else TrimSlashes(TrimSpace(env.url))
  }

  function Requested(profileFlag: string, env: Env): string { if profileFlag != "" then profileFlag else env.profile }

  // --profile, else AGENT_GM_PROFILE, else the active profile.
  function Selected(c: Credentials, profileFlag: string, env: Env): string {
    if Requested(profileFlag, env) != "" then Requested(profileFlag, env) else c.active
  }

  predicate Chosen(c: Credentials, profileFlag: string, env: Env) {
    Selected(c, profileFlag, env) != "" && Selected(c, profileFlag, env) in c.profiles
  }

  function Used(cred: Credential, p: Profile, n: string): Credential {
    cred.(token := p.accessToken, profile := n, source := FromProfile, refreshable := p.refreshToken != "")
  }

  // The answer is a stored profile's, for the server that profile is stored for.
  predicate StaysHome(c: Credentials, r: Credential) {
    && ServedBy(c, r.profile, r.server)
    && r.token == c.profiles[r.profile].accessToken
    && (r.refreshable <==> c.profiles[r.profile].refreshToken != "")
  }

  // credentials.go:575-602: nothing in the environment, so what is stored.
  method FromStore(c: Credentials, server: string, explicitServer: bool, name: string, hasProfile: bool)
    returns (r: Result<Credential, ResolveError>)
    requires hasProfile ==> name in c.profiles
    requires !explicitServer ==> server == if hasProfile then TrimSlashes(c.profiles[name].server) else ""
    ensures r.Ok? ==> r.value.server == server && r.value.source in {FromProfile, NoCredential}
    ensures r.Ok? && r.value.source == FromProfile ==>
      && StaysHome(c, r.value)
      && (if hasProfile && ServedBy(c, name, server) then r.value.profile == name
          else explicitServer && FirstServing(c, server, r.value.profile))
    ensures r.Ok? ==> (r.value.source == NoCredential <==> !explicitServer && !hasProfile)
    ensures r.Ok? && r.value.source == NoCredential ==> r.value == Credential(server, "", NoCredential, name, false)
    ensures r.Err? <==> explicitServer && forall n :: !ServedBy(c, n, server)
    ensures r.Err? ==> r.error == NoProfileForServer(server)
  {
    var cred := Credential(server, "", NoCredential, name, false);
    if !explicitServer {
      if hasProfile { return Ok(Used(cred, c.profiles[name], name)); }
      return Ok(cred);
    }
    if hasProfile && TrimSlashes(c.profiles[name].server) == server {
      assert ServedBy(c, name, server);
      return Ok(Used(cred, c.profiles[name], name));
    }
    var other := ProfileForServer(c, server);
    if other.Some? { return Ok(Used(cred, c.profiles[other.value], other.value)); }
    return Err(NoProfileForServer(server));
  }

  // The server is the one asked for; only when none is asked for is it the selected profile's.
  function Server(c: Credentials, env: Env, serverFlag: string, profileFlag: string): string {
    if ExplicitServer(serverFlag, env) != "" then ExplicitServer(serverFlag, env)
    else if Chosen(c, profileFlag, env) then TrimSlashes(c.profiles[Selected(c, profileFlag, env)].server) else ""
  }

  // credentials.go:548-563
  method ResolveLogin(hosts: Hosts, c: Credentials, env: Env, serverFlag: string, profileFlag: string)
    returns (r: Result<Credential, ResolveError>)
    // A login never uses a stored token.
    ensures r.Ok? ==> r.value.source == (if env.accessToken != "" then EnvAccessToken else NoCredential)
    ensures r.Ok? ==> r.value.token == env.accessToken && !r.value.refreshable
    // The server is --server, else AGENT_GM_URL, else that of the stored profile that is selected.
    ensures
      var flag, url := TrimSlashes(TrimSpace(serverFlag)), TrimSlashes(TrimSpace(env.url));
      var name := if profileFlag != "" then profileFlag else if env.profile != "" then env.profile else c.active;
      var server := if flag != "" then flag else if url != "" then url
                    else if name != "" && name in c.profiles then TrimSlashes(c.profiles[name].server) else "";
      && (r.Ok? ==> r.value.server == server)
      && (r.Err? <==> server == "" || (profileFlag == "" && env.profile == "" && ProfileName(hosts, server).None?))
      && (r.Err? ==> r.error == if server == "" then NoServer else BadServer(server))
    // The profile is --profile, else AGENT_GM_PROFILE, else named after the server's host.
    ensures r.Ok? && profileFlag != "" ==> r.value.profile == profileFlag
    ensures r.Ok? && profileFlag == "" && env.profile != "" ==> r.value.profile == env.profile
    ensures r.Ok? && profileFlag == "" && env.profile == "" ==>
      ProfileName(hosts, r.value.server) == Some(r.value.profile)
  {
    var server := Server(c, env, serverFlag, profileFlag);
    if server == "" { return Err(NoServer); }
    var name := Requested(profileFlag, env);
    if name == "" {
      var derived := ProfileName(hosts, server);
      if derived.None? { return Err(BadServer(server)); }
      name := derived.value;
    }
    if env.accessToken != "" { return Ok(Credential(server, env.accessToken, EnvAccessToken, name, false)); }
    return Ok(Credential(server, "", NoCredential, name, false));
  }

  // credentials.go:498-603 for every command but a login, from the file as loaded.
  method ResolveCredential(c: Credentials, env: Env, serverFlag: string, profileFlag: string)
    returns (r: Result<Credential, ResolveError>)
    // The server is --server, else AGENT_GM_URL, else that of the stored profile that is selected, which
    // is --profile, else AGENT_GM_PROFILE, else the active one.
    ensures
      var flag, url := TrimSlashes(TrimSpace(serverFlag)), TrimSlashes(TrimSpace(env.url));
      var name := if profileFlag != "" then profileFlag else if env.profile != "" then env.profile else c.active;
      var stored := name != "" && name in c.profiles;
      && (r.Ok? ==> r.value.server == if flag != "" then flag else if url != "" then url
                                      else if stored then TrimSlashes(c.profiles[name].server) else "")
      && (r.Ok? && r.value.source != FromProfile ==> r.value.profile == name)
      // A stored token only ever goes to the server it is stored for: the selected profile when it
      // serves that server, else the first by name that does.
      && (r.Ok? && r.value.source == FromProfile ==>
            && StaysHome(c, r.value)
            && (if stored && ServedBy(c, name, r.value.server) then r.value.profile == name
                else FirstServing(c, r.value.server, r.value.profile)))
      && (r.Ok? && r.value.source == NoCredential ==> r.value.token == "" && !r.value.refreshable)
      && (r.Ok? ==> (r.value.source == NoCredential <==>
                       env.accessToken == "" && env.refreshFile == "" && flag == "" && url == "" && !stored))
    // The environment's access token beats the refresh file, which beats what is stored.
    ensures r.Ok? ==> (r.value.source == EnvAccessToken <==> env.accessToken != "")
    ensures r.Ok? && r.value.source == EnvAccessToken ==> r.value.token == env.accessToken && !r.value.refreshable
    ensures r.Ok? ==> (r.value.source == RefreshFile <==> env.accessToken == "" && env.refreshFile != "")
    ensures r.Ok? && r.value.source == RefreshFile ==> r.value.token == "" && r.value.refreshable
    // Refused for an unknown profile, half of a pair, or a server no profile is stored for.
    ensures
      var flag, url := TrimSlashes(TrimSpace(serverFlag)), TrimSlashes(TrimSpace(env.url));
      var server := if flag != "" then flag else url;
      var requested := if profileFlag != "" then profileFlag else env.profile;
      if requested != "" && requested !in c.profiles then r == Err(UnknownProfile(requested))
      else if env.accessToken == "" && env.refreshFile != "" && env.clientId == "" then r == Err(HalfPair)
      else if env.accessToken == "" && env.refreshFile == "" && server != "" && (forall n :: !ServedBy(c, n, server))
      then r == Err(NoProfileForServer(server))
      else r.Ok?
  {
    var requested := Requested(profileFlag, env);
    if requested != "" && requested !in c.profiles { return Err(UnknownProfile(requested)); }
    var name := Selected(c, profileFlag, env);
    var server := Server(c, env, serverFlag, profileFlag);
    if env.accessToken != "" { return Ok(Credential(server, env.accessToken, EnvAccessToken, name, false)); }
    if env.refreshFile != "" {
      if env.clientId == "" { return Err(HalfPair); }
      return Ok(Credential(server, "", RefreshFile, name, true));
    }
    r := FromStore(c, server, ExplicitServer(serverFlag, env) != "", name, Chosen(c, profileFlag, env));
  }
}
