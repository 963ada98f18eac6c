// internal/cli/paste.go: the cookies of a pasted cURL command.
module Cookies {
  import opened Wrappers
  import opened Text
  import Shell

  // strings.ToLower, on ASCII letters.
  function Lower(s: string): (r: string)
    ensures |r| == |s| && forall i :: 0 <= i < |s| ==> r[i] == LowerChar(s[i])
  {
    if s == [] then [] else [LowerChar(s[0])] + Lower(s[1..])
  }

  // strings.Index
  function Index(s: string, p: string): (r: Option<nat>)
    ensures r.Some? ==> r.value + |p| <= |s| && s[r.value..r.value + |p|] == p
  {
    if p <= s then Some(0)
    else if s == [] then None
    else match Index(s[1..], p) case None => None case Some(i) => Some(i + 1)
  }

  // It is the first place, and there is none when there is no answer.
  lemma {:induction false} IndexIsFirst(s: string, p: string, i: nat)
    requires i + |p| <= |s| && s[i..i + |p|] == p
    ensures Index(s, p).Some? && Index(s, p).value <= i
  {
    if i == 0 {
      assert p <= s;
    } else if !(p <= s) {
      assert s[1..][i - 1..i - 1 + |p|] == s[i..i + |p|];
      IndexIsFirst(s[1..], p, i - 1);
    }
  }

  const HEADER := "cookie:"

  // What one token, with the one after it, says: how many tokens it takes up and the value it carries.
  datatype Flag = Flag(width: nat, value: string, isCookieFlag: bool) | Skip(width: nat)

  function FlagAt(tokens: seq<string>): (f: Flag)
    requires tokens != []
    ensures 1 <= f.width <= |tokens|
  {
    var t := tokens[0];
    if t == "-H" || t == "--header" then
      if |tokens| < 2 then Skip(1) else Flag(2, tokens[1], false)
    else if t == "-b" || t == "--cookie" then
      if |tokens| < 2 then Skip(1) else Flag(2, tokens[1], true)
    else if "-H" <= t then Flag(1, t[2..], false)
    else if "--header=" <= t then Flag(1, t[9..], false)
    else if "--cookie=" <= t then Flag(1, t[9..], true)
    else if "-b" <= t then Flag(1, t[2..], true)
    else Skip(1)
  }

  // The cookie string a value carries, if any.
  function CookieText(value: string, isCookieFlag: bool): Option<string> {
    match Index(Lower(TrimSpace(value)), HEADER)
    case Some(i) => Some(TrimSpace(value)[i + |HEADER|..])
    case None => if isCookieFlag then Some(value) else None
  }

  // One `name=value` of a cookie string.
  function Pair(part: string): Option<(string, string)> {
    var pair := TrimSpace(part);
    match Index(pair, "=")
    case None => None
    case Some(eq) =>
      var name, val := TrimSpace(pair[..eq]), TrimSpace(pair[eq + 1..]);
      if eq > 0 && name != "" && val != "" then Some((name, val)) else None
  }

  function AddPairs(parts: seq<string>, out: map<string, string>): map<string, string>
    decreases parts
  {
    if parts == [] then out
    else AddPairs(parts[1..], match Pair(parts[0]) case Some(p) => out[p.0 := p.1] case None => out)
  }

  function AddFlag(f: Flag, out: map<string, string>): map<string, string> {
    if f.Skip? then out
    else
      match CookieText(f.value, f.isCookieFlag)
      case None => out
      case Some(text) => AddPairs(Split(text, ';'), out)
  }

  function Collected(tokens: seq<string>, out: map<string, string>): map<string, string>
    decreases |tokens|
  {
    if tokens == [] then out
    else
      var f := FlagAt(tokens);
      Collected(tokens[f.width..], AddFlag(f, out))
  }

  function FromCurl(cmd: string): map<string, string> { Collected(Shell.Tokens(cmd, None, false, []), map[]) }

  // paste.go:124-137
  method AddPairsLoop(text: string, out: map<string, string>) returns (r: map<string, string>)
    ensures r == AddPairs(Split(text, ';'), out)
  {
    r := out;
    var parts := Split(text, ';');
    for k := 0 to |parts|
      invariant AddPairs(parts[k..], r) == AddPairs(parts, out)
    {
      assert parts[k..][1..] == parts[k + 1..];
      var pair := TrimSpace(parts[k]);
      var eq := Index(pair, "=");
      if eq.None? || eq.value == 0 { continue; }
      var name := TrimSpace(pair[..eq.value]);
      var val := TrimSpace(pair[eq.value + 1..]);
      if name != "" && val != "" { r := r[name := val]; }
    }
  }

  method AddFlagLoop(f: Flag, out: map<string, string>) returns (r: map<string, string>)
    ensures r == AddFlag(f, out)
  {
    r := out;
    if f.Flag? {
      var text := CookieText(f.value, f.isCookieFlag);
      if text.Some? { r := AddPairsLoop(text.value, out); }
    }
  }

  method CollectFlag(tokens: seq<string>, i: nat, out: map<string, string>) returns (next: nat, r: map<string, string>)
    requires i < |tokens|
    ensures i < next <= |tokens| && Collected(tokens[i..], out) == Collected(tokens[next..], r)
  {
    var f := FlagAt(tokens[i..]);
    next := i + f.width;
    r := AddFlagLoop(f, out);
  }

  method CollectFlags(tokens: seq<string>) returns (out: map<string, string>)
    ensures out == Collected(tokens, map[])
  {
    out := map[];
    ghost var all := Collected(tokens, out);
    var i := 0;
    assert tokens[0..] == tokens;
    while i < |tokens|
      invariant 0 <= i <= |tokens|
      invariant Collected(tokens[i..], out) == all
      decreases |tokens| - i
    {
      i, out := CollectFlag(tokens, i, out);
    }
  }

  // paste.go:82-139
  method CookiesFromCurl(cmd: string) returns (out: map<string, string>)
    ensures out == FromCurl(cmd)
  {
    var tokens := Shell.ShellSplit(cmd);
    out := CollectFlags(tokens);
  }

  // ----- composing commands -----

  // The tokens do not end in a flag still waiting for its value.
  predicate Complete(tokens: seq<string>)
    decreases |tokens|
  {
    if tokens == [] then true
    else
      (|tokens| == 1 ==> tokens[0] !in ["-H", "--header", "-b", "--cookie"]) && Complete(tokens[FlagAt(tokens).width..])
  }

  // A command read in two pieces is the second read after the first.
  lemma {:induction false} CollectedInTwo(a: seq<string>, b: seq<string>, out: map<string, string>)
    requires Complete(a)
    ensures Collected(a + b, out) == Collected(b, Collected(a, out))
    decreases |a|
  {
    if a == [] {
      assert a + b == b;
    } else {
      var f := FlagAt(a);
      assert FlagAt(a + b) == f;
      assert (a + b)[f.width..] == a[f.width..] + b;
      CollectedInTwo(a[f.width..], b, AddFlag(f, out));
    }
  }

  predicate NoCookieHeader(value: string) { Index(Lower(TrimSpace(value)), HEADER).None? }

  // The ways of giving a value that CookiesFromCurl reads.
  datatype Form =
    | ShortHeader | LongHeader | LongHeaderEq | GluedHeader
    | ShortCookie | LongCookie | LongCookieEq | GluedCookie

  predicate IsCookieForm(form: Form) {
    form.ShortCookie? || form.LongCookie? || form.LongCookieEq? || form.GluedCookie?
  }

  function FlagTokens(form: Form, value: string): seq<string> {
    match form
    case ShortHeader => ["-H", value]
    case LongHeader => ["--header", value]
    case LongHeaderEq => ["--header=" + value]
    case GluedHeader => ["-H" + value]
    case ShortCookie => ["-b", value]
    case LongCookie => ["--cookie", value]
    case LongCookieEq => ["--cookie=" + value]
    case GluedCookie => ["-b" + value]
  }

  predicate FormOk(form: Form, value: string) { form.GluedHeader? || form.GluedCookie? ==> value != "" }

  lemma TwoTokens(t: string, value: string, after: seq<string>)
    requires t in ["-H", "--header", "-b", "--cookie"]
    ensures FlagAt([t, value] + after) == Flag(2, value, t == "-b" || t == "--cookie")
    ensures ([t, value] + after)[2..] == after
  {
    var tokens := [t, value] + after;
    assert tokens[0] == t && tokens[1] == value;
  }

  lemma GluedTokens(short: string, value: string, after: seq<string>)
    requires (short == "-H" || short == "-b") && value != ""
    ensures FlagAt([short + value] + after) == Flag(1, value, short == "-b")
  {
    var t := short + value;
    assert ([t] + after)[0] == t && t[..2] == short && t[2..] == value && |t| > 2;
    assert t[0] == '-' && t[1] != '-';
  }

  lemma EqualsToken(long: string, value: string, after: seq<string>)
    requires long == "--header=" || long == "--cookie="
    ensures FlagAt([long + value] + after) == Flag(1, value, long == "--cookie=")
  {
    var t := long + value;
    assert ([t] + after)[0] == t && t[..9] == long && t[9..] == value;
    assert |t| >= 9 && t[1] == '-' && t[2] == long[2] && t[8] == '=';
    assert "--cookie="[2] == 'c' && "--header="[2] == 'h';
    assert long == "--cookie=" ==> !("--header=" <= t);
  }

  lemma FlagRead(form: Form, value: string, after: seq<string>, out: map<string, string>)
    requires FormOk(form, value)
    ensures Collected(FlagTokens(form, value) + after, out)
         == Collected(after, AddFlag(Flag(1, value, IsCookieForm(form)), out))
  {
    var tokens := FlagTokens(form, value) + after;
    var two := form.ShortHeader? || form.LongHeader? || form.ShortCookie? || form.LongCookie?;
    match form
    case ShortHeader => TwoTokens("-H", value, after);
    case LongHeader => TwoTokens("--header", value, after);
    case LongHeaderEq => EqualsToken("--header=", value, after);
    case GluedHeader => GluedTokens("-H", value, after);
    case ShortCookie => TwoTokens("-b", value, after);
    case LongCookie => TwoTokens("--cookie", value, after);
    case LongCookieEq => EqualsToken("--cookie=", value, after);
    case GluedCookie => GluedTokens("-b", value, after);
    var f := FlagAt(tokens);
    assert f == Flag(if two then 2 else 1, value, IsCookieForm(form));
    assert tokens[f.width..] == after;
  }

  // After a complete beginning only what the rest comes to counts.
  lemma SameRest(before: seq<string>, rest: seq<string>, other: seq<string>, out: map<string, string>)
    requires Complete(before)
    requires Collected(rest, Collected(before, out)) == Collected(other, Collected(before, out))
    ensures Collected(before + rest, out) == Collected(before + other, out)
  {
    CollectedInTwo(before, rest, out);
    CollectedInTwo(before, other, out);
  }

  lemma Inserted(before: seq<string>, flag: seq<string>, after: seq<string>, out: map<string, string>)
    requires Complete(before)
    requires Collected(flag + after, Collected(before, out)) == Collected(after, Collected(before, out))
    ensures Collected(before + flag + after, out) == Collected(before + after, out)
  {
    SameRest(before, flag + after, after, out);
    Associated(before, flag, after);
  }

  lemma Associated(a: seq<string>, b: seq<string>, c: seq<string>)
    ensures a + b + c == a + (b + c)
  {}

  lemma QuietFlag(form: Form, value: string, after: seq<string>, out: map<string, string>)
    requires !IsCookieForm(form) && FormOk(form, value) && NoCookieHeader(value)
    ensures Collected(FlagTokens(form, value) + after, out) == Collected(after, out)
  {
    FlagRead(form, value, after, out);
    assert AddFlag(Flag(1, value, false), out) == out;
  }

  // A header whose value does not mention the Cookie header may stand between any two arguments, in
  // whichever form it is given.
  lemma OtherHeadersDoNotMatter(before: seq<string>, form: Form, value: string, after: seq<string>,
                                out: map<string, string>)
    requires Complete(before) && !IsCookieForm(form) && FormOk(form, value) && NoCookieHeader(value)
    ensures Collected(before + FlagTokens(form, value) + after, out) == Collected(before + after, out)
  {
    QuietFlag(form, value, after, Collected(before, out));
    Inserted(before, FlagTokens(form, value), after, out);
  }

  // ----- rendering -----

  datatype Cookie = Cookie(name: string, value: string)

  predicate CookieOk(c: Cookie) {
    && c.name != "" && Trimmed(c.name) && '=' !in c.name && ';' !in c.name
    && c.value != "" && Trimmed(c.value) && ';' !in c.value
  }

  function PairText(c: Cookie): string { c.name + "=" + c.value }

  // " a=b; c=d", what follows "cookie:" in the header a browser sends.
  function HeaderText(cookies: seq<Cookie>): string {
    if cookies == [] then ""
    else if |cookies| == 1 then " " + PairText(cookies[0])
    else " " + PairText(cookies[0]) + ";" + HeaderText(cookies[1..])
  }

  // The map a list of cookies stands for: a repeated name keeps its last value.
  function AddCookies(cookies: seq<Cookie>, out: map<string, string>): map<string, string>
    decreases cookies
  {
    if cookies == [] then out else AddCookies(cookies[1..], out[cookies[0].name := cookies[0].value])
  }

  lemma {:induction false} IndexSolid(a: string, c: char, b: string)
    requires c !in a
    ensures Index(a + [c] + b, [c]) == Some(|a|)
  {
    var s := a + [c] + b;
    assert s[0] == if a == [] then c else a[0];
    if a != [] {
      assert s[1..] == a[1..] + [c] + b;
      IndexSolid(a[1..], c, b);
    }
  }

  lemma PairShape(c: Cookie)
    requires CookieOk(c)
    ensures Trimmed(PairText(c)) && PairText(c) != "" && ';' !in PairText(c)
    ensures PairText(c) == c.name + ['='] + c.value
  {
    var text := PairText(c);
    assert text[0] == c.name[0] && text[|text| - 1] == c.value[|c.value| - 1];
  }

  lemma PairRead(c: Cookie)
    requires CookieOk(c)
    ensures Pair(" " + PairText(c)) == Some((c.name, c.value))
  {
    var text := PairText(c);
    PairShape(c);
    PairTrimmed(text);
    IndexSolid(c.name, '=', c.value);
    assert text[..|c.name|] == c.name && text[|c.name| + 1..] == c.value;
    TrimmedStays(c.name);
    TrimmedStays(c.value);
  }

  lemma PairTrimmed(text: string)
    requires Trimmed(text)
    ensures TrimSpace(" " + text) == text
  {
    assert " " + text == [' '] + text;
    TrimmedStays(text);
  }

  lemma {:induction false} HeaderRead(cookies: seq<Cookie>, out: map<string, string>)
    requires forall c :: c in cookies ==> CookieOk(c)
    ensures AddPairs(Split(HeaderText(cookies), ';'), out) == AddCookies(cookies, out)
    decreases cookies
  {
    if cookies != [] {
      var first := " " + PairText(cookies[0]);
      PairShape(cookies[0]);
      PairRead(cookies[0]);
      SplitSolid(first, ';');
      if |cookies| > 1 {
        assert HeaderText(cookies) == first + [';'] + HeaderText(cookies[1..]);
        SplitAt(first, ';', HeaderText(cookies[1..]));
        assert Split(HeaderText(cookies), ';')[1..] == Split(HeaderText(cookies[1..]), ';');
      }
      HeaderRead(cookies[1..], out[cookies[0].name := cookies[0].value]);
    }
  }

  // Any capitals will do for the header's name.
  predicate IsHeaderName(name: string) { Lower(name) == HEADER }

  lemma {:induction false} HeaderEndsWell(cookies: seq<Cookie>)
    requires cookies != [] && forall c :: c in cookies ==> CookieOk(c)
    ensures HeaderText(cookies) != "" && !IsSpace(HeaderText(cookies)[|HeaderText(cookies)| - 1])
  {
    PairShape(cookies[0]);
    if |cookies| > 1 { HeaderEndsWell(cookies[1..]); }
  }

  lemma HeaderFound(name: string, cookies: seq<Cookie>, isCookieFlag: bool)
    requires IsHeaderName(name) && cookies != [] && forall c :: c in cookies ==> CookieOk(c)
    ensures CookieText(name + HeaderText(cookies), isCookieFlag) == Some(HeaderText(cookies))
  {
    var value := name + HeaderText(cookies);
    HeaderEndsWell(cookies);
    assert |name| == 7 && Lower(name)[0] == 'c' && !IsSpace(name[0]);
    TrimmedStays(value);
    assert Lower(value)[..7] == HEADER;
    assert value[7..] == HeaderText(cookies);
  }

  // "a=b; c=d", as -b and --cookie also take it.
  function RawText(cookies: seq<Cookie>): string
    requires cookies != []
  {
    HeaderText(cookies)[1..]
  }

  lemma RawRead(cookies: seq<Cookie>, out: map<string, string>)
    requires cookies != [] && forall c :: c in cookies ==> CookieOk(c)
    ensures AddPairs(Split(RawText(cookies), ';'), out) == AddCookies(cookies, out)
  {
    var raw := RawText(cookies);
    assert HeaderText(cookies) == [' '] + raw;
    HeaderRead(cookies, out);
    LeadingBlank(raw, out);
  }

  lemma LeadingBlank(raw: string, out: map<string, string>)
    ensures AddPairs(Split([' '] + raw, ';'), out) == AddPairs(Split(raw, ';'), out)
  {
    var parts := Split(raw, ';');
    assert ([' '] + raw)[1..] == raw;
    var blank := Split([' '] + raw, ';');
    assert blank[0] == [' '] + parts[0] && blank[1..] == parts[1..];
    assert Pair(blank[0]) == Pair(parts[0]);
  }

  // Tokens among which no cookie is given, complete in themselves.
  predicate Quiet(tokens: seq<string>)
    decreases |tokens|
  {
    if tokens == [] then true
    else
      var f := FlagAt(tokens);
      && (|tokens| == 1 ==> tokens[0] !in ["-H", "--header", "-b", "--cookie"])
      && (f.Flag? ==> !f.isCookieFlag && NoCookieHeader(f.value))
      && Quiet(tokens[f.width..])
  }

  lemma {:induction false} QuietAdds(tokens: seq<string>, out: map<string, string>)
    requires Quiet(tokens)
    ensures Complete(tokens) && Collected(tokens, out) == out
    decreases |tokens|
  {
    if tokens != [] { QuietAdds(tokens[FlagAt(tokens).width..], out); }
  }

  // The value carries these cookies: behind the header's name, or, for a cookie flag, by themselves.
  predicate Carries(form: Form, value: string, name: Option<string>, cookies: seq<Cookie>) {
    && cookies != [] && (forall c :: c in cookies ==> CookieOk(c))
    && match name
       case Some(n) => IsHeaderName(n) && value == n + HeaderText(cookies)
       case None => IsCookieForm(form) && value == RawText(cookies) && NoCookieHeader(value)
  }

  // A command carrying cookies, in any form of flag, among any other arguments, and written in any of
  // the ways a shell allows, gives back the cookies that were rendered into it.
  lemma RenderedCookiesComeBack(items: seq<Shell.Item>, before: seq<string>, form: Form, value: string,
                                name: Option<string>, cookies: seq<Cookie>, after: seq<string>)
    requires Shell.ItemsOk(items) && Quiet(before) && Quiet(after) && Carries(form, value, name, cookies)
    requires Shell.Words(items) == before + FlagTokens(form, value) + after
    ensures FromCurl(Shell.Command(items)) == AddCookies(cookies, map[])
  {
    Shell.SplitIsTheInverseOfWriting(items);
    CookieFlagRead(before, form, value, name, cookies, after);
  }

  lemma CarriedRead(form: Form, value: string, name: Option<string>, cookies: seq<Cookie>, out: map<string, string>)
    requires Carries(form, value, name, cookies)
    ensures value != "" && AddFlag(Flag(1, value, IsCookieForm(form)), out) == AddCookies(cookies, out)
  {
    match name
    case Some(n) =>
      HeaderFound(n, cookies, IsCookieForm(form));
      HeaderRead(cookies, out);
    case None =>
      PairShape(cookies[0]);
      RawRead(cookies, out);
  }

  lemma CookieFlagRead(before: seq<string>, form: Form, value: string, name: Option<string>,
                       cookies: seq<Cookie>, after: seq<string>)
    requires Quiet(before) && Quiet(after) && Carries(form, value, name, cookies)
    ensures Collected(before + FlagTokens(form, value) + after, map[]) == AddCookies(cookies, map[])
  {
    var tail := FlagTokens(form, value) + after;
    assert before + FlagTokens(form, value) + after == before + tail;
    QuietAdds(before, map[]);
    CollectedInTwo(before, tail, map[]);
    CarriedRead(form, value, name, cookies, map[]);
    FlagRead(form, value, after, map[]);
    QuietAdds(after, AddCookies(cookies, map[]));
  }

  // ----- the paste -----

  const REQUIRED: seq<string> := ["SID", "HSID", "OSID", "SSID", "APISID", "SAPISID"]
  const OPTIONAL: seq<string> := ["__Secure-1PSIDTS"]

  datatype PasteError = Unreadable | Missing(names: set<string>)

  // What encoding/json makes of the text as a map of strings.
  type Json = string -> Option<map<string, string>>

  function Cookies(input: string, json: Json): Option<map<string, string>> {
    var trimmed := TrimSpace(input);
    if trimmed == "" then None
    else if "{" <= trimmed then json(trimmed)
    else Some(FromCurl(trimmed))
  }

  // paste.go:44-76. Exactly the seven named cookies are kept, and an empty one counts as absent.
  method ParsePaste(input: string, json: Json) returns (r: Result<map<string, string>, PasteError>)
    ensures r == Err(Unreadable) <==> Cookies(input, json).None? || Cookies(input, json).value == map[]
    ensures r.Ok? ==> Cookies(input, json).Some? && (forall n :: n in REQUIRED ==> n in r.value)
    ensures r.Ok? ==> forall n :: n in r.value <==>
      n in REQUIRED + OPTIONAL && n in Cookies(input, json).value && Cookies(input, json).value[n] != ""
    ensures r.Ok? ==> forall n :: n in r.value ==> r.value[n] == Cookies(input, json).value[n]
    ensures r.Err? && r.error.Missing? ==> Cookies(input, json).Some? && r.error.names != {}
    ensures r.Err? && r.error.Missing? ==> forall n :: n in r.error.names <==>
      n in REQUIRED && (n in Cookies(input, json).value ==> Cookies(input, json).value[n] == "")
  {
    var trimmed := TrimSpace(input);
    if trimmed == "" { return Err(Unreadable); }
    var cookies: map<string, string>;
    if "{" <= trimmed {
      var raw := json(trimmed);
      if raw.None? { return Err(Unreadable); }
      cookies := raw.value;
    } else {
      cookies := CookiesFromCurl(trimmed);
    }
    if |cookies| == 0 { return Err(Unreadable); }
    var names := REQUIRED + OPTIONAL;
    var kept: map<string, string> := map[];
    for k := 0 to |names|
      invariant forall n :: n in kept <==> n in names[..k] && n in cookies && cookies[n] != ""
      invariant forall n :: n in kept ==> kept[n] == cookies[n]
    {
      assert names[..k + 1] == names[..k] + [names[k]];
      if names[k] in cookies && cookies[names[k]] != "" { kept := kept[names[k] := cookies[names[k]]]; }
    }
    assert names[..|names|] == names;
    var missing: set<string> := {};
    for k := 0 to |REQUIRED|
      invariant forall n :: n in missing <==> n in REQUIRED[..k] && n !in kept
    {
      assert REQUIRED[..k + 1] == REQUIRED[..k] + [REQUIRED[k]];
      if REQUIRED[k] !in kept { missing := missing + {REQUIRED[k]}; }
    }
    assert REQUIRED[..|REQUIRED|] == REQUIRED;
    if missing != {} { return Err(Missing(missing)); }
    return Ok(kept);
  }

  // The command is what a paste holds between the blanks around it.
  predicate Pastes(input: string, command: string) {
    TrimSpace(input) == command && command != "" && command[0] != '{'
  }

  lemma PastedCommandReadsItsCookies(input: string, items: seq<Shell.Item>, before: seq<string>, form: Form,
                                     value: string, name: Option<string>, cookies: seq<Cookie>, after: seq<string>,
                                     json: Json)
    requires Shell.ItemsOk(items) && Quiet(before) && Quiet(after) && Carries(form, value, name, cookies)
    requires Shell.Words(items) == before + FlagTokens(form, value) + after
    ensures Pastes(input, Shell.Command(items)) ==> Cookies(input, json) == Some(AddCookies(cookies, map[]))
  {
    RenderedCookiesComeBack(items, before, form, value, name, cookies, after);
  }
}
