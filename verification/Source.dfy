// internal/authz/source.go: which address a request is counted against.
module Source {
  import opened Wrappers
  import opened Text

  // netip.Addr: the address as a number, and the zone an IPv6 address may carry.
  datatype Addr = V4(bits: nat) | V6(bits: nat, zone: string)

  // netip.Prefix; one made with a length its address does not have is invalid and holds nothing.
  datatype Prefix = Prefix(addr: Addr, len: nat) | Invalid

  // What the standard library makes of text.
  datatype Net = Net(
    parseAddr: string -> Option<Addr>,
    parsePrefix: string -> Option<(Addr, nat)>,
    splitHostPort: string -> Option<string>,
    show: Addr -> string)

  const SOURCE_UNKNOWN := "unknown"

  // The bits above the lowest k.
  function Top(bits: nat, k: nat): nat { if k == 0 then bits else Top(bits / 2, k - 1) }

  // The same with the lowest k bits cleared.
  function Cleared(bits: nat, k: nat): nat { if k == 0 then bits else 2 * Cleared(bits / 2, k - 1) }

  function Width(a: Addr): nat { if a.V4? then 32 else 128 }

  const MAPPED: nat := 0xFFFF_0000_0000

  predicate IsMapped(a: Addr) { a.V6? && MAPPED <= a.bits < MAPPED + 0x1_0000_0000 }

  function Unmap(a: Addr): Addr { if IsMapped(a) then V4(a.bits - MAPPED) else a }

  function WithoutZone(a: Addr): Addr { if a.V6? then a.(zone := "") else a }

  // netip.PrefixFrom(a, n).Masked()
  function MaskedPrefix(a: Addr, n: nat): Prefix {
    if n > Width(a) then Invalid
    else Prefix(WithoutZone(a).(bits := Cleared(a.bits, Width(a) - n)), n)
  }

  // netip.Prefix.Contains
  predicate Contains(p: Prefix, a: Addr) {
    && p.Prefix? && p.len <= Width(a)
    && (p.addr.V4? <==> a.V4?) && (a.V6? ==> a.zone == "")
    && Top(a.bits, Width(a) - p.len) == Top(p.addr.bits, Width(a) - p.len)
  }

  predicate Trusted(trusted: seq<Prefix>, a: Addr) {
    exists i :: 0 <= i < |trusted| && Contains(trusted[i], Unmap(a))
  }

  // ----- the configured list -----

  function ParseEntry(net: Net, entry: string): Option<Prefix> {
    if '/' in entry then
      match net.parsePrefix(entry)
      case None => None
      case Some(p) => Some(MaskedPrefix(Unmap(p.0), p.1))
    else
      match net.parseAddr(entry)
      case None => None
      case Some(a) => Some(Prefix(WithoutZone(Unmap(a)), Width(Unmap(a))))
  }

  // source.go:72-86. One bad entry refuses the whole list.
  method NewSourceResolver(net: Net, cidrList: string) returns (r: Result<seq<Prefix>, string>)
    ensures r.Ok? <==> forall e :: e in Split(cidrList, ',') && TrimSpace(e) != "" ==>
      ParseEntry(net, TrimSpace(e)).Some?
    ensures r.Ok? ==> forall p :: p in r.value <==>
      exists e :: e in Split(cidrList, ',') && TrimSpace(e) != "" && ParseEntry(net, TrimSpace(e)) == Some(p)
    ensures r.Err? ==> r.error != "" && ParseEntry(net, r.error).None?
  {
    var parts := Split(cidrList, ',');
    var trusted: seq<Prefix> := [];
    for i := 0 to |parts|
      invariant forall e :: e in parts[..i] && TrimSpace(e) != "" ==> ParseEntry(net, TrimSpace(e)).Some?
      invariant forall p :: p in trusted <==>
        exists e :: e in parts[..i] && TrimSpace(e) != "" && ParseEntry(net, TrimSpace(e)) == Some(p)
    {
      assert parts[..i + 1] == parts[..i] + [parts[i]];
      var entry := TrimSpace(parts[i]);
      if entry == "" { continue; }
      var p := ParseEntry(net, entry);
      if p.None? {
        assert parts[i] in parts;
        return Err(entry);
      }
      trusted := trusted + [p.value];
    }
    assert parts[..|parts|] == parts;
    return Ok(trusted);
  }

  // ----- one request -----

  function CutZone(s: string): string {
    if s == [] || s[0] == '%' then [] else [s[0]] + CutZone(s[1..])
  }

  function Unbracketed(s: string): string {
    var t := if s != [] && s[|s| - 1] == ']' then s[..|s| - 1] else s;
    if t != [] && t[0] == '[' then t[1..] else t
  }

  // source.go:179-195
  function ParsePeer(net: Net, remoteAddr: string): Option<Addr> {
    var s := TrimSpace(remoteAddr);
    if s == "" then None
    else
      var host := match net.splitHostPort(s) case Some(h) => h case None => s;
      match net.parseAddr(CutZone(Unbracketed(host)))
      case None => None
      case Some(a) => Some(Unmap(a))
  }

  // strings.Trim(s, "[]")
  function TrimBrackets(s: string): string
    decreases |s|
  {
    if s != [] && (s[0] == '[' || s[0] == ']') then TrimBrackets(s[1..])
    else if s != [] && (s[|s| - 1] == '[' || s[|s| - 1] == ']') then TrimBrackets(s[..|s| - 1])
    else s
  }

  // source.go:220-233
  function ParseHop(net: Net, entry: string): Option<Addr> {
    var s := TrimSpace(entry);
    if s == "" then None
    else
      match net.parseAddr(TrimBrackets(s))
      case Some(a) => Some(Unmap(a))
      case None =>
        match net.splitHostPort(s)
        case None => None
        case Some(host) =>
          match net.parseAddr(host)
          case Some(a) => Some(Unmap(a))
          case None => None
  }

  function TrimAll(parts: seq<string>): (r: seq<string>)
    ensures |r| == |parts| && forall i :: 0 <= i < |parts| ==> r[i] == TrimSpace(parts[i])
  {
    if parts == [] then [] else [TrimSpace(parts[0])] + TrimAll(parts[1..])
  }

  function Entries(headers: seq<string>): seq<string> {
    if headers == [] then [] else TrimAll(Split(headers[0], ',')) + Entries(headers[1..])
  }

  method TrimmedParts(header: string) returns (out: seq<string>)
    ensures out == TrimAll(Split(header, ','))
  {
    out := [];
    var parts := Split(header, ',');
    for j := 0 to |parts|
      invariant out == TrimAll(parts)[..j]
    {
      assert TrimAll(parts)[..j + 1] == TrimAll(parts)[..j] + [TrimAll(parts)[j]];
      out := out + [TrimSpace(parts[j])];
    }
    assert TrimAll(parts)[..|parts|] == TrimAll(parts);
  }

  // source.go:204-215
  method ForwardedFor(headers: seq<string>) returns (out: seq<string>)
    ensures out == Entries(headers)
  {
    out := [];
    ghost var all := Entries(headers);
    assert headers[0..] == headers;
    for i := 0 to |headers|
      invariant out + Entries(headers[i..]) == all
    {
      assert headers[i..][1..] == headers[i + 1..];
      var parts := TrimmedParts(headers[i]);
      assert Entries(headers[i..]) == parts + Entries(headers[i + 1..]);
      out := out + parts;
    }
  }

  // source.go:123-131
  method IsTrusted(trusted: seq<Prefix>, addr: Addr) returns (r: bool)
    ensures r == Trusted(trusted, addr)
  {
    var a := Unmap(addr);
    for i := 0 to |trusted|
      invariant forall j :: 0 <= j < i ==> !Contains(trusted[j], a)
    {
      if Contains(trusted[i], a) { return true; }
    }
    return false;
  }

  // The hop is one of ours: the walk goes on past it.
  predicate Passed(net: Net, trusted: seq<Prefix>, entry: string) {
    ParseHop(net, entry).Some? && Trusted(trusted, ParseHop(net, entry).value)
  }

  // Right to left, to the first entry that is not one of ours; an entry that does not parse gives nothing.
  function Walk(net: Net, trusted: seq<Prefix>, entries: seq<string>): Option<Addr>
    decreases |entries|
  {
    if entries == [] then None
    else if Passed(net, trusted, entries[|entries| - 1]) then Walk(net, trusted, entries[..|entries| - 1])
    else ParseHop(net, entries[|entries| - 1])
  }

  function PeerValue(net: Net, remoteAddr: string): string {
    match ParsePeer(net, remoteAddr) case Some(a) => net.show(a) case None => SOURCE_UNKNOWN
  }

  predicate Believed(net: Net, trusted: seq<Prefix>, remoteAddr: string) {
    |trusted| > 0 && ParsePeer(net, remoteAddr).Some? && Trusted(trusted, ParsePeer(net, remoteAddr).value)
  }

  function Resolved(net: Net, trusted: seq<Prefix>, remoteAddr: string, entries: seq<string>): string {
    if Believed(net, trusted, remoteAddr) && Walk(net, trusted, entries).Some?
    then net.show(Walk(net, trusted, entries).value)
    else PeerValue(net, remoteAddr)
  }

  datatype Mode = SocketPeer | TrustedProxy

  // The headers a request is resolved from; proto and host are recorded and build nothing.
  datatype Headers = Headers(forwardedFor: seq<string>, proto: string, host: string)

  datatype Resolution = Resolution(value: string, mode: Mode, proto: string, host: string)

  // source.go:135-174
  method Resolve(net: Net, trusted: seq<Prefix>, remoteAddr: string, headers: Headers) returns (src: Resolution)
    ensures src.value == Resolved(net, trusted, remoteAddr, Entries(headers.forwardedFor))
    ensures src.mode == (if trusted == [] then SocketPeer else TrustedProxy)
    ensures src.proto == headers.proto && src.host == headers.host
  {
    src := Resolution(
      SOURCE_UNKNOWN, if |trusted| > 0 then TrustedProxy else SocketPeer, headers.proto, headers.host);
    var peer := ParsePeer(net, remoteAddr);
    if peer.Some? { src := src.(value := net.show(peer.value)); }
    if |trusted| == 0 { return; }
    if peer.None? { return; }
    var ours := IsTrusted(trusted, peer.value);
    if !ours { return; }
    var entries := ForwardedFor(headers.forwardedFor);
    ghost var answer := Walk(net, trusted, entries);
    var i := |entries|;
    assert entries[..i] == entries;
    while i > 0
      invariant 0 <= i <= |entries|
      invariant Walk(net, trusted, entries[..i]) == answer
    {
      assert entries[..i][..i - 1] == entries[..i - 1];
      i := i - 1;
      var hop := ParseHop(net, entries[i]);
      if hop.None? { return; }
      ours := IsTrusted(trusted, hop.value);
      if ours { continue; }
      return src.(value := net.show(hop.value));
    }
  }

  // ----- reading addresses -----

  function TwoTo(k: nat): (n: nat)
    ensures n > 0
  {
    if k == 0 then 1 else 2 * TwoTo(k - 1)
  }

  // Dropping the lowest k bits leaves the multiples of the k-th power of two, and clearing them takes the
  // rest away.
  lemma {:induction false} LeadingBits(bits: nat, k: nat) returns (low: nat)
    ensures low < TwoTo(k) && bits == Top(bits, k) * TwoTo(k) + low && Cleared(bits, k) == bits - low
  {
    if k == 0 {
      low := 0;
    } else {
      var l := LeadingBits(bits / 2, k - 1);
      low := 2 * l + bits % 2;
      Doubled(Top(bits, k), TwoTo(k - 1));
    }
  }

  lemma Doubled(a: nat, b: nat)
    ensures a * (2 * b) == 2 * (a * b)
  {}

  // ::ffff:a.b.c.d is a.b.c.d, and every other address is itself.
  lemma MappedIsIPv4(a: Addr)
    ensures Unmap(a) == if a.V6? && a.bits / 0x1_0000_0000 == 0xFFFF then V4(a.bits % 0x1_0000_0000) else a
  {}

  // The host of a peer: what is left of the colon and the port, when the library finds them.
  function HostPart(net: Net, s: string): string {
    match net.splitHostPort(s) case Some(host) => host case None => s
  }

  lemma {:induction false} ZoneIsCut(core: string, rest: string)
    requires '%' !in core && (rest != [] ==> rest[0] == '%')
    ensures CutZone(core + rest) == core
  {
    if core == [] {
      assert core + rest == rest;
    } else {
      assert (core + rest)[0] == core[0] && (core + rest)[1..] == core[1..] + rest;
      ZoneIsCut(core[1..], rest);
      assert [core[0]] + core[1..] == core;
    }
  }

  // A peer is the address of its host, with brackets around it or not and a zone behind it or not, as
  // IPv4 when it is a mapped one; and where that does not parse there is no peer.
  lemma PeerIsItsHost(net: Net, remoteAddr: string, core: string, zone: string, bracketed: bool)
    requires !Blank(remoteAddr)
    requires '%' !in core && (zone != [] ==> zone[0] == '%') && core + zone != []
    requires (core + zone)[0] != '[' && (core + zone)[|core + zone| - 1] != ']'
    requires HostPart(net, TrimSpace(remoteAddr)) == if bracketed then ['['] + (core + zone) + [']'] else core + zone
    ensures ParsePeer(net, remoteAddr) ==
      match net.parseAddr(core) case Some(a) => Some(Unmap(a)) case None => None
  {
    var host := HostPart(net, TrimSpace(remoteAddr));
    BlankIsEmptyTrimmed(remoteAddr);
    assert bracketed ==> host[..|host| - 1] == ['['] + (core + zone) && host[..|host| - 1][1..] == core + zone;
    assert Unbracketed(host) == core + zone;
    ZoneIsCut(core, zone);
  }

  // Whoever's headers are not believed is counted under the peer, and under one name for all only when
  // there is no peer.
  lemma FallsBackToThePeer(net: Net, trusted: seq<Prefix>, remoteAddr: string, entries: seq<string>)
    requires !Believed(net, trusted, remoteAddr) || Walk(net, trusted, entries).None?
    ensures match ParsePeer(net, remoteAddr)
      case Some(a) => Resolved(net, trusted, remoteAddr, entries) == net.show(a)
      case None => Resolved(net, trusted, remoteAddr, entries) == "unknown"
  {}

  lemma BlankPeer(net: Net, remoteAddr: string)
    requires Blank(remoteAddr)
    ensures ParsePeer(net, remoteAddr).None?
  {
    BlankIsEmptyTrimmed(remoteAddr);
  }

  predicate Brackets(s: string) { forall c :: c in s ==> c == '[' || c == ']' }

  lemma {:induction false} BracketsAreTrimmed(left: string, core: string, right: string)
    requires Brackets(left) && Brackets(right)
    requires core != [] && !Brackets([core[0]]) && !Brackets([core[|core| - 1]])
    ensures TrimBrackets(left + core + right) == core
    decreases |left| + |right|
  {
    var s := left + core + right;
    assert core[0] in [core[0]] && core[|core| - 1] in [core[|core| - 1]];
    if left != [] {
      assert s[0] == left[0] && s[1..] == left[1..] + core + right;
      assert left[0] in left && forall c :: c in left[1..] ==> c in left;
      BracketsAreTrimmed(left[1..], core, right);
    } else if right != [] {
      var n := |right| - 1;
      assert s[0] == core[0] && s[|s| - 1] == right[n] && s[..|s| - 1] == left + core + right[..n];
      assert right[n] in right && forall c :: c in right[..n] ==> c in right;
      BracketsAreTrimmed(left, core, right[..n]);
    } else {
      assert s == core;
    }
  }

  // An entry is an address, in brackets or not, or else an address with a port; an empty one and any
  // other is none.
  lemma HopIsAnAddress(net: Net, entry: string, left: string, core: string, right: string)
    requires TrimSpace(entry) == left + core + right && Brackets(left) && Brackets(right)
    requires core != [] && !Brackets([core[0]]) && !Brackets([core[|core| - 1]])
    ensures ParseHop(net, entry) ==
      match net.parseAddr(core)
      case Some(a) => Some(Unmap(a))
      case None =>
        match net.splitHostPort(left + core + right)
        case None => None
        case Some(host) =>
          match net.parseAddr(host)
          case Some(a) => Some(Unmap(a))
          case None => None
  {
    BracketsAreTrimmed(left, core, right);
  }

  // ----- what the rule gives -----

  // The rightmost entry that is not one of ours, or does not parse.
  ghost predicate Decides(net: Net, trusted: seq<Prefix>, entries: seq<string>, i: nat) {
    && i < |entries| && !Passed(net, trusted, entries[i])
    && forall j :: i < j < |entries| ==> Passed(net, trusted, entries[j])
  }

  lemma {:induction false} RightmostDecides(net: Net, trusted: seq<Prefix>, entries: seq<string>, i: nat)
    requires Decides(net, trusted, entries, i)
    ensures Walk(net, trusted, entries) == ParseHop(net, entries[i])
    decreases |entries|
  {
    var n := |entries| - 1;
    if i < n { RightmostDecides(net, trusted, entries[..n], i); }
  }

  lemma {:induction false} AllOursDecidesNothing(net: Net, trusted: seq<Prefix>, entries: seq<string>)
    requires forall j :: 0 <= j < |entries| ==> Passed(net, trusted, entries[j])
    ensures Walk(net, trusted, entries).None?
    decreases |entries|
  {
    if entries != [] { AllOursDecidesNothing(net, trusted, entries[..|entries| - 1]); }
  }

  // The rule as the design states it, in one sentence for each case.
  lemma ResolvedIsTheRule(net: Net, trusted: seq<Prefix>, remoteAddr: string, entries: seq<string>)
    ensures !Believed(net, trusted, remoteAddr) ==>
      Resolved(net, trusted, remoteAddr, entries) == PeerValue(net, remoteAddr)
    ensures forall i: nat :: Believed(net, trusted, remoteAddr) && Decides(net, trusted, entries, i) ==>
      Resolved(net, trusted, remoteAddr, entries) ==
        match ParseHop(net, entries[i]) case Some(hop) => net.show(hop) case None => PeerValue(net, remoteAddr)
    ensures (forall j :: 0 <= j < |entries| ==> Passed(net, trusted, entries[j])) ==>
      Resolved(net, trusted, remoteAddr, entries) == PeerValue(net, remoteAddr)
  {
    forall i: nat | Decides(net, trusted, entries, i) ensures Walk(net, trusted, entries) == ParseHop(net, entries[i]) {
      RightmostDecides(net, trusted, entries, i);
    }
    if forall j :: 0 <= j < |entries| ==> Passed(net, trusted, entries[j]) {
      AllOursDecidesNothing(net, trusted, entries);
    }
  }

  // Once the entries on the right hold one that is not ours, whatever a client put to their left
  // changes nothing.
  lemma {:induction false} PrefixDoesNotMatter(net: Net, trusted: seq<Prefix>, prefix: seq<string>, suffix: seq<string>)
    requires exists k :: 0 <= k < |suffix| && !Passed(net, trusted, suffix[k])
    ensures Walk(net, trusted, prefix + suffix) == Walk(net, trusted, suffix)
    decreases |suffix|
  {
    var n := |suffix| - 1;
    var k :| 0 <= k < |suffix| && !Passed(net, trusted, suffix[k]);
    assert (prefix + suffix)[|prefix + suffix| - 1] == suffix[n];
    if Passed(net, trusted, suffix[n]) {
      assert (prefix + suffix)[..|prefix + suffix| - 1] == prefix + suffix[..n];
      assert suffix[..n][k] == suffix[k];
      PrefixDoesNotMatter(net, trusted, prefix, suffix[..n]);
    }
  }

  lemma NeverEmpty(net: Net, trusted: seq<Prefix>, remoteAddr: string, entries: seq<string>)
    requires forall a :: net.show(a) != ""
    ensures Resolved(net, trusted, remoteAddr, entries) != ""
  {
  }

  // ----- several headers are one -----

  lemma {:induction false} TrimAllConcat(a: seq<string>, b: seq<string>)
    ensures TrimAll(a + b) == TrimAll(a) + TrimAll(b)
  {
  }

  // Several X-Forwarded-For headers give the entries of the one header they join into with commas.
  lemma {:induction false} HeadersJoin(headers: seq<string>)
    requires headers != []
    ensures Entries(headers) == Entries([Join(headers, ',')])
  {
    var joined := Join(headers, ',');
    assert Entries([joined]) == TrimAll(Split(joined, ','));
    if |headers| > 1 {
      HeadersJoin(headers[1..]);
      var rest := Join(headers[1..], ',');
      SplitAt(headers[0], ',', rest);
      TrimAllConcat(Split(headers[0], ','), Split(rest, ','));
      assert Entries([rest]) == TrimAll(Split(rest, ','));
    }
  }

  // With no header at all the entries differ -- none, against one empty one -- and the answer does not.
  lemma NoHeaderIsAnEmptyOne(net: Net, trusted: seq<Prefix>, remoteAddr: string)
    ensures Resolved(net, trusted, remoteAddr, Entries([])) == Resolved(net, trusted, remoteAddr, Entries([""]))
  {
    assert Split("", ',') == [""];
    assert TrimAll([""]) == [""];
    assert Entries([""]) == [""];
    assert ParseHop(net, "").None?;
  }

  lemma AppendedHeader(spoof: string, honest: string)
    ensures Entries([spoof + [','] + honest]) == Entries([spoof]) + Entries([honest])
  {
    SplitAt(spoof, ',', honest);
    TrimAllConcat(Split(spoof, ','), Split(honest, ','));
  }

  // A client that sends its own header through a proxy that appends to it cannot choose the answer.
  lemma SpoofingDoesNotHelp(net: Net, trusted: seq<Prefix>, remoteAddr: string, spoof: string, honest: string)
    requires exists k :: 0 <= k < |Entries([honest])| && !Passed(net, trusted, Entries([honest])[k])
    ensures Resolved(net, trusted, remoteAddr, Entries([spoof + [','] + honest]))
         == Resolved(net, trusted, remoteAddr, Entries([honest]))
  {
    AppendedHeader(spoof, honest);
    PrefixDoesNotMatter(net, trusted, Entries([spoof]), Entries([honest]));
  }

  // ----- the list -----

  lemma {:induction false} TopOfCleared(bits: nat, k: nat)
    ensures Top(Cleared(bits, k), k) == Top(bits, k)
  {
    if k > 0 { TopOfCleared(bits / 2, k - 1); }
  }

  // Host bits in a CIDR do not matter: 10.1.2.3/8 is 10.0.0.0/8.
  lemma HostBitsDoNotMatter(a: Addr, n: nat, b: Addr)
    requires n <= Width(a)
    ensures Contains(MaskedPrefix(a, n), b) <==>
      (a.V4? <==> b.V4?) && (b.V6? ==> b.zone == "") && Top(b.bits, Width(a) - n) == Top(a.bits, Width(a) - n)
  {
    TopOfCleared(a.bits, Width(a) - n);
  }

  // A bare address trusts itself and nothing else, written as IPv4 or as IPv6.
  lemma BareAddressTrustsItself(net: Net, entry: string, a: Addr, b: Addr)
    requires '/' !in entry && net.parseAddr(entry) == Some(a)
    ensures ParseEntry(net, entry).Some?
    ensures Trusted([ParseEntry(net, entry).value], b) <==>
      Unmap(b) == WithoutZone(Unmap(a))
  {
    var p := ParseEntry(net, entry).value;
    assert Trusted([p], b) <==> Contains([p][0], Unmap(b));
  }

  // A CIDR trusts the addresses of its family that share its leading bits, IPv4 and IPv4-mapped ones
  // being one family, and one longer than its addresses trusts nobody.
  lemma CidrMeaning(net: Net, entry: string, a: Addr, n: nat, b: Addr)
    requires '/' in entry && net.parsePrefix(entry) == Some((a, n))
    ensures ParseEntry(net, entry).Some?
    ensures Trusted([ParseEntry(net, entry).value], b) <==>
      var own, width := Unmap(a), if Unmap(a).V4? then 32 else 128;
      && n <= width && (own.V4? <==> Unmap(b).V4?) && (Unmap(b).V6? ==> Unmap(b).zone == "")
      && Top(Unmap(b).bits, width - n) == Top(own.bits, width - n)
  {
    var p := ParseEntry(net, entry).value;
    assert Trusted([p], b) <==> Contains([p][0], Unmap(b));
    if n <= Width(Unmap(a)) { HostBitsDoNotMatter(Unmap(a), n, Unmap(b)); }
  }

  // An IPv4-mapped CIDR keeps its length when its address becomes IPv4: one of up to 32 bits is read
  // as the IPv4 range of that many bits, and a longer one -- the way 10.0.0.0/8 is written in IPv6 is
  // ::ffff:10.0.0.0/104 -- is accepted and trusts nobody, itself included.
  lemma MappedPrefixMeaning(net: Net, entry: string, a: Addr, n: nat, b: Addr)
    requires '/' in entry && net.parsePrefix(entry) == Some((a, n)) && IsMapped(a)
    ensures ParseEntry(net, entry).Some?
    ensures Trusted([ParseEntry(net, entry).value], b) <==>
      && n <= 32 && Unmap(b).V4?
      && Top(Unmap(b).bits, 32 - n) == Top(a.bits - MAPPED, 32 - n)
  {
    CidrMeaning(net, entry, a, n, b);
  }
}
