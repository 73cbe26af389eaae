/** The PUSH_REPLY reader: a comma list of directives folded into one record. */
module Push {
  import opened Nets
  import opened Text
  import opened Numbers

  datatype PushedRoute = PushedRoute(destination: Addr, prefix: nat, gateway: Option<Addr>, family: Family)

  datatype Ifconfig = Ifconfig(local: Addr, remote: string)

  datatype RedirectGateway = RedirectGateway(
    def1: bool, local: bool, autolocal: bool, bypassDhcp: bool,
    bypassDns: bool, blockLocal: bool, ipv6: bool, noIpv4: bool)
  {
    predicate IsFullTunnel() {
      def1 || local || autolocal || bypassDhcp || bypassDns || blockLocal || ipv6 || noIpv4
    }

    predicate CoversIpv4() {
      !noIpv4 && IsFullTunnel()
    }

    predicate CoversIpv6() {
      ipv6
    }
  }

  const NO_FLAGS := RedirectGateway(false, false, false, false, false, false, false, false)

  datatype Compression = Stub | StubV2 | CompLzoOff | Active(algorithm: string)

  datatype PushOptions = PushOptions(
    dnsServers: seq<Addr>, domain: Option<string>, domainSearch: seq<string>,
    ntpServers: seq<Addr>, winsServers: seq<Addr>, routes: seq<PushedRoute>,
    routeGateway: Option<Addr>, ifconfig: Option<Ifconfig>, ifconfigIpv6: Option<Ifconfig>,
    tunMtu: Option<nat>, cipher: Option<string>, redirectGateway: Option<RedirectGateway>,
    authToken: Option<string>, authTokenUser: Option<string>,
    ping: Option<nat>, pingRestart: Option<nat>, pingExit: Option<nat>, peerId: Option<nat>,
    compress: Option<Compression>, extras: seq<string>)

  const DEFAULT_OPTIONS := PushOptions(
    [], None, [], [], [], [], None, None, None, None, None, None, None, None, None, None, None, None, None, [])

  /** The reader of IPv6 literals, which the standard library supplies. */
  type Ipv6Reader = string -> Option<nat>

  function ParseIp(v6: Ipv6Reader, s: string): Option<Addr> {
    match ParseIpv4(s)
    case Some(bits) => Some(Addr(V4, bits))
    case None =>
      match v6(s)
      case Some(bits) => Some(Addr(V6, bits))
      case None => None
  }

  // -------------------------------------------------------- redirect-gateway

  function SetFlag(rg: RedirectGateway, flag: string): RedirectGateway {
    if flag == "def1" then rg.(def1 := true)
    else if flag == "local" then rg.(local := true)
    else if flag == "autolocal" then rg.(autolocal := true)
    else if flag == "bypass-dhcp" then rg.(bypassDhcp := true)
    else if flag == "bypass-dns" then rg.(bypassDns := true)
    else if flag == "block-local" then rg.(blockLocal := true)
    else if flag == "ipv6" then rg.(ipv6 := true)
    else if flag == "!ipv4" then rg.(noIpv4 := true)
    else rg
  }

  function Union(a: RedirectGateway, b: RedirectGateway): RedirectGateway {
    RedirectGateway(a.def1 || b.def1, a.local || b.local, a.autolocal || b.autolocal, a.bypassDhcp || b.bypassDhcp,
                    a.bypassDns || b.bypassDns, a.blockLocal || b.blockLocal, a.ipv6 || b.ipv6, a.noIpv4 || b.noIpv4)
  }

  function MergeRedirect(existing: Option<RedirectGateway>, new_: RedirectGateway): RedirectGateway {
    match existing
    case None => new_
    case Some(prev) => Union(prev, new_)
  }

  /** The flag record that has exactly the flags named in `words`. */
  function FlagsNamed(words: seq<string>): RedirectGateway {
    RedirectGateway("def1" in words, "local" in words, "autolocal" in words, "bypass-dhcp" in words,
                    "bypass-dns" in words, "block-local" in words, "ipv6" in words, "!ipv4" in words)
  }

  /** `RedirectGateway::parse`, on the words of the directive. */
  method ParseFlags(words: seq<string>) returns (rg: RedirectGateway)
    ensures rg == FlagsNamed(words)
    ensures (rg.def1 <==> "def1" in words) && (rg.local <==> "local" in words)
            && (rg.autolocal <==> "autolocal" in words) && (rg.bypassDhcp <==> "bypass-dhcp" in words)
            && (rg.bypassDns <==> "bypass-dns" in words) && (rg.blockLocal <==> "block-local" in words)
            && (rg.ipv6 <==> "ipv6" in words) && (rg.noIpv4 <==> "!ipv4" in words)
  {
    rg := NO_FLAGS;
    for i := 0 to |words|
      invariant rg == FlagsNamed(words[..i])
    {
      OneMoreFlag(words[..i], words[i]);
      assert words[..i + 1] == words[..i] + [words[i]];
      rg := SetFlag(rg, words[i]);
    }
    assert words[..|words|] == words;
  }

  lemma OneMoreFlag(words: seq<string>, flag: string)
    ensures FlagsNamed(words + [flag]) == SetFlag(FlagsNamed(words), flag)
  {
    SetFlagIsUnion(FlagsNamed(words), flag);
  }

  lemma SetFlagIsUnion(rg: RedirectGateway, flag: string)
    ensures SetFlag(rg, flag)
         == Union(rg, RedirectGateway(flag == "def1", flag == "local", flag == "autolocal", flag == "bypass-dhcp",
                                      flag == "bypass-dns", flag == "block-local", flag == "ipv6", flag == "!ipv4"))
  {
    assert "def1"[0] == 'd' && "ipv6"[0] == 'i' && "local"[0] == 'l' && "!ipv4"[0] == '!';
    assert "bypass-dhcp"[1] == 'y' && "block-local"[1] == 'l';
  }

  // --------------------------------------------------------------- one token

  datatype Directive =
    | Dns(addr: Option<Addr>) | DomainSearch(name: string) | Domain(name: string)
    | Ntp(addr: Option<Addr>) | Wins(addr: Option<Addr>)
    | AddRoute(route: Option<PushedRoute>)
    | RouteGateway(addr: Option<Addr>)
    | SetIfconfigIpv6(ifconfig: Option<Ifconfig>) | SetIfconfig(ifconfig: Option<Ifconfig>)
    | TunMtu(number: Option<nat>) | PingRestart(number: Option<nat>) | PingExit(number: Option<nat>)
    | Ping(number: Option<nat>) | PeerId(number: Option<nat>)
    | Cipher(name: string) | Compress(mode: Compression)
    | Redirect(words: seq<string>)
    | AuthTokenUser(name: string) | AuthToken(token: string) | Topology

  /** `route-ipv6 <addr>/<prefix> [gateway]`, after the keyword. */
  function ReadRouteIpv6(v6: Ipv6Reader, rest: string): Option<PushedRoute> {
    var parts := Words(rest);
    if parts == [] then None else
    var (dest, prefix) := match SplitOnce(parts[0], '/') case Some(pair) => pair case None => (parts[0], "128");
    match (ParseIp(v6, dest), ParseUnsigned(prefix, 255))
    case (Some(d), Some(p)) => Some(PushedRoute(d, p, if |parts| > 1 then ParseIp(v6, parts[1]) else None, V6))
    case _ => None
  }

  /** `route <dest> <mask> [gateway]`, after the keyword. */
  function ReadRoute(v6: Ipv6Reader, rest: string): Option<PushedRoute> {
    var parts := Words(rest);
    if |parts| < 2 then None else
    match (ParseIp(v6, parts[0]), ParseIpv4(parts[1]))
    case (Some(d), Some(mask)) =>
      (match MaskToPrefix(mask)
       case Some(p) => Some(PushedRoute(d, p, if |parts| > 2 then ParseIp(v6, parts[2]) else None, V4))
       case None => None)
    case _ => None
  }

  function ReadIfconfigIpv6(v6: Ipv6Reader, rest: string): Option<Ifconfig> {
    match SplitOnce(rest, ' ')
    case None => None
    case Some((cidr, remote)) =>
      (match ParseIp(v6, Split(cidr, '/')[0])
       case Some(local) => Some(Ifconfig(local, remote))
       case None => None)
  }

  function ReadIfconfig(v6: Ipv6Reader, rest: string): Option<Ifconfig> {
    match SplitOnce(rest, ' ')
    case None => None
    case Some((text, remote)) =>
      (match ParseIp(v6, text)
       case Some(local) => Some(Ifconfig(local, remote))
       case None => None)
  }

  function LowerAscii(s: string): string {
    seq(|s|, i requires 0 <= i < |s| => if 'A' <= s[i] <= 'Z' then s[i] - 'A' + 'a' else s[i])
  }

  function ReadCompression(s: string): Compression {
    var t := Trim(s);
    if LowerAscii(t) == "stub" then Stub
    else if LowerAscii(t) == "stub-v2" then StubV2
    else if LowerAscii(t) == "comp-lzo no" then CompLzoOff
    else Active(t)
  }

  const U32_MAX := 0xFFFF_FFFF

  /** Classifies one token; `None` keeps it as an extra. Longer keywords come first
      where one starts another. */
  function Classify(v6: Ipv6Reader, t: string): Option<Directive> {
    match ClassifyNetwork(v6, t)
    case Some(d) => Some(d)
    case None =>
      match ClassifyNumber(t)
      case Some(d) => Some(d)
      case None => ClassifySession(t)
  }

  function ClassifyNetwork(v6: Ipv6Reader, t: string): Option<Directive> {
    if "dhcp-option DNS " <= t then Some(Dns(ParseIp(v6, t[16..])))
    else if "dhcp-option DOMAIN-SEARCH " <= t then Some(DomainSearch(t[26..]))
    else if "dhcp-option DOMAIN " <= t then Some(Domain(t[19..]))
    else if "dhcp-option NTP " <= t then Some(Ntp(ParseIp(v6, t[16..])))
    else if "dhcp-option WINS " <= t then Some(Wins(ParseIp(v6, t[17..])))
    else if "route-ipv6 " <= t then Some(AddRoute(ReadRouteIpv6(v6, t[11..])))
    else if "route " <= t then Some(AddRoute(ReadRoute(v6, t[6..])))
    else if "route-gateway " <= t then Some(RouteGateway(ParseIp(v6, t[14..])))
    else if "ifconfig-ipv6 " <= t then Some(SetIfconfigIpv6(ReadIfconfigIpv6(v6, t[14..])))
    else if "ifconfig " <= t then Some(SetIfconfig(ReadIfconfig(v6, t[9..])))
    else None
  }

  function ClassifyNumber(t: string): Option<Directive> {
    if "tun-mtu " <= t then Some(TunMtu(ParseUnsigned(t[8..], U32_MAX)))
    else if "ping-restart " <= t then Some(PingRestart(ParseUnsigned(t[13..], U32_MAX)))
    else if "ping-exit " <= t then Some(PingExit(ParseUnsigned(t[10..], U32_MAX)))
    else if "ping " <= t then Some(Ping(ParseUnsigned(t[5..], U32_MAX)))
    else if "peer-id " <= t then Some(PeerId(ParseUnsigned(t[8..], U32_MAX)))
    else None
  }

  function ClassifySession(t: string): Option<Directive> {
    if "cipher " <= t then Some(Cipher(t[7..]))
    else if "compress " <= t then Some(Compress(ReadCompression(t[9..])))
    else if "comp-lzo" <= t then
      if t == "comp-lzo" || "comp-lzo " <= t then Some(Compress(ReadCompression(t))) else None
    else if t == "redirect-gateway-ipv6" || "redirect-gateway-ipv6 " <= t then
      Some(Redirect(Words(Trim(t[21..])) + ["ipv6"]))
    else if t == "redirect-gateway" || "redirect-gateway " <= t then Some(Redirect(Words(Trim(t[16..]))))
    else if "auth-token-user " <= t then Some(AuthTokenUser(t[16..]))
    else if "auth-token " <= t then Some(AuthToken(t[11..]))
    else if "topology " <= t then Some(Topology)
    else None
  }

  function OrKeep<T>(new_: Option<T>, old_: Option<T>): Option<T> {
    if new_.Some? then new_ else old_
  }

  function Listed<T>(o: Option<T>): seq<T> {
    if o.Some? then [o.value] else []
  }

  /** What a recognised directive does to the record. The first parseable
      route-gateway wins; other single values are overwritten. */
  function Effect(o: PushOptions, d: Directive): PushOptions {
    match d
    case Dns(a) => o.(dnsServers := o.dnsServers + Listed(a))
    case DomainSearch(n) => o.(domainSearch := o.domainSearch + [n])
    case Domain(n) => o.(domain := Some(n))
    case Ntp(a) => o.(ntpServers := o.ntpServers + Listed(a))
    case Wins(a) => o.(winsServers := o.winsServers + Listed(a))
    case AddRoute(r) => o.(routes := o.routes + Listed(r))
    case RouteGateway(a) => o.(routeGateway := OrKeep(o.routeGateway, a))
    case SetIfconfigIpv6(i) => o.(ifconfigIpv6 := OrKeep(i, o.ifconfigIpv6))
    case SetIfconfig(i) => o.(ifconfig := OrKeep(i, o.ifconfig))
    case TunMtu(n) => o.(tunMtu := OrKeep(n, o.tunMtu))
    case PingRestart(n) => o.(pingRestart := OrKeep(n, o.pingRestart))
    case PingExit(n) => o.(pingExit := OrKeep(n, o.pingExit))
    case Ping(n) => o.(ping := OrKeep(n, o.ping))
    case PeerId(n) => o.(peerId := OrKeep(n, o.peerId))
    case Cipher(n) => o.(cipher := Some(n))
    case Compress(m) => o.(compress := Some(m))
    case Redirect(words) => o.(redirectGateway := Some(MergeRedirect(o.redirectGateway, FlagsNamed(words))))
    case AuthTokenUser(n) => o.(authTokenUser := Some(n))
    case AuthToken(n) => o.(authToken := Some(n))
    case Topology => o
  }

  type Classifier = string -> Option<Directive>

  function Absorb(classify: Classifier, o: PushOptions, token: string): PushOptions {
    match classify(token)
    case Some(d) => Effect(o, d)
    case None => o.(extras := o.extras + [token])
  }

  function AbsorbAll(classify: Classifier, tokens: seq<string>): PushOptions {
    if tokens == [] then DEFAULT_OPTIONS
    else Absorb(classify, AbsorbAll(classify, tokens[..|tokens| - 1]), tokens[|tokens| - 1])
  }

  /** The trimmed, non-blank pieces of the comma list. */
  function Tokens(pieces: seq<string>): seq<string> {
    if pieces == [] then []
    else
      var rest, last := Tokens(pieces[..|pieces| - 1]), Trim(pieces[|pieces| - 1]);
      if last == "" then rest else rest + [last]
  }

  /** `PushOptions::parse`. */
  method Parse(v6: Ipv6Reader, line: string) returns (opts: PushOptions)
    ensures opts == AbsorbAll(t => Classify(v6, t), Tokens(Split(line, ',')))
  {
    opts := ParseWith(t => Classify(v6, t), line);
  }

  /** `parse_token`, and what becomes of a token it does not know. */
  method ParseToken(classify: Classifier, opts: PushOptions, token: string) returns (next: PushOptions)
    ensures next == Absorb(classify, opts, token)
  {
    match classify(token) {
      case Some(Redirect(words)) =>
        var flags := ParseFlags(words);
        next := opts.(redirectGateway := Some(MergeRedirect(opts.redirectGateway, flags)));
      case Some(d) => next := Effect(opts, d);
      case None => next := opts.(extras := opts.extras + [token]);
    }
  }

  method ParseWith(classify: Classifier, line: string) returns (opts: PushOptions)
    ensures opts == AbsorbAll(classify, Tokens(Split(line, ',')))
  {
    var pieces := Split(line, ',');
    opts := DEFAULT_OPTIONS;
    for i := 0 to |pieces|
      invariant opts == AbsorbAll(classify, Tokens(pieces[..i]))
    {
      assert pieces[..i + 1][..i] == pieces[..i];
      var token := Trim(pieces[i]);
      if token != "" {
        ghost var before := Tokens(pieces[..i]);
        assert (before + [token])[..|before|] == before;
        opts := ParseToken(classify, opts, token);
      }
    }
    assert pieces[..|pieces|] == pieces;
  }
}
