/** What a whole PUSH_REPLY amounts to, whatever the order of its directives. */
module PushLaws {
  import opened Nets
  import opened Text
  import opened Numbers
  import opened Push

  // ---------------------------------------------------- reading off the tokens

  function Unrecognised(classify: Classifier, tokens: seq<string>): seq<string> {
    if tokens == [] then []
    else
      var rest, last := Unrecognised(classify, tokens[..|tokens| - 1]), tokens[|tokens| - 1];
      if classify(last).None? then rest + [last] else rest
  }

  function RouteOf(classify: Classifier, token: string): seq<PushedRoute> {
    match classify(token)
    case Some(AddRoute(r)) => Listed(r)
    case _ => []
  }

  function RoutesOf(classify: Classifier, tokens: seq<string>): seq<PushedRoute> {
    if tokens == [] then []
    else RoutesOf(classify, tokens[..|tokens| - 1]) + RouteOf(classify, tokens[|tokens| - 1])
  }

  function GatewayOf(classify: Classifier, token: string): Option<Addr> {
    match classify(token)
    case Some(RouteGateway(a)) => a
    case _ => None
  }

  predicate IsRedirect(classify: Classifier, token: string) {
    match classify(token)
    case Some(Redirect(_)) => true
    case _ => false
  }

  function FlagWords(classify: Classifier, token: string): seq<string> {
    match classify(token)
    case Some(Redirect(words)) => words
    case _ => []
  }

  function AllFlagWords(classify: Classifier, tokens: seq<string>): seq<string> {
    if tokens == [] then []
    else AllFlagWords(classify, tokens[..|tokens| - 1]) + FlagWords(classify, tokens[|tokens| - 1])
  }

  // ---------------------------------------------------------------- the fold

  /** Nothing is dropped: each token is dispatched or kept verbatim, in order, and
      the routes come out in the order they were pushed. */
  lemma {:induction false} TokensAccountedFor(classify: Classifier, tokens: seq<string>)
    ensures AbsorbAll(classify, tokens).extras == Unrecognised(classify, tokens)
    ensures AbsorbAll(classify, tokens).routes == RoutesOf(classify, tokens)
  {
    if tokens != [] {
      TokensAccountedFor(classify, tokens[..|tokens| - 1]);
    }
  }

  lemma GatewayStep(classify: Classifier, o: PushOptions, t: string)
    ensures Absorb(classify, o, t).routeGateway == OrKeep(o.routeGateway, GatewayOf(classify, t))
  {
  }

  lemma RedirectStep(classify: Classifier, o: PushOptions, t: string)
    ensures Absorb(classify, o, t).redirectGateway
         == if IsRedirect(classify, t) then Some(MergeRedirect(o.redirectGateway, FlagsNamed(FlagWords(classify, t))))
            else o.redirectGateway
  {
  }

  /** Index of the first token with a parseable gateway, or the number of tokens. */
  function FirstGateway(classify: Classifier, tokens: seq<string>): (k: nat)
    ensures k <= |tokens| && forall j :: 0 <= j < k ==> GatewayOf(classify, tokens[j]).None?
    ensures k < |tokens| ==> GatewayOf(classify, tokens[k]).Some?
  {
    if tokens == [] then 0
    else
      var k := FirstGateway(classify, tokens[..|tokens| - 1]);
      if k < |tokens| - 1 || GatewayOf(classify, tokens[|tokens| - 1]).Some? then k else k + 1
  }

  /** The first parseable route-gateway wins; later ones, and unparseable ones, change nothing. */
  lemma {:induction false} FirstGatewayWins(classify: Classifier, tokens: seq<string>)
    ensures var k := FirstGateway(classify, tokens);
            AbsorbAll(classify, tokens).routeGateway == if k < |tokens| then GatewayOf(classify, tokens[k]) else None
  {
    if tokens != [] {
      var init, last := tokens[..|tokens| - 1], tokens[|tokens| - 1];
      FirstGatewayWins(classify, init);
      GatewayStep(classify, AbsorbAll(classify, init), last);
    }
  }

  /** The redirect flags are those of all flag lists read as one. */
  lemma {:induction false} RedirectIsUnion(classify: Classifier, tokens: seq<string>)
    ensures AbsorbAll(classify, tokens).redirectGateway
         == if exists t :: t in tokens && IsRedirect(classify, t)
            then Some(FlagsNamed(AllFlagWords(classify, tokens))) else None
  {
    if tokens != [] {
      var init, last := tokens[..|tokens| - 1], tokens[|tokens| - 1];
      RedirectIsUnion(classify, init);
      RedirectStep(classify, AbsorbAll(classify, init), last);
      assert forall t :: t in tokens <==> t in init || t == last by {
        assert tokens == init + [last];
      }
      var words, more := AllFlagWords(classify, init), FlagWords(classify, last);
      UnionOfFlags(words, more);
      if !exists t :: t in init && IsRedirect(classify, t) {
        NoRedirectNoWords(classify, init);
        assert words + more == more;
      }
      assert !IsRedirect(classify, last) ==> words + more == words;
    }
  }

  lemma UnionOfFlags(a: seq<string>, b: seq<string>)
    ensures FlagsNamed(a + b) == Union(FlagsNamed(a), FlagsNamed(b))
  {
    assert forall w :: w in a + b <==> w in a || w in b;
  }

  lemma {:induction false} NoRedirectNoWords(classify: Classifier, tokens: seq<string>)
    requires forall t :: t in tokens ==> !IsRedirect(classify, t)
    ensures AllFlagWords(classify, tokens) == []
  {
    if tokens != [] {
      NoRedirectNoWords(classify, tokens[..|tokens| - 1]);
      assert tokens[|tokens| - 1] in tokens;
    }
  }

  lemma {:induction false} WordsComeFromTokens(classify: Classifier, tokens: seq<string>, word: string)
    ensures word in AllFlagWords(classify, tokens) <==> exists t :: t in tokens && word in FlagWords(classify, t)
  {
    if tokens != [] {
      var init, last := tokens[..|tokens| - 1], tokens[|tokens| - 1];
      WordsComeFromTokens(classify, init, word);
      assert tokens == init + [last];
      assert forall t :: t in tokens <==> t in init || t == last;
    }
  }

  /** Neither the order nor the repetition of directives matters to the flags. */
  lemma RedirectIgnoresOrder(classify: Classifier, a: seq<string>, b: seq<string>)
    requires forall t :: t in a <==> t in b
    ensures AbsorbAll(classify, a).redirectGateway == AbsorbAll(classify, b).redirectGateway
  {
    RedirectIsUnion(classify, a);
    RedirectIsUnion(classify, b);
    forall word: string
      ensures word in AllFlagWords(classify, a) <==> word in AllFlagWords(classify, b)
    {
      WordsComeFromTokens(classify, a, word);
      WordsComeFromTokens(classify, b, word);
    }
  }

  // ------------------------------------------------------- from the wire to tokens

  /** A piece of the comma list is a token with white space around it. */
  ghost predicate Pads(piece: string, token: string) {
    exists before, after :: Blank(before) && Blank(after) && piece == before + token + after
  }

  /** A comma list is read as the tokens it was written from, blank pieces left out. */
  lemma TokensRead(pieces: seq<string>, tokens: seq<string>)
    requires |pieces| == |tokens|
    requires forall i :: 0 <= i < |pieces| ==> ',' !in pieces[i] && Pads(pieces[i], tokens[i]) && Tight(tokens[i])
    ensures Tokens(Split(Ended(pieces, ','), ',')) == NonEmpty(tokens)
  {
    SplitEnded(pieces, ',');
    TokensTrim(pieces, tokens);
    assert (pieces + [""])[..|pieces|] == pieces;
  }

  function NonEmpty(tokens: seq<string>): (kept: seq<string>)
    ensures (forall i :: 0 <= i < |tokens| ==> tokens[i] != "") ==> kept == tokens
  {
    if tokens == [] then []
    else
      var rest, last := NonEmpty(tokens[..|tokens| - 1]), tokens[|tokens| - 1];
      if last == "" then rest else rest + [last]
  }

  lemma {:induction false} TokensTrim(pieces: seq<string>, tokens: seq<string>)
    requires |pieces| == |tokens|
    requires forall i :: 0 <= i < |pieces| ==> Pads(pieces[i], tokens[i]) && Tight(tokens[i])
    ensures Tokens(pieces) == NonEmpty(tokens)
  {
    if pieces != [] {
      var last := |pieces| - 1;
      TokensTrim(pieces[..last], tokens[..last]);
      var before, after :| Blank(before) && Blank(after) && pieces[last] == before + tokens[last] + after;
      TrimIs(before, tokens[last], after);
    }
  }

  // ------------------------------------------------------- what each directive does

  function DnsOf(d: Directive): seq<Addr> {
    if d.Dns? then Listed(d.addr) else []
  }

  function NtpOf(d: Directive): seq<Addr> {
    if d.Ntp? then Listed(d.addr) else []
  }

  function WinsOf(d: Directive): seq<Addr> {
    if d.Wins? then Listed(d.addr) else []
  }

  function SearchOf(d: Directive): seq<string> {
    if d.DomainSearch? then [d.name] else []
  }

  /** What the directives of a list contribute, in order. */
  function Gathered<T>(classify: Classifier, of: Directive -> seq<T>, tokens: seq<string>): seq<T> {
    if tokens == [] then []
    else
      var last := classify(tokens[|tokens| - 1]);
      Gathered(classify, of, tokens[..|tokens| - 1]) + if last.Some? then of(last.value) else []
  }

  /** The DNS, NTP and WINS servers are the readable ones pushed, in order, and the search
      domains all those pushed. */
  lemma {:induction false} ListsGathered(classify: Classifier, tokens: seq<string>)
    ensures var o := AbsorbAll(classify, tokens);
            && o.dnsServers == Gathered(classify, DnsOf, tokens)
            && o.ntpServers == Gathered(classify, NtpOf, tokens)
            && o.winsServers == Gathered(classify, WinsOf, tokens)
            && o.domainSearch == Gathered(classify, SearchOf, tokens)
  {
    if tokens != [] {
      ListsGathered(classify, tokens[..|tokens| - 1]);
      var last := classify(tokens[|tokens| - 1]);
      if last.Some? {
        ListsStep(AbsorbAll(classify, tokens[..|tokens| - 1]), last.value);
      }
    }
  }

  lemma ListsStep(o: PushOptions, d: Directive)
    ensures var t := Effect(o, d);
            && t.dnsServers == o.dnsServers + DnsOf(d) && t.ntpServers == o.ntpServers + NtpOf(d)
            && t.winsServers == o.winsServers + WinsOf(d) && t.domainSearch == o.domainSearch + SearchOf(d)
  {
  }

  /** A directive that gives one value, and the value could be read. */
  predicate Gives(d: Directive) {
    || d.Domain? || d.Cipher? || d.Compress? || d.AuthTokenUser? || d.AuthToken?
    || (d.SetIfconfig? && d.ifconfig.Some?) || (d.SetIfconfigIpv6? && d.ifconfig.Some?)
    || ((d.TunMtu? || d.PingRestart? || d.PingExit? || d.Ping? || d.PeerId?) && d.number.Some?)
  }

  predicate SameKind(d: Directive, e: Directive) {
    || (d.Domain? && e.Domain?) || (d.Cipher? && e.Cipher?) || (d.Compress? && e.Compress?)
    || (d.AuthTokenUser? && e.AuthTokenUser?) || (d.AuthToken? && e.AuthToken?)
    || (d.SetIfconfig? && e.SetIfconfig?) || (d.SetIfconfigIpv6? && e.SetIfconfigIpv6?)
    || (d.TunMtu? && e.TunMtu?) || (d.PingRestart? && e.PingRestart?) || (d.PingExit? && e.PingExit?)
    || (d.Ping? && e.Ping?) || (d.PeerId? && e.PeerId?)
  }

  /** The record holds the value `d` gives. */
  predicate Holds(o: PushOptions, d: Directive)
    requires Gives(d)
  {
    match d
    case Domain(name) => o.domain == Some(name)
    case Cipher(name) => o.cipher == Some(name)
    case Compress(mode) => o.compress == Some(mode)
    case AuthTokenUser(name) => o.authTokenUser == Some(name)
    case AuthToken(token) => o.authToken == Some(token)
    case SetIfconfig(ifconfig) => o.ifconfig == ifconfig
    case SetIfconfigIpv6(ifconfig) => o.ifconfigIpv6 == ifconfig
    case TunMtu(number) => o.tunMtu == number
    case PingRestart(number) => o.pingRestart == number
    case PingExit(number) => o.pingExit == number
    case Ping(number) => o.ping == number
    case PeerId(number) => o.peerId == number
  }

  /** The record has no value of the kind `d` gives. */
  predicate Lacks(o: PushOptions, d: Directive)
    requires Gives(d)
  {
    match d
    case Domain(_) => o.domain.None?
    case Cipher(_) => o.cipher.None?
    case Compress(_) => o.compress.None?
    case AuthTokenUser(_) => o.authTokenUser.None?
    case AuthToken(_) => o.authToken.None?
    case SetIfconfig(_) => o.ifconfig.None?
    case SetIfconfigIpv6(_) => o.ifconfigIpv6.None?
    case TunMtu(_) => o.tunMtu.None?
    case PingRestart(_) => o.pingRestart.None?
    case PingExit(_) => o.pingExit.None?
    case Ping(_) => o.ping.None?
    case PeerId(_) => o.peerId.None?
  }

  /** Token `t` gives a value of the same kind as `d`. */
  predicate GivesLike(classify: Classifier, t: string, d: Directive) {
    classify(t).Some? && Gives(classify(t).value) && SameKind(classify(t).value, d)
  }

  /** Of the directives that give one value the last readable one of each kind decides. */
  lemma {:induction false} LastWins(classify: Classifier, tokens: seq<string>, k: nat)
    requires k < |tokens| && classify(tokens[k]).Some? && Gives(classify(tokens[k]).value)
    requires forall j :: k < j < |tokens| ==> !GivesLike(classify, tokens[j], classify(tokens[k]).value)
    ensures Holds(AbsorbAll(classify, tokens), classify(tokens[k]).value)
  {
    var init, last := tokens[..|tokens| - 1], tokens[|tokens| - 1];
    if k < |tokens| - 1 {
      LastWins(classify, init, k);
      OthersKeep(classify, AbsorbAll(classify, init), last, classify(tokens[k]).value);
    }
  }

  lemma OthersKeep(classify: Classifier, o: PushOptions, t: string, d: Directive)
    requires Gives(d) && !GivesLike(classify, t, d)
    ensures Holds(Absorb(classify, o, t), d) == Holds(o, d) && Lacks(Absorb(classify, o, t), d) == Lacks(o, d)
  {
    if classify(t).Some? {
      EffectOnNetwork(o, classify(t).value);
      EffectOnNumbers(o, classify(t).value);
      EffectOnSession(o, classify(t).value);
    }
  }

  lemma EffectOnNetwork(o: PushOptions, d: Directive)
    ensures !d.Domain? ==> Effect(o, d).domain == o.domain
    ensures !(d.SetIfconfig? && Gives(d)) ==> Effect(o, d).ifconfig == o.ifconfig
    ensures !(d.SetIfconfigIpv6? && Gives(d)) ==> Effect(o, d).ifconfigIpv6 == o.ifconfigIpv6
  {
  }

  lemma EffectOnNumbers(o: PushOptions, d: Directive)
    ensures !(d.TunMtu? && Gives(d)) ==> Effect(o, d).tunMtu == o.tunMtu
    ensures !(d.PingRestart? && Gives(d)) ==> Effect(o, d).pingRestart == o.pingRestart
    ensures !(d.PingExit? && Gives(d)) ==> Effect(o, d).pingExit == o.pingExit
    ensures !(d.Ping? && Gives(d)) ==> Effect(o, d).ping == o.ping
    ensures !(d.PeerId? && Gives(d)) ==> Effect(o, d).peerId == o.peerId
  {
  }

  lemma EffectOnSession(o: PushOptions, d: Directive)
    ensures !d.Cipher? ==> Effect(o, d).cipher == o.cipher
    ensures !d.Compress? ==> Effect(o, d).compress == o.compress
    ensures !d.AuthTokenUser? ==> Effect(o, d).authTokenUser == o.authTokenUser
    ensures !d.AuthToken? ==> Effect(o, d).authToken == o.authToken
  {
  }

  /** And without one there is no value. */
  lemma {:induction false} OnlyAsGiven(classify: Classifier, tokens: seq<string>, d: Directive)
    requires Gives(d) && forall j :: 0 <= j < |tokens| ==> !GivesLike(classify, tokens[j], d)
    ensures Lacks(AbsorbAll(classify, tokens), d)
  {
    if tokens != [] {
      OnlyAsGiven(classify, tokens[..|tokens| - 1], d);
      OthersKeep(classify, AbsorbAll(classify, tokens[..|tokens| - 1]), tokens[|tokens| - 1], d);
    }
  }

  // ------------------------------------------------------------ keyword dispatch

  /** `redirect-gateway` with flags reaches the redirect branch. */
  lemma RedirectReached(v6: Ipv6Reader, rest: string)
    ensures Classify(v6, "redirect-gateway " + rest) == Some(Redirect(Words(Trim([' '] + rest))))
  {
    var t := "redirect-gateway " + rest;
    assert t[0] == 'r' && t[1] == 'e';
    NotNetwork(v6, t);
    NotNumber(t);
    SessionRedirect(rest);
  }

  /** So does the legacy spelling, with the ipv6 flag added. */
  lemma LegacyRedirectReached(v6: Ipv6Reader, rest: string)
    ensures Classify(v6, "redirect-gateway-ipv6 " + rest) == Some(Redirect(Words(Trim([' '] + rest)) + ["ipv6"]))
  {
    var t := "redirect-gateway-ipv6 " + rest;
    assert t[0] == 'r' && t[1] == 'e';
    NotNetwork(v6, t);
    NotNumber(t);
    SessionRedirectIpv6(rest);
  }

  /** A bare `redirect-gateway` is recognised, with no flag at all. */
  lemma BareRedirect(v6: Ipv6Reader)
    ensures Classify(v6, "redirect-gateway") == Some(Redirect([]))
  {
    var t := "redirect-gateway";
    assert t[0] == 'r' && t[1] == 'e';
    NotNetwork(v6, t);
    NotNumber(t);
    SessionBareRedirect();
  }

  /** Each DHCP option is read for what it says; DOMAIN-SEARCH is not taken for DOMAIN. */
  lemma DhcpKeywords(v6: Ipv6Reader, rest: string)
    ensures Classify(v6, "dhcp-option DNS " + rest) == Some(Dns(ParseIp(v6, rest)))
    ensures Classify(v6, "dhcp-option DOMAIN-SEARCH " + rest) == Some(DomainSearch(rest))
    ensures Classify(v6, "dhcp-option DOMAIN " + rest) == Some(Domain(rest))
    ensures Classify(v6, "dhcp-option NTP " + rest) == Some(Ntp(ParseIp(v6, rest)))
    ensures Classify(v6, "dhcp-option WINS " + rest) == Some(Wins(ParseIp(v6, rest)))
  {
    Starts("dhcp-option DNS ", rest);
    Starts("dhcp-option DOMAIN-SEARCH ", rest);
    Starts("dhcp-option DOMAIN ", rest);
    Starts("dhcp-option NTP ", rest);
    Starts("dhcp-option WINS ", rest);
    DhcpDomain(v6, "dhcp-option DOMAIN " + rest);
    DhcpDomain(v6, "dhcp-option DOMAIN-SEARCH " + rest);
    DhcpServers(v6, "dhcp-option NTP " + rest);
    DhcpServers(v6, "dhcp-option WINS " + rest);
  }

  lemma Starts(key: string, rest: string)
    ensures key <= key + rest && (key + rest)[|key|..] == rest
  {
  }

  lemma DhcpDomain(v6: Ipv6Reader, t: string)
    ensures "dhcp-option DOMAIN-SEARCH " <= t ==> Classify(v6, t) == Some(DomainSearch(t[26..]))
    ensures "dhcp-option DOMAIN " <= t ==> Classify(v6, t) == Some(Domain(t[19..]))
  {
    assert "dhcp-option DNS "[13] == 'N';
    assert "dhcp-option DOMAIN-SEARCH "[13] == 'O' && "dhcp-option DOMAIN-SEARCH "[18] == '-';
    assert "dhcp-option DOMAIN "[13] == 'O' && "dhcp-option DOMAIN "[18] == ' ';
  }

  lemma DhcpServers(v6: Ipv6Reader, t: string)
    ensures "dhcp-option NTP " <= t ==> Classify(v6, t) == Some(Ntp(ParseIp(v6, t[16..])))
    ensures "dhcp-option WINS " <= t ==> Classify(v6, t) == Some(Wins(ParseIp(v6, t[17..])))
  {
    assert "dhcp-option DNS "[12] == 'D' && "dhcp-option DOMAIN-SEARCH "[12] == 'D' && "dhcp-option DOMAIN "[12] == 'D';
    assert "dhcp-option NTP "[12] == 'N' && "dhcp-option WINS "[12] == 'W';
  }

  /** So are the directives about the tunnel's addresses. */
  lemma AddressKeywords(v6: Ipv6Reader, rest: string)
    ensures Classify(v6, "route-gateway " + rest) == Some(RouteGateway(ParseIp(v6, rest)))
    ensures Classify(v6, "ifconfig-ipv6 " + rest) == Some(SetIfconfigIpv6(ReadIfconfigIpv6(v6, rest)))
    ensures Classify(v6, "ifconfig " + rest) == Some(SetIfconfig(ReadIfconfig(v6, rest)))
  {
    Starts("route-gateway ", rest);
    Starts("ifconfig-ipv6 ", rest);
    Starts("ifconfig ", rest);
    Gateways(v6, "route-gateway " + rest);
    Ifconfigs(v6, "ifconfig-ipv6 " + rest);
    Ifconfigs(v6, "ifconfig " + rest);
  }

  lemma Gateways(v6: Ipv6Reader, t: string)
    ensures "route-gateway " <= t ==> Classify(v6, t) == Some(RouteGateway(ParseIp(v6, t[14..])))
  {
    assert "route-gateway "[0] == 'r' && "route-gateway "[5] == '-' && "route-gateway "[6] == 'g';
  }

  lemma Ifconfigs(v6: Ipv6Reader, t: string)
    ensures "ifconfig-ipv6 " <= t ==> Classify(v6, t) == Some(SetIfconfigIpv6(ReadIfconfigIpv6(v6, t[14..])))
    ensures "ifconfig " <= t ==> Classify(v6, t) == Some(SetIfconfig(ReadIfconfig(v6, t[9..])))
  {
    assert "ifconfig-ipv6 "[0] == 'i' && "ifconfig "[0] == 'i';
    assert "ifconfig-ipv6 "[8] == '-' && "ifconfig "[8] == ' ';
  }

  /** Those with a number; `ping-restart` and `ping-exit` are not taken for `ping`. */
  lemma NumberKeywords(v6: Ipv6Reader, rest: string)
    ensures Classify(v6, "tun-mtu " + rest) == Some(TunMtu(ParseUnsigned(rest, 0xFFFF_FFFF)))
    ensures Classify(v6, "ping-restart " + rest) == Some(PingRestart(ParseUnsigned(rest, 0xFFFF_FFFF)))
    ensures Classify(v6, "ping-exit " + rest) == Some(PingExit(ParseUnsigned(rest, 0xFFFF_FFFF)))
    ensures Classify(v6, "ping " + rest) == Some(Ping(ParseUnsigned(rest, 0xFFFF_FFFF)))
    ensures Classify(v6, "peer-id " + rest) == Some(PeerId(ParseUnsigned(rest, 0xFFFF_FFFF)))
  {
    Starts("tun-mtu ", rest);
    Starts("ping-restart ", rest);
    Starts("ping-exit ", rest);
    Starts("ping ", rest);
    Starts("peer-id ", rest);
    TunMtus(v6, "tun-mtu " + rest);
    Pings(v6, "ping-restart " + rest);
    Pings(v6, "ping-exit " + rest);
    Pings(v6, "ping " + rest);
    PeerIds(v6, "peer-id " + rest);
  }

  lemma Pings(v6: Ipv6Reader, t: string)
    ensures "ping-restart " <= t ==> Classify(v6, t) == Some(PingRestart(ParseUnsigned(t[13..], 0xFFFF_FFFF)))
    ensures "ping-exit " <= t ==> Classify(v6, t) == Some(PingExit(ParseUnsigned(t[10..], 0xFFFF_FFFF)))
    ensures "ping " <= t ==> Classify(v6, t) == Some(Ping(ParseUnsigned(t[5..], 0xFFFF_FFFF)))
  {
    assert "ping-restart "[0] == 'p' && "ping-exit "[0] == 'p' && "ping "[0] == 'p';
    assert "ping-restart "[4] == '-' && "ping-exit "[4] == '-' && "ping "[4] == ' ';
    assert "ping-restart "[5] == 'r' && "ping-exit "[5] == 'e';
    if "ping-restart " <= t || "ping-exit " <= t || "ping " <= t {
      Unnetworked(v6, t);
    }
  }

  lemma TunMtus(v6: Ipv6Reader, t: string)
    requires "tun-mtu " <= t
    ensures Classify(v6, t) == Some(TunMtu(ParseUnsigned(t[8..], 0xFFFF_FFFF)))
  {
    assert t[0] == 't';
    Unnetworked(v6, t);
  }

  lemma PeerIds(v6: Ipv6Reader, t: string)
    requires "peer-id " <= t
    ensures Classify(v6, t) == Some(PeerId(ParseUnsigned(t[8..], 0xFFFF_FFFF)))
  {
    assert t[0] == 'p' && t[1] == 'e';
    Unnetworked(v6, t);
  }

  /** And those about the session; `auth-token-user` is not taken for `auth-token`. */
  lemma SessionKeywords(v6: Ipv6Reader, rest: string)
    ensures Classify(v6, "cipher " + rest) == Some(Cipher(rest))
    ensures Classify(v6, "compress " + rest) == Some(Compress(ReadCompression(rest)))
    ensures Classify(v6, "comp-lzo " + rest) == Some(Compress(ReadCompression("comp-lzo " + rest)))
    ensures Classify(v6, "auth-token-user " + rest) == Some(AuthTokenUser(rest))
    ensures Classify(v6, "auth-token " + rest) == Some(AuthToken(rest))
    ensures Classify(v6, "topology " + rest) == Some(Topology)
  {
    Starts("cipher ", rest);
    Starts("compress ", rest);
    Starts("comp-lzo ", rest);
    Starts("auth-token-user ", rest);
    Starts("auth-token ", rest);
    Starts("topology ", rest);
    Ciphers(v6, "cipher " + rest);
    Ciphers(v6, "compress " + rest);
    Ciphers(v6, "comp-lzo " + rest);
    AuthTokens(v6, "auth-token-user " + rest);
    AuthTokens(v6, "auth-token " + rest);
    Topologies(v6, "topology " + rest);
  }

  lemma Ciphers(v6: Ipv6Reader, t: string)
    ensures "cipher " <= t ==> Classify(v6, t) == Some(Cipher(t[7..]))
    ensures "compress " <= t ==> Classify(v6, t) == Some(Compress(ReadCompression(t[9..])))
    ensures "comp-lzo " <= t ==> Classify(v6, t) == Some(Compress(ReadCompression(t)))
  {
    assert "cipher "[0] == 'c' && "compress "[0] == 'c' && "comp-lzo "[0] == 'c';
    assert "cipher "[1] == 'i' && "compress "[1] == 'o' && "comp-lzo "[1] == 'o';
    assert "compress "[4] == 'r' && "comp-lzo "[4] == '-' && "comp-lzo "[..8] == "comp-lzo";
    if "cipher " <= t || "compress " <= t || "comp-lzo " <= t {
      Unnumbered(v6, t);
    }
    if "comp-lzo " <= t {
      assert "comp-lzo" <= t;
    }
  }

  lemma AuthTokens(v6: Ipv6Reader, t: string)
    ensures "auth-token-user " <= t ==> Classify(v6, t) == Some(AuthTokenUser(t[16..]))
    ensures "auth-token " <= t ==> Classify(v6, t) == Some(AuthToken(t[11..]))
  {
    assert "auth-token-user "[0] == 'a' && "auth-token "[0] == 'a';
    assert "auth-token-user "[10] == '-' && "auth-token "[10] == ' ';
    if "auth-token-user " <= t || "auth-token " <= t {
      Unnumbered(v6, t);
    }
  }

  lemma Topologies(v6: Ipv6Reader, t: string)
    requires "topology " <= t
    ensures Classify(v6, t) == Some(Topology)
  {
    assert t[0] == 't' && t[1] == 'o';
    Unnumbered(v6, t);
    TopologySession(t);
  }

  lemma TopologySession(t: string)
    requires "topology " <= t && t[0] == 't'
    ensures ClassifySession(t) == Some(Topology)
  {
  }

  lemma Unnetworked(v6: Ipv6Reader, t: string)
    requires t != "" && t[0] != 'd' && t[0] != 'r' && t[0] != 'i'
    ensures ClassifyNetwork(v6, t) == None
  {
  }

  lemma Unnumbered(v6: Ipv6Reader, t: string)
    requires |t| >= 2 && (t[0] == 'c' || t[0] == 'a' || (t[0] == 't' && t[1] == 'o'))
    ensures Classify(v6, t) == ClassifySession(t)
  {
    Unnetworked(v6, t);
    NoNumber(t);
  }

  lemma NoNumber(t: string)
    requires |t| >= 2 && t[0] != 'p' && (t[0] == 't' ==> t[1] != 'u')
    ensures ClassifyNumber(t) == None
  {
  }

  /** An address and what follows the first space make an ifconfig, if the address can be
      read; the prefix length of an IPv6 one is dropped. */
  lemma IfconfigIs(v6: Ipv6Reader, text: string, prefix: string, remote: string)
    requires ' ' !in text && '/' !in text && ' ' !in prefix
    ensures var ip := ParseIp(v6, text);
            var read := if ip.Some? then Some(Ifconfig(ip.value, remote)) else None;
            && ReadIfconfig(v6, text + [' '] + remote) == read
            && ReadIfconfigIpv6(v6, text + [' '] + remote) == read
            && ReadIfconfigIpv6(v6, text + ['/'] + prefix + [' '] + remote) == read
            && ReadIfconfig(v6, text) == None && ReadIfconfigIpv6(v6, text) == None
  {
    SplitOnceSeparator(text, ' ', remote);
    SplitOnceSeparator(text + ['/'] + prefix, ' ', remote);
    SplitSeparator(text, '/', prefix, Split(prefix, '/'));
    SplitWhole(text, '/');
    assert SplitOnce(text, ' ') == None;
  }

  /** A third word of a route is its gateway, if it can be read. */
  lemma RouteGatewayRead(v6: Ipv6Reader, dest: string, mask: string, gateway: string)
    requires Solid(dest) && Solid(mask) && Solid(gateway) && ParseIp(v6, dest).Some?
    requires ParseIpv4(mask).Some? && MaskToPrefix(ParseIpv4(mask).value).Some?
    ensures var d, p := ParseIp(v6, dest).value, MaskToPrefix(ParseIpv4(mask).value).value;
            && ReadRoute(v6, dest + " " + (mask + " " + gateway))
               == Some(PushedRoute(d, p, ParseIp(v6, gateway), V4))
            && ReadRoute(v6, dest + " " + mask) == Some(PushedRoute(d, p, None, V4))
  {
    WordsSolid(dest, mask + " " + gateway);
    WordsSolid(mask, gateway);
    WordsSolid(gateway, "");
    WordsSolid(dest, mask);
    WordsSolid(mask, "");
    assert Words(dest + " " + (mask + " " + gateway)) == [dest, mask, gateway];
    assert Words(dest + " " + mask) == [dest, mask];
  }

  /** A route without a readable destination and a contiguous mask is dropped. */
  lemma RouteRefused(v6: Ipv6Reader, dest: string, mask: string)
    requires Solid(dest) && Solid(mask)
    ensures ReadRoute(v6, dest) == None
    ensures ReadRoute(v6, dest + " " + mask) == None
       <==> ParseIp(v6, dest).None? || ParseIpv4(mask).None? || MaskToPrefix(ParseIpv4(mask).value).None?
  {
    WordsSolid(dest, mask);
    WordsSolid(mask, "");
  }

  /** The same of an IPv6 route, whose prefix is 128 when it is not written. */
  lemma RouteIpv6Read(v6: Ipv6Reader, dest: string, gateway: string)
    requires Solid(dest) && '/' !in dest && Solid(gateway) && ParseIp(v6, dest).Some?
    ensures ReadRouteIpv6(v6, dest + " " + gateway)
         == Some(PushedRoute(ParseIp(v6, dest).value, 128, ParseIp(v6, gateway), V6))
    ensures ReadRouteIpv6(v6, dest) == Some(PushedRoute(ParseIp(v6, dest).value, 128, None, V6))
  {
    WordsSolid(dest, gateway);
    WordsSolid(gateway, "");
    assert SplitOnce(dest, '/') == None;
    assert Words(dest + " " + gateway) == [dest, gateway];
    Unwritten();
  }

  lemma Unwritten()
    ensures ParseUnsigned("128", 255) == Some(128)
  {
    ShowByteReads(128);
    assert ShowByte(128) == "128";
  }

  /** Compression is recognised by name, in any case and with white space around it. */
  lemma CompressionIs(before: string, s: string, after: string)
    requires Blank(before) && Tight(s) && Blank(after)
    ensures var mode := ReadCompression(before + s + after);
            && (mode.Stub? <==> LowerAscii(s) == "stub") && (mode.StubV2? <==> LowerAscii(s) == "stub-v2")
            && (mode.CompLzoOff? <==> LowerAscii(s) == "comp-lzo no") && (mode.Active? ==> mode.algorithm == s)
  {
    TrimIs(before, s, after);
    assert "stub" != "stub-v2" && "stub"[0] == 's' && "stub-v2"[0] == 's' && "comp-lzo no"[0] == 'c';
  }

  /** A token stays an extra exactly when it starts with no known keyword and is none of
      those that need no argument. */
  lemma ExtrasExactly(v6: Ipv6Reader, t: string)
    ensures Classify(v6, t).None?
       <==> && !("dhcp-option DNS " <= t) && !("dhcp-option DOMAIN-SEARCH " <= t) && !("dhcp-option DOMAIN " <= t)
            && !("dhcp-option NTP " <= t) && !("dhcp-option WINS " <= t)
            && !("route " <= t) && !("route-ipv6 " <= t) && !("route-gateway " <= t)
            && !("ifconfig " <= t) && !("ifconfig-ipv6 " <= t)
            && !("tun-mtu " <= t) && !("ping-restart " <= t) && !("ping-exit " <= t) && !("ping " <= t)
            && !("peer-id " <= t) && !("cipher " <= t) && !("compress " <= t)
            && !("comp-lzo " <= t) && t != "comp-lzo"
            && !("redirect-gateway " <= t) && t != "redirect-gateway"
            && !("redirect-gateway-ipv6 " <= t) && t != "redirect-gateway-ipv6"
            && !("auth-token " <= t) && !("auth-token-user " <= t) && !("topology " <= t)
  {
    SessionExtras(t);
  }

  lemma SessionExtras(t: string)
    ensures ClassifySession(t).None?
       <==> && !("cipher " <= t) && !("compress " <= t) && !("comp-lzo " <= t) && t != "comp-lzo"
            && !("redirect-gateway " <= t) && t != "redirect-gateway"
            && !("redirect-gateway-ipv6 " <= t) && t != "redirect-gateway-ipv6"
            && !("auth-token " <= t) && !("auth-token-user " <= t) && !("topology " <= t)
  {
    assert "comp-lzo " <= t ==> "comp-lzo" <= t;
    if "comp-lzo" <= t {
      assert t[0] == 'c';
    }
  }

  lemma NotNetwork(v6: Ipv6Reader, t: string)
    requires |t| >= 2 && t[0] == 'r' && t[1] == 'e'
    ensures ClassifyNetwork(v6, t) == None
  {
  }

  lemma NotNumber(t: string)
    requires |t| >= 1 && t[0] == 'r'
    ensures ClassifyNumber(t) == None
  {
  }

  lemma SessionRedirect(rest: string)
    ensures ClassifySession("redirect-gateway " + rest) == Some(Redirect(Words(Trim([' '] + rest))))
  {
    var a := "redirect-gateway " + rest;
    assert a[0] == 'r' && a[16] == ' ' && a[16..] == [' '] + rest;
    assert "redirect-gateway-ipv6"[16] == '-' && "redirect-gateway-ipv6 "[16] == '-';
  }

  lemma SessionBareRedirect()
    ensures ClassifySession("redirect-gateway") == Some(Redirect([]))
  {
    var a := "redirect-gateway";
    assert a[0] == 'r' && a[16..] == "";
    assert Words(Trim("")) == [];
  }

  lemma SessionRedirectIpv6(rest: string)
    ensures ClassifySession("redirect-gateway-ipv6 " + rest) == Some(Redirect(Words(Trim([' '] + rest)) + ["ipv6"]))
  {
    var b := "redirect-gateway-ipv6 " + rest;
    assert b[0] == 'r' && b[21..] == [' '] + rest;
  }
}
