/** The routes of a profile printed into the openvpn configuration, and read back. */
module Config {
  import opened Nets
  import opened Text
  import opened Numbers
  import opened Push
  import L = PushLaws

  /** A profile route: the mask field is a prefix length of one byte. */
  datatype Route = Route(destination: Addr, mask: nat)

  datatype RouteKind = Include | Exclude

  type Ipv6Printer = nat -> string

  predicate Printable(r: Route) {
    r.mask < 256 && (r.destination.family.V4? ==> r.destination.bits < 0x1_0000_0000)
  }

  function Ipv4Part(r: Route): string
    requires Printable(r) && r.destination.family.V4?
  {
    MaskBelow(r.mask);
    ShowIpv4(r.destination.bits) + " " + ShowIpv4(PrefixToMask(r.mask))
  }

  function Ipv6Part(show6: Ipv6Printer, r: Route): string
    requires Printable(r) && r.destination.family.V6?
  {
    show6(r.destination.bits) + ['/'] + ShowByte(r.mask)
  }

  /** The line `write_route` appends, without its newline. */
  function RouteLine(v6: Ipv6Printer, r: Route, kind: RouteKind): string
    requires Printable(r)
  {
    var end := if kind.Exclude? then " net_gateway" else "";
    match r.destination.family
    case V4 => "route " + Ipv4Part(r) + end
    case V6 => "route-ipv6 " + Ipv6Part(v6, r) + end
  }

  lemma MaskBelow(prefix: nat)
    ensures PrefixToMask(prefix) < 0x1_0000_0000
  {
  }

  /** An IPv4 include route reads back with the same destination; the prefix is the
      same exactly when it fits an IPv4 address, and 32 otherwise. */
  lemma Ipv4RouteReadsBack(v6: Ipv6Reader, show6: Ipv6Printer, r: Route)
    requires Printable(r) && r.destination.family.V4?
    ensures var prefix := if r.mask <= 32 then r.mask else 32;
            Classify(v6, RouteLine(show6, r, Include))
                == Some(AddRoute(Some(PushedRoute(r.destination, prefix, None, V4))))
  {
    var bits, mask := r.destination.bits, PrefixToMask(r.mask);
    MaskBelow(r.mask);
    var rest := ShowIpv4(bits) + " " + ShowIpv4(mask);
    PrintedMask(r.mask);
    PrintedRoute(v6, bits, mask);
    RouteKeyword(v6, rest);
    assert RouteLine(show6, r, Include) == "route " + rest;
  }

  lemma PrintedMask(prefix: nat)
    ensures MaskToPrefix(PrefixToMask(prefix)) == Some(if prefix <= 32 then prefix else 32)
  {
    MaskBelow(prefix);
    if prefix <= 32 {
      MaskPrefixInverse(PrefixToMask(prefix), prefix);
    } else {
      LongPrefixClamps(prefix);
    }
  }

  lemma PrintedRoute(v6: Ipv6Reader, bits: nat, mask: nat)
    requires bits < 0x1_0000_0000 && mask < 0x1_0000_0000 && MaskToPrefix(mask).Some?
    ensures ReadRoute(v6, ShowIpv4(bits) + " " + ShowIpv4(mask))
         == Some(PushedRoute(Addr(V4, bits), MaskToPrefix(mask).value, None, V4))
  {
    ShowIpv4Reads(bits);
    ShowIpv4Reads(mask);
    TwoWords(ShowIpv4(bits), ShowIpv4(mask));
  }

  lemma TwoWords(a: string, b: string)
    requires Solid(a) && Solid(b)
    ensures Words(a + " " + b) == [a, b]
  {
    WordsSolid(a, b);
    WordsSolid(b, "");
  }

  lemma RouteKeyword(v6: Ipv6Reader, rest: string)
    ensures Classify(v6, "route " + rest) == Some(AddRoute(ReadRoute(v6, rest)))
    ensures Classify(v6, "route-ipv6 " + rest) == Some(AddRoute(ReadRouteIpv6(v6, rest)))
  {
    var a, b := "route " + rest, "route-ipv6 " + rest;
    assert a[0] == 'r' && a[5] == ' ' && a[6..] == rest;
    assert b[0] == 'r' && b[5] == '-' && b[11..] == rest;
  }

  /** An IPv6 include route reads back unchanged for any prefix byte, given a
      printer of IPv6 literals that the reader undoes. */
  lemma Ipv6RouteReadsBack(v6: Ipv6Reader, show6: Ipv6Printer, r: Route)
    requires r.mask < 256 && r.destination.family.V6?
    requires var s := show6(r.destination.bits);
             Solid(s) && '/' !in s && ParseIpv4(s) == None && v6(s) == Some(r.destination.bits)
    ensures Classify(v6, RouteLine(show6, r, Include))
            == Some(AddRoute(Some(PushedRoute(r.destination, r.mask, None, V6))))
  {
    var dest, prefix := show6(r.destination.bits), ShowByte(r.mask);
    var cidr := dest + ['/'] + prefix;
    ShowByteReads(r.mask);
    SplitOnceSeparator(dest, '/', prefix);
    assert Solid(cidr) by {
      assert forall i :: 0 <= i < |cidr| ==> cidr[i] in dest || cidr[i] == '/' || cidr[i] in prefix;
    }
    WordsSolid(cidr, "");
    RouteKeyword(v6, cidr);
    assert RouteLine(show6, r, Include) == "route-ipv6 " + cidr;
  }

  /** An exclude route is the include line with one word more, which sends the network to
      the gateway of the untunnelled host; read back it is the same network with no
      address for a gateway. */
  lemma ExcludeReadsBack(v6: Ipv6Reader, show6: Ipv6Printer, r: Route)
    requires Printable(r) && v6("net_gateway") == None
    requires r.destination.family.V6? ==> Solid(show6(r.destination.bits))
    ensures RouteLine(show6, r, Exclude) == RouteLine(show6, r, Include) + " net_gateway"
    ensures Words(RouteLine(show6, r, Exclude)) == Words(RouteLine(show6, r, Include)) + ["net_gateway"]
    ensures Classify(v6, RouteLine(show6, r, Exclude)) == Classify(v6, RouteLine(show6, r, Include))
  {
    TailIs();
    NoAddress(v6, "net_gateway");
    ExcludeLine(show6, r);
    IncludeLine(show6, r);
    match r.destination.family
    case V4 =>
      ExcludeIpv4(v6, r, "net_gateway");
      LongerIpv4(v6, Ipv4Part(r), "net_gateway");
    case V6 =>
      CidrIsSolid(show6(r.destination.bits), r.mask);
      LongerRouteIpv6(v6, Ipv6Part(show6, r), "net_gateway");
      LongerIpv6(v6, Ipv6Part(show6, r), "net_gateway");
  }

  lemma TailIs()
    ensures " net_gateway" == " " + "net_gateway"
  {
  }

  lemma ExcludeLine(show6: Ipv6Printer, r: Route)
    requires Printable(r)
    ensures RouteLine(show6, r, Exclude) == RouteLine(show6, r, Include) + " net_gateway"
  {
    assert forall s: string :: s + "" == s;
  }

  lemma IncludeLine(show6: Ipv6Printer, r: Route)
    requires Printable(r)
    ensures RouteLine(show6, r, Include)
         == match r.destination.family
            case V4 => "route " + Ipv4Part(r)
            case V6 => "route-ipv6 " + Ipv6Part(show6, r)
  {
    assert forall s: string :: s + "" == s;
  }

  lemma ExcludeIpv4(v6: Ipv6Reader, r: Route, end: string)
    requires Printable(r) && r.destination.family.V4? && Solid(end) && ParseIp(v6, end) == None
    ensures var rest := Ipv4Part(r);
            && Words(rest + (" " + end)) == Words(rest) + [end]
            && ReadRoute(v6, rest + (" " + end)) == ReadRoute(v6, rest)
  {
    MaskBelow(r.mask);
    ShowIpv4Reads(r.destination.bits);
    ShowIpv4Reads(PrefixToMask(r.mask));
    PrintedMask(r.mask);
    LongerRoute(v6, ShowIpv4(r.destination.bits), ShowIpv4(PrefixToMask(r.mask)), end);
  }

  lemma LongerIpv4(v6: Ipv6Reader, rest: string, end: string)
    requires Words(rest + (" " + end)) == Words(rest) + [end]
    requires ReadRoute(v6, rest + (" " + end)) == ReadRoute(v6, rest)
    ensures var line := "route " + rest;
            && Words(line + (" " + end)) == Words(line) + [end]
            && Classify(v6, line + (" " + end)) == Classify(v6, line)
  {
    LongerLine(rest, " " + end);
    LineWords(rest);
    LineWords(rest + (" " + end));
    RouteKeyword(v6, rest);
    RouteKeyword(v6, rest + (" " + end));
  }

  lemma LongerIpv6(v6: Ipv6Reader, rest: string, end: string)
    requires Words(rest + (" " + end)) == Words(rest) + [end]
    requires ReadRouteIpv6(v6, rest + (" " + end)) == ReadRouteIpv6(v6, rest)
    ensures var line := "route-ipv6 " + rest;
            && Words(line + (" " + end)) == Words(line) + [end]
            && Classify(v6, line + (" " + end)) == Classify(v6, line)
  {
    LongerLine(rest, " " + end);
    LineWords(rest);
    LineWords(rest + (" " + end));
    RouteKeyword(v6, rest);
    RouteKeyword(v6, rest + (" " + end));
  }

  lemma NoAddress(v6: Ipv6Reader, end: string)
    requires end == "net_gateway" && v6(end) == None
    ensures ParseIp(v6, end) == None && Solid(end)
  {
    assert end[0] == 'n';
    LettersAreNoAddress(end);
  }

  lemma LettersAreNoAddress(s: string)
    requires s != "" && forall i :: 0 <= i < |s| ==> '_' <= s[i] <= 'z'
    ensures ParseIpv4(s) == None && Solid(s)
  {
    var first := Split(s, '.')[0];
    assert first != "" ==> first[0] == s[0];
  }

  lemma CidrIsSolid(dest: string, prefix: nat)
    requires prefix < 256 && Solid(dest)
    ensures Solid(dest + ['/'] + ShowByte(prefix))
  {
    ShowByteReads(prefix);
    var cidr := dest + ['/'] + ShowByte(prefix);
    assert forall i :: 0 <= i < |cidr| ==> cidr[i] in dest || cidr[i] == '/' || cidr[i] in ShowByte(prefix);
  }

  /** One word more, which is no address. */
  lemma LongerRoute(v6: Ipv6Reader, dest: string, mask: string, end: string)
    requires Solid(dest) && Solid(mask) && Solid(end) && ParseIpv4(dest).Some? && ParseIp(v6, end) == None
    requires ParseIpv4(mask).Some? && MaskToPrefix(ParseIpv4(mask).value).Some?
    ensures var rest := dest + " " + mask;
            && Words(rest + (" " + end)) == Words(rest) + [end]
            && ReadRoute(v6, rest + (" " + end)) == ReadRoute(v6, rest)
  {
    assert dest + " " + mask + (" " + end) == dest + " " + (mask + " " + end) by {
      Regroup(dest + " ", mask, " " + end);
      Regroup(mask, " ", end);
    }
    ThreeWords(dest, mask, end);
    TwoWords(dest, mask);
    assert [dest, mask] + [end] == [dest, mask, end];
    L.RouteGatewayRead(v6, dest, mask, end);
  }

  lemma ThreeWords(a: string, b: string, c: string)
    requires Solid(a) && Solid(b) && Solid(c)
    ensures Words(a + " " + (b + " " + c)) == [a, b, c]
  {
    WordsSolid(a, b + " " + c);
    TwoWords(b, c);
  }

  lemma LongerRouteIpv6(v6: Ipv6Reader, cidr: string, end: string)
    requires Solid(cidr) && Solid(end) && ParseIp(v6, end) == None
    ensures && Words(cidr + (" " + end)) == Words(cidr) + [end]
            && ReadRouteIpv6(v6, cidr + (" " + end)) == ReadRouteIpv6(v6, cidr)
  {
    Regroup(cidr, " ", end);
    WordsSolid(cidr, "");
    TwoWords(cidr, end);
  }

  lemma Regroup(a: string, b: string, c: string)
    ensures a + (b + c) == a + b + c
  {
  }

  /** What a longer argument does to the line. */
  lemma LongerLine(rest: string, more: string)
    ensures "route " + rest + more == "route " + (rest + more)
    ensures "route-ipv6 " + rest + more == "route-ipv6 " + (rest + more)
  {
    Regroup("route ", rest, more);
    Regroup("route-ipv6 ", rest, more);
  }

  lemma LineWords(rest: string)
    ensures Words("route " + rest) == ["route"] + Words(rest)
    ensures Words("route-ipv6 " + rest) == ["route-ipv6"] + Words(rest)
  {
    Keyword("route", rest);
    Keyword("route-ipv6", rest);
    assert "route " == "route" + " " && "route-ipv6 " == "route-ipv6" + " ";
  }

  lemma Keyword(key: string, rest: string)
    requires key == "route" || key == "route-ipv6"
    ensures Words(key + " " + rest) == [key] + Words(rest)
  {
    assert forall i :: 0 <= i < |key| ==> key[i] >= '-' && key[i] <= 'z';
    WordsSolid(key, rest);
  }
}
