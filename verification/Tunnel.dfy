/** What CONNECTED means for packets: which addresses go through the tunnel once the
    routes are in. */
module Tunnel {
  import opened Nets
  import opened Push
  import opened Forwarding
  import R = Routes
  import PushLaws
  import RouteLaws
  import V = Recovery
  import L = RecoveryLaws

  type Hop = (Option<Addr>, Option<nat>)

  predicate Beats(l: Option<nat>, m: Option<nat>) {
    l.Some? && (m.None? || l.value > m.value)
  }

  /** The hop every tunnel route gets on macOS: the interface when it is known. */
  function TunnelHop(push: PushOptions, found: Option<nat>): Hop
    requires push.routeGateway.Some?
  {
    var ifindex := V.TunnelIfindex(push, found);
    (if ifindex.Some? then None else push.routeGateway, ifindex)
  }

  function Spread<H>(nets: set<IpNet>, hop: H): map<IpNet, H> {
    map n | n in nets :: hop
  }

  lemma {:induction false} LongestOfTwo<H>(t: map<IpNet, H>, nets: set<IpNet>, hop: H, a: Addr, p: nat)
    requires p <= Width(a.family)
    ensures var mine, theirs := Longest(Spread(nets, hop), a, p), Longest(t, a, p);
            Longest(AddAbsent(t, nets, hop), a, p) == if Beats(mine, theirs) then mine else theirs
    decreases p
  {
    if NetworkOf(a, p) !in AddAbsent(t, nets, hop) && p > 0 {
      LongestOfTwo(t, nets, hop, a, p - 1);
    }
  }

  /** Nothing longer than the longest match is in the table. */
  lemma {:induction false} NoneLonger<H>(t: map<IpNet, H>, a: Addr, p: nat, q: nat)
    requires q <= p <= Width(a.family)
    requires Longest(t, a, p).Some? ==> Longest(t, a, p).value < q
    ensures NetworkOf(a, q) !in t
    decreases p
  {
    if q < p {
      NoneLonger(t, a, p - 1, q);
    }
  }

  /** Adding networks that are absent diverts exactly the addresses whose best match
      among them is longer than the best match there was. */
  lemma AddedNetsDivert<H>(t: map<IpNet, H>, nets: set<IpNet>, hop: H, a: Addr)
    ensures var w := Width(a.family);
            Forward(AddAbsent(t, nets, hop), a)
            == if Beats(Longest(Spread(nets, hop), a, w), Longest(t, a, w)) then Some(hop) else Forward(t, a)
  {
    var w := Width(a.family);
    var mine := Longest(Spread(nets, hop), a, w);
    LongestOfTwo(t, nets, hop, a, w);
    if Beats(mine, Longest(t, a, w)) {
      NoneLonger(t, a, w, mine.value);
    }
  }

  /** After CONNECTED, when the kernel took every route: an address is sent to the
      tunnel exactly when its best match among the pushed and redirect networks is
      longer than its best foreign match; all others are forwarded as without us. */
  lemma ConnectedForwards(h: V.Host, push: PushOptions, found: Option<nat>, a: Addr)
    requires L.Inv(R.Mac, h) && push.routeGateway.Some? && OnePerDest(h.foreign)
    requires RouteLaws.Canonical(V.Desired(push))
    requires V.Possible(R.Mac, h, V.Connected(push, found, V.Desired(push)))
    ensures var t := V.Next(R.Mac, h, V.Connected(push, found, V.Desired(push)));
            var w := Width(a.family);
            && OnePerDest(t.foreign + t.own)
            && Forward(Hops(t.foreign + t.own), a)
               == if Beats(Longest(Spread(V.Desired(push), ()), a, w), Longest(Hops(h.foreign), a, w))
                  then Some(TunnelHop(push, found)) else Forward(Hops(h.foreign), a)
  {
    var nets, hop := V.Desired(push), TunnelHop(push, found);
    TunnelTable(h, push, found);
    AddedNetsDivert(Hops(h.foreign), nets, hop, a);
    SpreadLength(nets, hop, (), a, Width(a.family));
  }

  lemma {:induction false} SpreadLength<G, H>(nets: set<IpNet>, g: G, h: H, a: Addr, p: nat)
    requires p <= Width(a.family)
    ensures Longest(Spread(nets, g), a, p) == Longest(Spread(nets, h), a, p)
    decreases p
  {
    if NetworkOf(a, p) !in nets && p > 0 {
      SpreadLength(nets, g, h, a, p - 1);
    }
  }

  /** The table after CONNECTED, as a forwarding table. */
  lemma TunnelTable(h: V.Host, push: PushOptions, found: Option<nat>)
    requires L.Inv(R.Mac, h) && push.routeGateway.Some? && OnePerDest(h.foreign)
    requires RouteLaws.Canonical(V.Desired(push))
    requires V.Possible(R.Mac, h, V.Connected(push, found, V.Desired(push)))
    ensures var t := V.Next(R.Mac, h, V.Connected(push, found, V.Desired(push)));
            && OnePerDest(t.foreign + t.own)
            && Hops(t.foreign + t.own) == AddAbsent(Hops(h.foreign), V.Desired(push), TunnelHop(push, found))
  {
    var gateway, ifindex := push.routeGateway.value, V.TunnelIfindex(push, found);
    var nets := V.Desired(push);
    L.ConnectedHeals(R.Mac, h, push, found, nets);
    FillAddsAbsent(h.foreign, nets, gateway, ifindex);
    var own := R.RoutesOf(R.Mac, R.Uniform(nets, gateway), ifindex);
    assert R.Fill(R.Mac, h.foreign, own) == h.foreign + own by {
      forall r | r in own ensures !R.Claims(R.Mac, h.foreign, r) {
      }
    }
  }

  /** A full tunnel: once a redirect is in, no address of a covered family is left to
      the default route; each goes to the tunnel or to a more specific foreign route. */
  lemma FullTunnel(h: V.Host, push: PushOptions, found: Option<nat>, a: Addr)
    requires L.Inv(R.Mac, h) && push.routeGateway.Some? && OnePerDest(h.foreign)
    requires RouteLaws.Canonical(V.Desired(push)) && InRange(a)
    requires push.redirectGateway.Some? && Covers(push.redirectGateway.value, a.family)
    requires V.Possible(R.Mac, h, V.Connected(push, found, V.Desired(push)))
    ensures var t := V.Next(R.Mac, h, V.Connected(push, found, V.Desired(push)));
            var theirs := Longest(Hops(h.foreign), a, Width(a.family));
            theirs == None || theirs == Some(0) ==> Forward(Hops(t.foreign + t.own), a) == Some(TunnelHop(push, found))
  {
    ConnectedForwards(h, push, found, a);
    HalfDesired(push, a);
    HalfFound(Spread(V.Desired(push), ()), a, Width(a.family));
  }

  lemma HalfDesired(push: PushOptions, a: Addr)
    requires InRange(a) && push.redirectGateway.Some? && Covers(push.redirectGateway.value, a.family)
    ensures NetworkOf(a, 1) in V.Desired(push)
  {
    TwoHalves(a);
    HalvesListed(push.redirectGateway.value, NetworkOf(a, 1));
    assert NetworkOf(a, 1) in V.DesiredNets(push);
  }

  lemma {:induction false} HalfFound<H>(t: map<IpNet, H>, a: Addr, p: nat)
    requires 1 <= p <= Width(a.family) && NetworkOf(a, 1) in t
    ensures Longest(t, a, p).Some? && Longest(t, a, p).value >= 1
    decreases p
  {
    if NetworkOf(a, p) !in t {
      HalfFound(t, a, p - 1);
    }
  }

  const FLAGS := {"def1", "local", "autolocal", "bypass-dhcp", "bypass-dns", "block-local", "ipv6", "!ipv4"}

  /** A redirect adds no route at all exactly when it does not ask for IPv6 and either
      opts out of IPv4 or names no flag that is known. So a directive without any
      flag redirects nothing. */
  lemma NothingRedirected(v6: Ipv6Reader, words: seq<string>)
    ensures RedirectNets(FlagsNamed(words)) == []
       <==> "ipv6" !in words && ("!ipv4" in words || forall w :: w in words ==> w !in FLAGS)
    ensures Classify(v6, "redirect-gateway") == Some(Redirect([])) && RedirectNets(FlagsNamed([])) == []
  {
    var rg := FlagsNamed(words);
    assert rg.IsFullTunnel() <==> exists w :: w in words && w in FLAGS by {
      forall w | w in words && w in FLAGS ensures rg.IsFullTunnel() {
      }
    }
    PushLaws.BareRedirect(v6);
  }
}
