/** Longest-prefix-match forwarding (section 5.2.4.3 of RFC 1812) and the two
    half-space routes that redirect a default route without touching it. */
module Forwarding {
  import opened Nets
  import opened Push
  import R = Routes

  /** Length of the longest network of `t`, at most `p` bits, that `a` truncates to. */
  function Longest<H>(t: map<IpNet, H>, a: Addr, p: nat): (l: Option<nat>)
    requires p <= Width(a.family)
    ensures l.Some? ==> l.value <= p && NetworkOf(a, l.value) in t
  {
    if NetworkOf(a, p) in t then Some(p) else if p == 0 then None else Longest(t, a, p - 1)
  }

  /** Where the table sends a packet for `a`. */
  function Forward<H>(t: map<IpNet, H>, a: Addr): Option<H> {
    match Longest(t, a, Width(a.family))
    case Some(p) => Some(t[NetworkOf(a, p)])
    case None => None
  }

  /** Longest match means what it should: no network of the table that contains the
      address is longer, and there is none at all when nothing is found. */
  lemma {:induction false} LongestIsLongest<H>(t: map<IpNet, H>, a: Addr, p: nat, n: IpNet)
    requires p <= Width(a.family) && n in t && Canon(n) == n && Contains(n, a) && n.prefix <= p
    ensures Longest(t, a, p).Some? && n.prefix <= Longest(t, a, p).value
    decreases p
  {
    if NetworkOf(a, p) !in t {
      LongestIsLongest(t, a, p - 1, n);
    }
  }

  // ------------------------------------------------------------ the def1 routes

  const V6_TOP := 0x8000 * Pow2(112)

  function LowerHalf(f: Family): IpNet {
    Net(Addr(f, 0), 1)
  }

  function UpperHalf(f: Family): IpNet {
    Net(Addr(f, match f case V4 => 0x8000_0000 case V6 => V6_TOP), 1)
  }

  /** `redirect_gateway_routes`. */
  function RedirectNets(rg: RedirectGateway): seq<IpNet> {
    (if rg.CoversIpv4() then [LowerHalf(V4), UpperHalf(V4)] else [])
    + (if rg.CoversIpv6() then [LowerHalf(V6), UpperHalf(V6)] else [])
  }

  predicate Covers(rg: RedirectGateway, f: Family) {
    match f
    case V4 => rg.CoversIpv4()
    case V6 => rg.CoversIpv6()
  }

  /** Adds each network that is absent; a present one is adopted as it is. */
  function AddAbsent<H>(t: map<IpNet, H>, nets: set<IpNet>, hop: H): map<IpNet, H> {
    t + map n | n in nets && n !in t :: hop
  }

  lemma {:induction false} TruncateToTopBit(bits: nat, low: nat)
    requires bits < Pow2(low + 1)
    ensures Truncate(bits, low) == if bits < Pow2(low) then 0 else Pow2(low)
  {
    if low > 0 {
      TruncateToTopBit(bits / 2, low - 1);
    }
  }

  lemma TopBits()
    ensures Pow2(31) == 0x8000_0000 && Pow2(127) == V6_TOP
  {
    Times16(0);
    Times16(4);
    Times16(8);
    Times16(12);
    Times16(16);
    Times16(20);
    Times16(24);
    assert Pow2(28 + 3) == 8 * Pow2(28);
    Times16(112);
    Times16(116);
    Times16(120);
    assert Pow2(124 + 3) == 8 * Pow2(124);
  }

  lemma Times16(n: nat)
    ensures Pow2(n + 4) == 16 * Pow2(n)
  {
    assert Pow2(n + 2) == 4 * Pow2(n);
  }

  /** Every address lies in one half or the other. */
  lemma TwoHalves(a: Addr)
    requires InRange(a)
    ensures NetworkOf(a, 1) == LowerHalf(a.family) || NetworkOf(a, 1) == UpperHalf(a.family)
  {
    TopBits();
    TruncateToTopBit(a.bits, Width(a.family) - 1);
  }

  lemma HalvesListed(rg: RedirectGateway, n: IpNet)
    ensures n in RedirectNets(rg) ==> n.prefix == 1 && Covers(rg, n.addr.family)
    ensures Covers(rg, n.addr.family) && (n == LowerHalf(n.addr.family) || n == UpperHalf(n.addr.family))
            ==> n in RedirectNets(rg)
  {
  }

  /** Tables that agree on networks of two bits and more agree on every match that long. */
  lemma {:induction false} LongMatchUnchanged<H>(t: map<IpNet, H>, u: map<IpNet, H>, a: Addr, p: nat)
    requires 1 <= p <= Width(a.family)
    requires forall n: IpNet :: n.prefix >= 2 ==> (n in t <==> n in u)
    ensures var l := Longest(t, a, p);
            if l.Some? && l.value >= 2 then Longest(u, a, p) == l
            else l == Longest(t, a, 1) && Longest(u, a, p) == Longest(u, a, 1)
    decreases p
  {
    if p >= 2 && NetworkOf(a, p) !in t {
      LongMatchUnchanged(t, u, a, p - 1);
    }
  }

  /** The split routes take exactly the addresses of the covered families whose best
      match was the default route or nothing; every other address is left alone. */
  lemma Def1Redirects<H>(t: map<IpNet, H>, rg: RedirectGateway, hop: H, a: Addr)
    requires InRange(a)
    ensures var best := Longest(t, a, Width(a.family));
            Forward(AddAbsent(t, R.Elems(RedirectNets(rg)), hop), a)
            == if Covers(rg, a.family) && (best == None || best == Some(0)) then Some(hop) else Forward(t, a)
  {
    var nets := R.Elems(RedirectNets(rg));
    var u := AddAbsent(t, nets, hop);
    var half := NetworkOf(a, 1);
    TwoHalves(a);
    HalvesListed(rg, half);
    forall n: IpNet ensures n in u && n !in t ==> n.prefix == 1 {
      HalvesListed(rg, n);
    }
    HalvesListed(rg, NetworkOf(a, 0));
    LongMatchUnchanged(t, u, a, Width(a.family));
    assert half in u <==> half in t || Covers(rg, a.family);
    assert Longest(t, a, 1) == if half in t then Some(1) else Longest(t, a, 0);
    assert Longest(u, a, 1) == if half in u then Some(1) else Longest(u, a, 0);
  }

  /** Taking the split routes out again restores the table exactly when none of them
      was in it before: an adopted one is deleted with the rest. */
  lemma Def1Undone<H>(t: map<IpNet, H>, rg: RedirectGateway, hop: H)
    ensures var nets := R.Elems(RedirectNets(rg));
            AddAbsent(t, nets, hop) - nets == t <==> nets !! t.Keys
  {
    var nets := R.Elems(RedirectNets(rg));
    var back := AddAbsent(t, nets, hop) - nets;
    if nets !! t.Keys {
      assert back == t;
    } else {
      var n :| n in nets && n in t.Keys;
      assert n !in back && n in t;
    }
  }

  // -------------------------------------------------------- the kernel's table

  /** One route per destination, as a kernel keyed by destination keeps it. */
  ghost predicate OnePerDest(table: set<R.Route>) {
    forall a, b :: a in table && b in table && a.dest == b.dest ==> a == b
  }

  function Dests(table: set<R.Route>): set<IpNet> {
    set r | r in table :: r.dest
  }

  /** The forwarding table of such a kernel. */
  ghost function Hops(table: set<R.Route>): map<IpNet, (Option<Addr>, Option<nat>)> {
    map d | d in Dests(table) :: HopAt(table, d)
  }

  ghost function HopAt(table: set<R.Route>, d: IpNet): (Option<Addr>, Option<nat>)
    requires d in Dests(table)
  {
    var r :| r in table && r.dest == d;
    (r.gateway, r.ifindex)
  }

  /** Adding routes to the kernel is adding absent networks to its forwarding table. */
  lemma FillAddsAbsent(table: set<R.Route>, nets: set<IpNet>, gateway: Addr, ifindex: Option<nat>)
    requires OnePerDest(table) && forall n :: n in nets ==> Canon(n) == n
    ensures var after := R.Fill(R.Mac, table, R.RoutesOf(R.Mac, R.Uniform(nets, gateway), ifindex));
            && OnePerDest(after)
            && Hops(after) == AddAbsent(Hops(table), nets, (if ifindex.Some? then None else Some(gateway), ifindex))
  {
    var after := R.Fill(R.Mac, table, R.RoutesOf(R.Mac, R.Uniform(nets, gateway), ifindex));
    var hop := (if ifindex.Some? then None else Some(gateway), ifindex);
    FilledRoutes(table, nets, gateway, ifindex);
    FilledDests(table, nets, gateway, ifindex);
    forall r | r in after && r !in table ensures (r.gateway, r.ifindex) == hop {
      assert r == R.BuildRoute(R.Mac, r.dest, gateway, ifindex);
    }
    GrownHops(table, after, nets, hop);
  }

  lemma GrownHops(table: set<R.Route>, after: set<R.Route>, nets: set<IpNet>, hop: (Option<Addr>, Option<nat>))
    requires OnePerDest(after) && table <= after && Dests(after) == Dests(table) + nets
    requires forall r :: r in after && r !in table ==> r.dest !in Dests(table) && (r.gateway, r.ifindex) == hop
    ensures Hops(after) == AddAbsent(Hops(table), nets, hop)
  {
    forall d | d in Dests(after)
      ensures HopAt(after, d) == if d in Dests(table) then HopAt(table, d) else hop
    {
      var r :| r in after && r.dest == d;
      HopIs(after, r);
      if r in table {
        HopIs(table, r);
      }
    }
  }

  lemma HopIs(table: set<R.Route>, r: R.Route)
    requires OnePerDest(table) && r in table
    ensures r.dest in Dests(table) && HopAt(table, r.dest) == (r.gateway, r.ifindex)
  {
  }

  /** A filled table keeps what it had; what it gained sits at new destinations and
      goes where the request said. */
  lemma FilledRoutes(table: set<R.Route>, nets: set<IpNet>, gateway: Addr, ifindex: Option<nat>)
    requires OnePerDest(table) && forall n :: n in nets ==> Canon(n) == n
    ensures var after := R.Fill(R.Mac, table, R.RoutesOf(R.Mac, R.Uniform(nets, gateway), ifindex));
            && OnePerDest(after)
            && forall r :: r in after ==>
                 r in table || (r.dest !in Dests(table) && r == R.BuildRoute(R.Mac, r.dest, gateway, ifindex))
  {
  }

  lemma FilledDests(table: set<R.Route>, nets: set<IpNet>, gateway: Addr, ifindex: Option<nat>)
    requires forall n :: n in nets ==> Canon(n) == n
    ensures Dests(R.Fill(R.Mac, table, R.RoutesOf(R.Mac, R.Uniform(nets, gateway), ifindex))) == Dests(table) + nets
  {
    var rs := R.RoutesOf(R.Mac, R.Uniform(nets, gateway), ifindex);
    var after := R.Fill(R.Mac, table, rs);
    forall d | d in nets && d !in Dests(table) ensures d in Dests(after) {
      var r := R.BuildRoute(R.Mac, d, gateway, ifindex);
      assert d in R.Uniform(nets, gateway);
      assert r in rs && r in after;
    }
  }
}
