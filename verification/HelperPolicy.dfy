/** The helper's destination policy for proxied connections: which addresses it dials,
    and through what. */
module HelperPolicy {
  import opened Text
  import opened Prefixes
  import opened Subnets
  import opened AppPac
  import Ipv6Text

  /** What allows an address: the tailnet, an approved subnet route, the network this host
      is on, or the selected exit node. */
  datatype Ground = Denied | Tailnet | Subnet | LocalLAN | Exit

  /** The library's predicate for the addresses of this node's tailnet. */
  type TailnetPredicate = Literal -> bool

  /** RFC 1918 and RFC 4193, as `Addr.IsPrivate` reads them. */
  predicate IsPrivate(a: Literal) {
    match a
    case V4(o) => o[0] == 10 || (o[0] == 172 && o[1] / 16 == 1) || (o[0] == 192 && o[1] == 168)
    case V6(w) => w[0] / 512 == 126
  }

  predicate DefaultRoute(route: Route, ip: Literal) { route.bits == 0 && Contains(route, ip) }

  ghost predicate RoutesThrough(node: Node, exitNodeID: string, ip: Literal) {
    node.stableID == exitNodeID && exists route: Route :: route in node.allowedIPs && DefaultRoute(route, ip)
  }

  /** `selectedExitRoutesIP`. */
  ghost predicate ExitRoutes(nm: NetMap, prefs: Prefs, ip: Literal) {
    prefs.exitNodeID != "" && exists i :: 0 <= i < |nm.peers| && RoutesThrough(nm.peers[i], prefs.exitNodeID, ip)
  }

  predicate OnLAN(lan: seq<Route>, ip: Literal) { exists i :: 0 <= i < |lan| && Contains(lan[i], ip) }

  /** `proxyIPAllowed`. */
  ghost function GroundOf(nm: Option<NetMap>, prefs: Option<Prefs>, ip: Literal, lan: seq<Route>, isTailscale: TailnetPredicate): Ground {
    var a: Literal := Unmap(ip);
    if nm.None? || prefs.None? || !prefs.value.wantRunning || !SafeProxyIp(a) then Denied
    else if isTailscale(a) then Tailnet
    else if prefs.value.routeAll && ApprovedSubnet(nm.value, a) then Subnet
    else if prefs.value.exitNodeID != "" && prefs.value.allowLANAccess && IsPrivate(a) && OnLAN(lan, a) then LocalLAN
    else if !IsPrivate(a) && ExitRoutes(nm.value, prefs.value, a) then Exit
    else Denied
  }

  // ---------- the loops ----------

  method SelectedExitRoutesIp(nm: NetMap, prefs: Prefs, ip: Literal) returns (found: bool)
    ensures found <==> ExitRoutes(nm, prefs, ip)
  {
    if prefs.exitNodeID == "" {
      return false;
    }
    for i := 0 to |nm.peers|
      invariant forall k | 0 <= k < i :: !RoutesThrough(nm.peers[k], prefs.exitNodeID, ip)
    {
      var peer := nm.peers[i];
      if peer.stableID != prefs.exitNodeID {
        continue;
      }
      for j := 0 to |peer.allowedIPs|
        invariant forall k | 0 <= k < j :: !DefaultRoute(peer.allowedIPs[k], ip)
      {
        if peer.allowedIPs[j].bits == 0 && Contains(peer.allowedIPs[j], ip) {
          assert DefaultRoute(peer.allowedIPs[j], ip);
          return true;
        }
      }
    }
    return false;
  }

  method ProxyIpAllowed(nm: Option<NetMap>, prefs: Option<Prefs>, ip: Literal, lan: seq<Route>, isTailscale: TailnetPredicate)
    returns (allowed: bool, localLAN: bool)
    ensures allowed == !GroundOf(nm, prefs, ip, lan, isTailscale).Denied?
    ensures localLAN == GroundOf(nm, prefs, ip, lan, isTailscale).LocalLAN?
  {
    var a: Literal := Unmap(ip);
    assert Unmap(a) == a;
    if nm.None? || prefs.None? || !prefs.value.wantRunning || !SafeProxyIp(a) {
      return false, false;
    }
    if isTailscale(a) {
      return true, false;
    }
    if prefs.value.routeAll {
      var approved := FindApprovedSubnet(nm.value, a);
      if approved {
        return true, false;
      }
    }
    if prefs.value.exitNodeID != "" && prefs.value.allowLANAccess && IsPrivate(a) {
      for i := 0 to |lan|
        invariant forall k | 0 <= k < i :: !Contains(lan[k], a)
      {
        if Contains(lan[i], a) {
          return true, true;
        }
      }
    }
    if !IsPrivate(a) {
      var exits := SelectedExitRoutesIp(nm.value, prefs.value, a);
      if exits {
        return true, false;
      }
    }
    return false, false;
  }

  // ---------- the policy by numbers ----------

  /** 100.64.0.0/10 and fd7a:115c:a1e0::/48. */
  predicate TailnetNumbers(a: Literal) {
    match a
    case V4(o) => o[0] == 100 && 64 <= o[1] <= 127
    case V6(w) => w[0] == 0xfd7a && w[1] == 0x115c && w[2] == 0xa1e0
  }

  lemma {:induction false} TailnetQuads(x: seq<nat>, n: seq<nat>)
    requires V4(x).Valid() && V4(n).Valid() && n[0] == 100 && n[1] == 64
    ensures SamePrefix(x, n, 8, 10) <==> x[0] == 100 && 64 <= x[1] <= 127
  {
    HeadCovered(x, n, 8, 10);
    HeadPartial(x[1..], n[1..], 8, 2);
    assert Pow2(6) == 64;
    QuotIs(n[1], 64, 1);
    QuotIs(x[1], 64, x[1] / 64);
  }

  lemma {:induction false} LastWord(x: seq<nat>, n: seq<nat>)
    requires |x| == |n| > 0 && Words(x, 16) && Words(n, 16)
    ensures SamePrefix(x, n, 16, 16) <==> x[0] == n[0]
  {
    HeadCovered(x, n, 16, 16);
    SamePrefixZero(x[1..], n[1..], 16);
  }

  lemma {:induction false} TailnetWords(x: seq<nat>, n: seq<nat>)
    requires V6(x).Valid() && V6(n).Valid()
    ensures SamePrefix(x, n, 16, 48) <==> x[0] == n[0] && x[1] == n[1] && x[2] == n[2]
  {
    var x1, n1 := x[1..], n[1..];
    var x2, n2 := x1[1..], n1[1..];
    HeadCovered(x, n, 16, 48);
    HeadCovered(x1, n1, 16, 32);
    LastWord(x2, n2);
    assert x1[0] == x[1] && n1[0] == n[1] && x2[0] == x[2] && n2[0] == n[2];
  }

  lemma {:induction false} TailnetByNumbers(a: Literal)
    ensures InTailnetRanges(a) <==> TailnetNumbers(a)
  {
    var ranges := TailnetRanges();
    match a {
      case V4(o) => TailnetQuads(o, ranges[0].address.octets);
      case V6(w) => TailnetWords(w, ranges[1].address.words);
    }
  }

  /** The peer is the primary router of the route, the control plane lists the route among
      the peer's addresses, and it is no default route, not IPv4-mapped, and free of
      addresses that may not be reached. */
  ghost predicate RouterOf(peer: Node, route: Route) {
    && route in peer.primaryRoutes && route in peer.allowedIPs
    && route.bits != 0 && !Is4In6(route.address) && MembersReachable(route)
  }

  ghost predicate RoutedByPeer(nm: NetMap, ip: Literal) {
    exists peer, route: Route :: peer in nm.peers && RouterOf(peer, route) && Contains(route, ip)
  }

  lemma {:induction false} ApprovedByNumbers(nm: NetMap, ip: Literal)
    ensures ApprovedSubnet(nm, ip) <==> RoutedByPeer(nm, ip)
  {
    if ApprovedSubnet(nm, ip) {
      var i :| 0 <= i < |nm.peers| && ApprovedThrough(nm.peers[i], ip);
      var route: Route :| Approved(nm.peers[i], route) && Contains(route, ip);
      SafeRouteIff(route);
      assert nm.peers[i] in nm.peers;
    }
    if peer, route: Route :| peer in nm.peers && RouterOf(peer, route) && Contains(route, ip) {
      SafeRouteIff(route);
      var i :| 0 <= i < |nm.peers| && nm.peers[i] == peer;
      assert Approved(nm.peers[i], route);
      assert ApprovedThrough(nm.peers[i], ip);
    }
  }

  /** The selected exit node is a peer with a default route of the address's family. */
  ghost predicate ExitCarries(nm: NetMap, prefs: Prefs, ip: Literal) {
    && prefs.exitNodeID != ""
    && exists peer, route: Route ::
         peer in nm.peers && peer.stableID == prefs.exitNodeID && route in peer.allowedIPs && route.bits == 0
         && (route.address.V4? <==> ip.V4?)
  }

  lemma {:induction false} DefaultRouteIff(route: Route, ip: Literal)
    ensures DefaultRoute(route, ip) <==> route.bits == 0 && (route.address.V4? <==> ip.V4?)
  {
    match (route.address, ip) {
      case (V4(n), V4(x)) => SamePrefixZero(x, n, 8);
      case (V6(n), V6(x)) => SamePrefixZero(x, n, 16);
      case _ =>
    }
  }

  lemma {:induction false} ExitByNumbers(nm: NetMap, prefs: Prefs, ip: Literal)
    ensures ExitRoutes(nm, prefs, ip) <==> ExitCarries(nm, prefs, ip)
  {
    if ExitRoutes(nm, prefs, ip) {
      var i :| 0 <= i < |nm.peers| && RoutesThrough(nm.peers[i], prefs.exitNodeID, ip);
      var route: Route :| route in nm.peers[i].allowedIPs && DefaultRoute(route, ip);
      DefaultRouteIff(route, ip);
      assert nm.peers[i] in nm.peers;
    }
    if ExitCarries(nm, prefs, ip) {
      var peer, route: Route :| peer in nm.peers && peer.stableID == prefs.exitNodeID && route in peer.allowedIPs && route.bits == 0
                                && (route.address.V4? <==> ip.V4?);
      DefaultRouteIff(route, ip);
      var i :| 0 <= i < |nm.peers| && nm.peers[i] == peer;
      assert RoutesThrough(nm.peers[i], prefs.exitNodeID, ip);
    }
  }

  /** 10.0.0.0/8, 172.16.0.0/12, 192.168.0.0/16 and fc00::/7. */
  predicate PrivateNumbers(a: Literal) {
    match a
    case V4(o) => o[0] == 10 || (o[0] == 172 && 16 <= o[1] <= 31) || (o[0] == 192 && o[1] == 168)
    case V6(w) => 0xfc00 <= w[0] <= 0xfdff
  }

  /** For every network map, preferences, address and local network: what allows the
      address, by numbers and by what the control plane says of the peers. */
  lemma {:induction false} GroundIff(nm: NetMap, prefs: Prefs, ip: Literal, lan: seq<Route>, isTailscale: TailnetPredicate)
    ensures var a: Literal := Unmap(ip);
            var ground := GroundOf(Some(nm), Some(prefs), ip, lan, isTailscale);
            if !prefs.wantRunning || !Reachable(a) then ground == Denied
            else
              && (ground == Tailnet <==> isTailscale(a))
              && (ground == Subnet <==> !isTailscale(a) && prefs.routeAll && RoutedByPeer(nm, a))
              && (ground == LocalLAN <==>
                    && !isTailscale(a) && !(prefs.routeAll && RoutedByPeer(nm, a)) && prefs.exitNodeID != ""
                    && prefs.allowLANAccess && PrivateNumbers(a) && exists network :: network in lan && Contains(network, a))
              && (ground == Exit <==>
                    && !isTailscale(a) && !(prefs.routeAll && RoutedByPeer(nm, a)) && !PrivateNumbers(a) && ExitCarries(nm, prefs, a))
  {
    var a: Literal := Unmap(ip);
    SafeIpIff(a);
    ApprovedByNumbers(nm, a);
    ExitByNumbers(nm, prefs, a);
    if network :| network in lan && Contains(network, a) {
      var i :| 0 <= i < |lan| && lan[i] == network;
    }
    assert IsPrivate(a) <==> PrivateNumbers(a);
  }

  /** Without a network map or preferences, nothing is dialled. */
  lemma {:induction false} NothingUnknown(nm: Option<NetMap>, prefs: Option<Prefs>, ip: Literal, lan: seq<Route>, isTailscale: TailnetPredicate)
    requires !GroundOf(nm, prefs, ip, lan, isTailscale).Denied?
    ensures nm.Some? && prefs.Some? && prefs.value.wantRunning && Reachable(Unmap(ip))
  {
    SafeIpIff(Unmap(ip));
  }

  // ---------- the browser's routes and the app PAC against the helper ----------

  lemma {:induction false} RoutedIsDialled(nm: NetMap, prefs: Prefs, peer: Node, route: Route, ip: Literal, lan: seq<Route>, isTailscale: TailnetPredicate)
    requires prefs.wantRunning && prefs.routeAll && peer in nm.peers && RouterOf(peer, route) && Contains(route, Unmap(ip))
    ensures var ground := GroundOf(Some(nm), Some(prefs), ip, lan, isTailscale); ground == Tailnet || ground == Subnet
  {
    var a: Literal := Unmap(ip);
    assert Reachable(a);
    assert RoutedByPeer(nm, a);
    GroundIff(nm, prefs, ip, lan, isTailscale);
  }

  /** A route that the browser protects, and that a peer is authorized for: every address
      in it is dialled, and never over the local network. */
  lemma {:induction false} BrowserRouteIsDialled(cidr: string, route: Route, nm: NetMap, prefs: Prefs, peer: Node, ip: Literal, lan: seq<Route>, isTailscale: TailnetPredicate)
    requires IsSupportedSubnet(cidr) && StrictPrefix(cidr) == Some(route) && Contains(route, Unmap(ip))
    requires prefs.wantRunning && prefs.routeAll && peer in nm.peers && route in peer.primaryRoutes && route in peer.allowedIPs
    ensures var ground := GroundOf(Some(nm), Some(prefs), ip, lan, isTailscale); ground == Tailnet || ground == Subnet
  {
    SupportedIff(cidr);
    assert RouterOf(peer, route);
    RoutedIsDialled(nm, prefs, peer, route, ip, lan, isTailscale);
  }

  /** Every literal that the helper allows as a tailnet address or through an approved
      route is proxied by the app PAC, because a network map never lists this node among
      its own peers. */
  lemma {:induction false} AuthorizedIsProxied(nm: NetMap, prefs: Prefs, ip: Literal, lan: seq<Route>, isTailscale: TailnetPredicate)
    requires forall i | 0 <= i < |nm.peers| :: nm.peers[i].id != nm.self.id
    requires forall a: Literal | isTailscale(a) :: InTailnetRanges(a)
    requires var ground := GroundOf(Some(nm), Some(prefs), ip, lan, isTailscale); ground == Tailnet || ground == Subnet
    ensures InTailnetRanges(Unmap(ip)) || (prefs.routeAll && ApprovedByOther(nm, Unmap(ip)))
  {
    var a: Literal := Unmap(ip);
    if !isTailscale(a) {
      var i :| 0 <= i < |nm.peers| && ApprovedThrough(nm.peers[i], a);
      assert nm.peers[i].id != nm.self.id;
    }
  }

  /** The app PAC's decision by numbers, and what the helper makes of it: a proxied literal
      is refused only if it may not be reached at all or is a tailnet address that the
      library does not count as one. */
  lemma {:induction false} AppProxiedIff(nm: NetMap, prefs: Prefs, ip: Literal, lan: seq<Route>, isTailscale: TailnetPredicate)
    requires prefs.wantRunning && forall i | 0 <= i < |nm.peers| :: nm.peers[i].id != nm.self.id
    ensures var a: Literal := Unmap(ip);
            var proxied := InTailnetRanges(a) || (prefs.routeAll && ApprovedByOther(nm, a));
            && (proxied <==> TailnetNumbers(a) || (prefs.routeAll && RoutedByPeer(nm, a)))
            && (proxied && Reachable(a) && GroundOf(Some(nm), Some(prefs), ip, lan, isTailscale) == Denied ==> TailnetNumbers(a) && !isTailscale(a))
  {
    var a: Literal := Unmap(ip);
    TailnetByNumbers(a);
    ApprovedByNumbers(nm, a);
    GroundIff(nm, prefs, ip, lan, isTailscale);
    assert ApprovedByOther(nm, a) <==> ApprovedSubnet(nm, a);
  }

  // ---------- the addresses of one dial ----------

  datatype Network = Tcp | Tcp4 | Tcp6

  predicate OfNetwork(network: Network, a: Literal) { network == Tcp || (network == Tcp4 && a.V4?) || (network == Tcp6 && a.V6?) }

  datatype Target = Target(ip: Literal, local: bool)

  /** The addresses left to dial, in order. */
  ghost function Targets(nm: Option<NetMap>, prefs: Option<Prefs>, ips: seq<Literal>, network: Network, lan: seq<Route>, isTailscale: TailnetPredicate): seq<Target> {
    if ips == [] then []
    else
      var last: Literal := Unmap(ips[|ips| - 1]);
      Targets(nm, prefs, ips[..|ips| - 1], network, lan, isTailscale)
      + if OfNetwork(network, last) then [Target(last, GroundOf(nm, prefs, last, lan, isTailscale).LocalLAN?)] else []
  }

  predicate SomeOf(network: Network, ips: seq<Literal>) { exists i :: 0 <= i < |ips| && OfNetwork(network, Unmap(ips[i])) }

  ghost predicate NoneDenied(nm: Option<NetMap>, prefs: Option<Prefs>, ips: seq<Literal>, lan: seq<Route>, isTailscale: TailnetPredicate) {
    forall i | 0 <= i < |ips| :: !GroundOf(nm, prefs, ips[i], lan, isTailscale).Denied?
  }

  lemma {:induction false} GroundUnmapped(nm: Option<NetMap>, prefs: Option<Prefs>, ip: Literal, lan: seq<Route>, isTailscale: TailnetPredicate)
    ensures GroundOf(nm, prefs, Unmap(ip), lan, isTailscale) == GroundOf(nm, prefs, ip, lan, isTailscale)
  {
    assert Unmap(Unmap(ip)) == Unmap(ip);
  }

  lemma {:induction false} OneMoreAllowed(nm: Option<NetMap>, prefs: Option<Prefs>, ips: seq<Literal>, i: nat, lan: seq<Route>, isTailscale: TailnetPredicate)
    requires i < |ips|
    ensures NoneDenied(nm, prefs, ips[..i + 1], lan, isTailscale)
            <==> NoneDenied(nm, prefs, ips[..i], lan, isTailscale) && !GroundOf(nm, prefs, ips[i], lan, isTailscale).Denied?
  {
    var more := ips[..i + 1];
    assert more[i] == ips[i] && forall k | 0 <= k < i :: more[k] == ips[..i][k];
    if NoneDenied(nm, prefs, more, lan, isTailscale) {
      assert !GroundOf(nm, prefs, more[i], lan, isTailscale).Denied?;
      forall k | 0 <= k < i ensures !GroundOf(nm, prefs, ips[..i][k], lan, isTailscale).Denied? {
        assert ips[..i][k] == more[k];
      }
    }
  }

  lemma {:induction false} OneMoreOf(network: Network, ips: seq<Literal>, i: nat)
    requires i < |ips|
    ensures SomeOf(network, ips[..i + 1]) <==> SomeOf(network, ips[..i]) || OfNetwork(network, Unmap(ips[i]))
  {
    var more := ips[..i + 1];
    assert more[i] == ips[i];
    if SomeOf(network, ips[..i]) {
      var k :| 0 <= k < i && OfNetwork(network, Unmap(ips[..i][k]));
      assert more[k] == ips[..i][k];
    }
  }

  lemma {:induction false} OneMoreAnswer(nm: Option<NetMap>, prefs: Option<Prefs>, ips: seq<Literal>, i: nat, network: Network, lan: seq<Route>, isTailscale: TailnetPredicate)
    requires i < |ips|
    ensures Targets(nm, prefs, ips[..i + 1], network, lan, isTailscale)
            == Targets(nm, prefs, ips[..i], network, lan, isTailscale)
               + if OfNetwork(network, Unmap(ips[i])) then [Target(Unmap(ips[i]), GroundOf(nm, prefs, Unmap(ips[i]), lan, isTailscale).LocalLAN?)] else []
  {
    assert ips[..i + 1][..i] == ips[..i];
  }

  /** Every answer is checked before any is dialled. */
  method ChooseTargets(nm: Option<NetMap>, prefs: Option<Prefs>, ips: seq<Literal>, network: Network, lan: seq<Route>, isTailscale: TailnetPredicate)
    returns (r: Option<seq<Target>>)
    ensures r.Some? <==> NoneDenied(nm, prefs, ips, lan, isTailscale) && SomeOf(network, ips)
    ensures r.Some? ==> r.value == Targets(nm, prefs, ips, network, lan, isTailscale)
  {
    var targets: seq<Target> := [];
    for i := 0 to |ips|
      invariant NoneDenied(nm, prefs, ips[..i], lan, isTailscale)
      invariant targets == Targets(nm, prefs, ips[..i], network, lan, isTailscale) && (targets != [] <==> SomeOf(network, ips[..i]))
    {
      var ip: Literal := Unmap(ips[i]);
      GroundUnmapped(nm, prefs, ips[i], lan, isTailscale);
      OneMoreAllowed(nm, prefs, ips, i, lan, isTailscale);
      OneMoreOf(network, ips, i);
      OneMoreAnswer(nm, prefs, ips, i, network, lan, isTailscale);
      var allowed, local := ProxyIpAllowed(nm, prefs, ip, lan, isTailscale);
      if !allowed {
        return None;
      }
      if OfNetwork(network, ip) {
        targets := targets + [Target(ip, local)];
      }
    }
    assert ips[..|ips|] == ips;
    return if targets == [] then None else Some(targets);
  }

  /** Every target is one of the answers, allowed, reachable and never IPv4-mapped; it is
      dialled over the local network only if it is a private address there, while an exit
      node is selected and local access is on. */
  lemma {:induction false} TargetsAreAllowed(nm: NetMap, prefs: Prefs, ips: seq<Literal>, network: Network, lan: seq<Route>, isTailscale: TailnetPredicate, t: Target)
    requires NoneDenied(Some(nm), Some(prefs), ips, lan, isTailscale)
    requires t in Targets(Some(nm), Some(prefs), ips, network, lan, isTailscale)
    ensures exists ip :: ip in ips && t.ip == Unmap(ip)
    ensures Reachable(t.ip) && !Is4In6(t.ip) && OfNetwork(network, t.ip)
    ensures t.local ==> prefs.exitNodeID != "" && prefs.allowLANAccess && PrivateNumbers(t.ip) && exists p :: p in lan && Contains(p, t.ip)
    ensures !t.local ==> isTailscale(t.ip) || (prefs.routeAll && RoutedByPeer(nm, t.ip)) || (!PrivateNumbers(t.ip) && ExitCarries(nm, prefs, t.ip))
  {
    var n := |ips| - 1;
    var last: Literal := Unmap(ips[n]);
    var front := ips[..n];
    if t in Targets(Some(nm), Some(prefs), front, network, lan, isTailscale) {
      TargetsAreAllowed(nm, prefs, front, network, lan, isTailscale, t);
    } else {
      assert t.ip == last;
      assert Unmap(last) == last;
      GroundIff(nm, prefs, ips[n], lan, isTailscale);
      assert GroundOf(Some(nm), Some(prefs), last, lan, isTailscale) == GroundOf(Some(nm), Some(prefs), ips[n], lan, isTailscale);
    }
  }
}
