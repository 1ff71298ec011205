/** The PAC script served to other applications, against the helper's own
    destination policy. */
module AppPac {
  import opened Text
  import opened Prefixes
  import opened Subnets
  import Ipv6Text

  type Route = p: Prefix | p.Valid() witness Prefix(V4([0, 0, 0, 0]), 0)
  type Literal = a: Address | a.Valid() witness V4([0, 0, 0, 0])

  datatype Node = Node(id: nat, stableID: string, primaryRoutes: seq<Route>, allowedIPs: seq<Route>)
  datatype NetMap = NetMap(self: Node, peers: seq<Node>)
  datatype Prefs = Prefs(wantRunning: bool, routeAll: bool, exitNodeID: string, allowLANAccess: bool)

  /** 100.64.0.0/10 and fd7a:115c:a1e0::/48. */
  function TailnetRanges(): (r: seq<Route>)
    ensures |r| == 2 && !Is4In6(r[0].address) && !Is4In6(r[1].address)
  {
    OctetSize();
    Ipv6Text.WordSize();
    [Prefix(V4([100, 64, 0, 0]), 10), Prefix(V6([0xfd7a, 0x115c, 0xa1e0, 0, 0, 0, 0, 0]), 48)]
  }

  predicate InTailnetRanges(ip: Literal) {
    Contains(TailnetRanges()[0], ip) || Contains(TailnetRanges()[1], ip)
  }

  /** A primary route that the control plane also lists in the node's allowed
      addresses, and that the destination policy accepts. */
  predicate Approved(node: Node, route: Route) {
    route in node.primaryRoutes && route in node.allowedIPs && SafeProxyRoute(route)
  }

  ghost predicate ApprovedThrough(node: Node, ip: Literal) {
    exists route: Route :: Approved(node, route) && Contains(route, ip)
  }

  /** `approvedProxySubnet`. */
  ghost predicate ApprovedSubnet(nm: NetMap, ip: Literal) {
    exists i :: 0 <= i < |nm.peers| && ApprovedThrough(nm.peers[i], ip)
  }

  /** The loops of `approvedProxySubnet`. */
  method FindApprovedSubnet(nm: NetMap, ip: Literal) returns (found: bool)
    ensures found <==> ApprovedSubnet(nm, ip)
  {
    for i := 0 to |nm.peers|
      invariant forall k | 0 <= k < i :: !ApprovedThrough(nm.peers[k], ip)
    {
      var peer := nm.peers[i];
      for j := 0 to |peer.primaryRoutes|
        invariant forall k | 0 <= k < j :: !(Approved(peer, peer.primaryRoutes[k]) && Contains(peer.primaryRoutes[k], ip))
      {
        var primary := peer.primaryRoutes[j];
        if !SafeProxyRoute(primary) || !Contains(primary, ip) {
          continue;
        }
        if primary in peer.allowedIPs {
          assert Approved(peer, primary);
          assert ApprovedThrough(peer, ip);
          return true;
        }
      }
      assert !ApprovedThrough(peer, ip);
    }
    return false;
  }

  /** The networks `appProxyPAC` puts into the script. */
  ghost predicate Listed(nm: NetMap, prefs: Prefs, route: Route) {
    || route in TailnetRanges()
    || (prefs.routeAll && exists i :: 0 <= i < |nm.peers| && nm.peers[i].id != nm.self.id && Approved(nm.peers[i], route))
  }

  method NodeRoutes(nm: NetMap, prefs: Prefs, node: Node, start: seq<Route>) returns (networks: seq<Route>)
    ensures forall route: Route ::
      route in networks <==> route in start || (prefs.routeAll && node.id != nm.self.id && Approved(node, route))
  {
    networks := start;
    if prefs.routeAll && node.id != nm.self.id {
      for j := 0 to |node.primaryRoutes|
        invariant forall route: Route ::
          route in networks <==> route in start || (route in node.primaryRoutes[..j] && Approved(node, route))
      {
        var route := node.primaryRoutes[j];
        if SafeProxyRoute(route) && route in node.allowedIPs {
          networks := networks + [route];
        }
      }
    }
  }

  /** Collecting routes from this node and every peer, in order. */
  method Networks(nm: NetMap, prefs: Prefs) returns (networks: seq<Route>)
    ensures forall route: Route :: route in networks <==> Listed(nm, prefs, route)
  {
    networks := NodeRoutes(nm, prefs, nm.self, TailnetRanges());
    for i := 0 to |nm.peers|
      invariant forall route: Route ::
        route in networks <==>
        (route in TailnetRanges()
         || (prefs.routeAll && exists k :: 0 <= k < i && nm.peers[k].id != nm.self.id && Approved(nm.peers[k], route)))
    {
      networks := NodeRoutes(nm, prefs, nm.peers[i], networks);
    }
  }

  /** The script's comparison of one literal with one network: the families must
      have the same number of words, and the shifted words must agree. */
  method MatchNetwork(ip: Literal, network: Route) returns (same: bool)
    requires !Is4In6(network.address)
    ensures same <==> Contains(network, Unmap(ip))
  {
    var address := Unmap(ip);
    match (address, network.address) {
      case (V4(a), V4(b)) => same := PacPrefixMatches(a, b, network.bits, 8);
      case (V6(a), V6(b)) => same := PacPrefixMatches(a, b, network.bits, 16);
      case _ => same := false;
    }
  }

  /** `FindProxyForURL` on an address literal. */
  method FindProxy(networks: seq<Route>, ip: Literal) returns (proxied: bool)
    requires forall i | 0 <= i < |networks| :: !Is4In6(networks[i].address)
    ensures proxied <==> exists i :: 0 <= i < |networks| && Contains(networks[i], Unmap(ip))
  {
    for i := 0 to |networks|
      invariant forall k | 0 <= k < i :: !Contains(networks[k], Unmap(ip))
    {
      var same := MatchNetwork(ip, networks[i]);
      if same {
        return true;
      }
    }
    return false;
  }

  /** Approval by a peer other than this node itself. */
  ghost predicate ApprovedByOther(nm: NetMap, ip: Literal) {
    exists i :: 0 <= i < |nm.peers| && nm.peers[i].id != nm.self.id && ApprovedThrough(nm.peers[i], ip)
  }

  /** The whole script, from network map to decision: a literal goes to the proxy
      exactly when it lies in a tailnet range or in an approved subnet route. */
  method AppPacDecision(nm: NetMap, prefs: Prefs, ip: Literal) returns (proxied: bool)
    ensures proxied <==> InTailnetRanges(Unmap(ip)) || (prefs.routeAll && ApprovedByOther(nm, Unmap(ip)))
  {
    var networks := Networks(nm, prefs);
    forall i | 0 <= i < |networks| ensures !Is4In6(networks[i].address) {
      assert networks[i] in networks;
      assert Listed(nm, prefs, networks[i]);
    }
    proxied := FindProxy(networks, ip);
    DecisionIs(nm, prefs, networks, Unmap(ip));
  }

  /** Membership in a listed network is what the decision is about. */
  lemma {:induction false} DecisionIs(nm: NetMap, prefs: Prefs, networks: seq<Route>, a: Literal)
    requires forall route: Route :: route in networks <==> Listed(nm, prefs, route)
    ensures (exists i :: 0 <= i < |networks| && Contains(networks[i], a))
            <==> InTailnetRanges(a) || (prefs.routeAll && ApprovedByOther(nm, a))
  {
    if exists i :: 0 <= i < |networks| && Contains(networks[i], a) {
      var i :| 0 <= i < |networks| && Contains(networks[i], a);
      ListedCovers(nm, prefs, networks[i], a);
    } else {
      forall route: Route | Listed(nm, prefs, route) ensures !Contains(route, a) {
        assert route in networks;
      }
      CoveredIsListed(nm, prefs, a);
    }
  }

  lemma {:induction false} ListedCovers(nm: NetMap, prefs: Prefs, route: Route, ip: Literal)
    requires Listed(nm, prefs, route) && Contains(route, ip)
    ensures InTailnetRanges(ip) || (prefs.routeAll && ApprovedByOther(nm, ip))
  {
    if route !in TailnetRanges() {
      var i :| 0 <= i < |nm.peers| && nm.peers[i].id != nm.self.id && Approved(nm.peers[i], route);
      assert ApprovedThrough(nm.peers[i], ip);
    }
  }

  lemma {:induction false} CoveredIsListed(nm: NetMap, prefs: Prefs, ip: Literal)
    requires forall route: Route | Listed(nm, prefs, route) :: !Contains(route, ip)
    ensures !InTailnetRanges(ip) && !(prefs.routeAll && ApprovedByOther(nm, ip))
  {
    assert Listed(nm, prefs, TailnetRanges()[0]) && Listed(nm, prefs, TailnetRanges()[1]);
    forall i, route: Route
      | 0 <= i < |nm.peers| && nm.peers[i].id != nm.self.id && Approved(nm.peers[i], route) && prefs.routeAll
      ensures !Contains(route, ip)
    {
      assert Listed(nm, prefs, route);
    }
  }

  /** The first two grounds of `proxyIPAllowed`; `isTailscale` is the library's
      predicate for this node's tailnet addresses. */
  ghost predicate AuthorizedLiteral(nm: NetMap, prefs: Prefs, ip: Literal, isTailscale: Literal -> bool) {
    var a: Literal := Unmap(ip);
    prefs.wantRunning && SafeProxyIp(a) && (isTailscale(a) || (prefs.routeAll && ApprovedSubnet(nm, a)))
  }

  /** Every literal the helper authorizes on those grounds is proxied, because a
      network map never lists this node among its own peers. */
  lemma {:induction false} AuthorizedIsProxied(nm: NetMap, prefs: Prefs, ip: Literal, isTailscale: Literal -> bool)
    requires forall i | 0 <= i < |nm.peers| :: nm.peers[i].id != nm.self.id
    requires forall a: Literal | isTailscale(a) :: InTailnetRanges(a)
    requires AuthorizedLiteral(nm, prefs, ip, isTailscale)
    ensures InTailnetRanges(Unmap(ip)) || (prefs.routeAll && ApprovedByOther(nm, Unmap(ip)))
  {
    var a: Literal := Unmap(ip);
    if !isTailscale(a) {
      var i :| 0 <= i < |nm.peers| && ApprovedThrough(nm.peers[i], a);
      assert nm.peers[i].id != nm.self.id;
    }
  }
}
