/** Where the two browsers send a host, stated on the policy and the host alone. */
module Destinations {
  import opened Text
  import opened Prefixes
  import opened Subnets
  import opened DnsNames
  import opened Policies
  import opened PacScript
  import opened FirefoxProxy
  import Ipv6Text

  // ---------- what a policy covers ----------

  /** The domain itself, or a name below it. */
  predicate Within(host: string, domain: string) {
    || host == domain
    || (|host| > |domain| && host[|host| - |domain|..] == domain && host[|host| - |domain| - 1] == '.')
  }

  /** The service address, the tailnet's IPv6 range, the tailnet's own names, the routed
      domains and the known short names. */
  ghost predicate NamedHost(policy: Policy, text: string) {
    || text == "100.100.100.100"
    || (|text| >= 15 && text[..15] == "fd7a:115c:a1e0:")
    || (SanitizeSuffix(policy.magicSuffix) != "" && Within(text, SanitizeSuffix(policy.magicSuffix)))
    || (exists x :: x in policy.dnsRoutes && SanitizeName(x).Some? && Within(text, SanitizeName(x).value))
    || ('.' !in text && exists x :: x in policy.shortNames && SanitizeName(x) == Some(text))
  }

  /** The IPv4 range of the tailnet. */
  predicate TailnetQuad(o: seq<nat>)
    requires |o| == 4
  {
    o[0] == 100 && 64 <= o[1] < 128
  }

  /** A recorded route with an IPv4 network, in any form that can be read. */
  predicate RangeHas(cidr: string, o: seq<nat>)
    requires |o| == 4
  {
    ParseCidr(cidr).Some? && SamePrefix(o, ParseCidr(cidr).value.octets, 8, ParseCidr(cidr).value.bits)
  }

  /** A recorded route that the helper accepts. */
  predicate RouteHas(cidr: string, a: Address)
    requires a.Valid()
  {
    StrictPrefix(cidr).Some? && SafeProxyRoute(StrictPrefix(cidr).value) && Contains(StrictPrefix(cidr).value, a)
  }

  ghost predicate InRoutes(policy: Policy, a: Address)
    requires a.Valid()
  {
    exists c :: c in policy.subnets && RouteHas(c, a)
  }

  ghost predicate InRanges4(policy: Policy, o: seq<nat>)
    requires |o| == 4
  {
    exists c :: c in policy.subnets && RangeHas(c, o)
  }

  /** A host whose octets and words are those of addresses. */
  predicate Readable(host: Host) {
    && (host.octets.Some? ==> V4(host.octets.value).Valid())
    && (host.words.Some? ==> V6(host.words.value).Valid())
  }

  /** The destinations protected by a policy; `strict`: only by routes the helper accepts. */
  ghost predicate Covered(policy: Policy, strict: bool, host: Host)
    requires Readable(host)
  {
    || NamedHost(policy, host.text)
    || (host.octets.Some? && TailnetQuad(host.octets.value))
    || (host.octets.Some? && if strict then InRoutes(policy, V4(host.octets.value)) else InRanges4(policy, host.octets.value))
    || (host.words.Some? && !Mapped(host.words.value) && InRoutes(policy, V6(host.words.value)))
  }

  /** The host is one of the user's domains, or below one. */
  ghost predicate Listed(policy: Policy, text: string) {
    exists x :: x in policy.domainSplit.domains && SanitizeDomain(x).Some? && Within(text, SanitizeDomain(x).value)
  }

  /** With an exit node, or with everything blocked: in bypass mode all but the listed hosts
      follow it, in only mode just those. */
  ghost predicate FollowsExit(policy: Policy, text: string) {
    (policy.blockAll || policy.selectedExit.Some?) && (policy.domainSplit.mode == Only <==> Listed(policy, text))
  }

  ghost predicate Proxied(policy: Policy, strict: bool, host: Host)
    requires Readable(host)
  {
    Covered(policy, strict, host) || FollowsExit(policy, host.text)
  }

  // ---------- the generator's lists ----------

  lemma {:induction false} MatchWithin(host: string, d: string)
    ensures DomainMatch(host, d) <==> Within(host, d)
  {
    var dotted, k := "." + d, |host| - |d|;
    if k > 0 {
      assert host[k - 1..] == [host[k - 1]] + host[k..];
      assert dotted[0] == '.' && dotted[1..] == d;
      if host[k..] == d && host[k - 1] == '.' {
        assert host[k - 1..] == dotted;
      }
    }
  }

  lemma {:induction false} RoutesMean(routes: seq<string>, text: string)
    ensures ListMatch(text, SanitizeRoutes(routes)) <==>
            exists x :: x in routes && SanitizeName(x).Some? && Within(text, SanitizeName(x).value)
  {
    if d :| d in SanitizeRoutes(routes) && DomainMatch(text, d) {
      RoutesIff(routes, d);
      MatchWithin(text, d);
    }
    if x :| x in routes && SanitizeName(x).Some? && Within(text, SanitizeName(x).value) {
      var d := SanitizeName(x).value;
      assert SanitizeName(x) == Some(d);
      RoutesIff(routes, d);
      MatchWithin(text, d);
    }
  }

  lemma {:induction false} ShortNamesMean(policy: Policy, text: string)
    ensures text in ShortNamesOf(policy) <==> '.' !in text && exists x :: x in policy.shortNames && SanitizeName(x) == Some(text)
  {
    RoutesIff(policy.shortNames, text);
  }

  lemma {:induction false} DomainsMean(policy: Policy, text: string)
    ensures ListMatch(text, CleanDomains(policy.domainSplit.domains)) <==> Listed(policy, text)
  {
    var domains := policy.domainSplit.domains;
    if d :| d in CleanDomains(domains) && DomainMatch(text, d) {
      CleanIff(domains, d);
      MatchWithin(text, d);
    }
    if x :| x in domains && SanitizeDomain(x).Some? && Within(text, SanitizeDomain(x).value) {
      var d := SanitizeDomain(x).value;
      assert SanitizeDomain(x) == Some(d);
      CleanIff(domains, d);
      MatchWithin(text, d);
    }
  }

  lemma {:induction false} TopTen(o: seq<nat>, n: seq<nat>)
    requires V4(o).Valid() && V4(n).Valid() && n[1] == 64
    ensures SamePrefix(o, n, 8, 10) <==> o[0] == n[0] && 64 <= o[1] < 128
  {
    OctetSize();
    HeadCovered(o, n, 8, 10);
    HeadPartial(o[1..], n[1..], 8, 2);
    assert Pow2(6) == 64;
    QuotIs(64, 64, 1);
    QuotIs(o[1], 64, o[1] / 64);
  }

  lemma {:induction false} TailnetMeans(o: seq<nat>)
    requires V4(o).Valid()
    ensures AndMask(o, 10) == CGNAT_NETWORK <==> TailnetQuad(o)
  {
    var n: seq<nat> :| n == [100, 64, 0, 0];
    OctetSize();
    CgnatNumber();
    AndMaskEqual(o, n, 10);
    TopTen(o, n);
  }

  lemma {:induction false} SupportedIn(subnets: seq<string>, c: string)
    ensures c in Supported(subnets) <==> c in subnets && IsSupportedSubnet(c)
  {
    if subnets != [] {
      SupportedIn(subnets[1..], c);
    }
  }

  lemma {:induction false} RangeHasIn(c: string, o: seq<nat>)
    requires |o| == 4 && ParseCidr(c).Some?
    ensures RangeHas(c, o) <==> InRange(o, ParseCidr(c).value)
  {
    AndMaskEqual(o, ParseCidr(c).value.octets, ParseCidr(c).value.bits);
  }

  lemma {:induction false} RangesMean(subnets: seq<string>, o: seq<nat>)
    requires |o| == 4
    ensures InRanges(o, Ranges(subnets)) <==> exists c :: c in subnets && RangeHas(c, o)
  {
    if subnets != [] {
      var c, rest := subnets[0], subnets[1..];
      RangesMean(rest, o);
      assert subnets == [c] + rest;
      if ParseCidr(c).Some? {
        RangeHasIn(c, o);
        InMore(o, ParseCidr(c).value, Ranges(rest));
      }
    }
  }

  lemma {:induction false} InMore(o: seq<nat>, range: Range, ranges: seq<Range>)
    requires |o| == 4 && range.Valid() && forall i | 0 <= i < |ranges| :: ranges[i].Valid()
    ensures forall i | 0 <= i < |[range] + ranges| :: ([range] + ranges)[i].Valid()
    ensures InRanges(o, [range] + ranges) <==> InRange(o, range) || InRanges(o, ranges)
  {
    var more := [range] + ranges;
    assert more[0] == range && forall i | 0 <= i < |ranges| :: more[i + 1] == ranges[i];
    if i :| 0 <= i < |ranges| && InRange(o, ranges[i]) {
      assert InRange(o, more[i + 1]);
    }
  }

  lemma {:induction false} ShortDigitsPlain(t: string)
    requires ShortDigits(t)
    ensures ':' !in t
  {
  }

  lemma {:induction false} DottedPlain(text: string)
    requires DottedDigits(text)
    ensures ':' !in text
  {
    var parts := Split(text, '.');
    assert parts == [parts[0], parts[1], parts[2], parts[3]];
    forall p | p in parts ensures ':' !in p {
      ShortDigitsPlain(p);
    }
    if ':' in text {
      JoinChars(parts, '.', ':');
    }
  }

  /** A supported route with an IPv4 network is strict, and read as the same network. */
  lemma {:induction false} SupportedRange(c: string)
    requires IsSupportedSubnet(c) && ParseCidr(c).Some?
    ensures var p, r := StrictPrefix(c), ParseCidr(c).value; p == Some(Prefix(V4(r.octets), r.bits)) && SafeProxyRoute(p.value)
  {
    BrowserAgreesWithHelper(c);
    if ':' in c {
      DottedPlain(Split(c, '/')[0]);
      assert false;
    } else {
      StrictIpv4Read(c);
    }
  }

  lemma {:induction false} StrictRange(c: string, o: seq<nat>)
    requires V4(o).Valid() && RouteHas(c, V4(o))
    ensures IsSupportedSubnet(c) && RangeHas(c, o)
  {
    BrowserAgreesWithHelper(c);
    StrictIpv4Read(c);
  }

  lemma {:induction false} SupportedRangesMean(subnets: seq<string>, o: seq<nat>)
    requires V4(o).Valid()
    ensures InRanges(o, Ranges(Supported(subnets))) <==> exists c :: c in subnets && RouteHas(c, V4(o))
  {
    RangesMean(Supported(subnets), o);
    if c :| c in Supported(subnets) && RangeHas(c, o) {
      SupportedIn(subnets, c);
      SupportedRange(c);
      assert RouteHas(c, V4(o));
    }
    if c :| c in subnets && RouteHas(c, V4(o)) {
      StrictRange(c, o);
      SupportedIn(subnets, c);
    }
  }

  /** A parsed IPv6 route holds the addresses of the prefix as written. */
  lemma {:induction false} Ipv6RouteHas(c: string, w: seq<nat>)
    requires V6(w).Valid()
    ensures ParseIpv6Cidr(c).Some? && InSubnet(w, ParseIpv6Cidr(c).value) <==> RouteHas(c, V6(w))
  {
    if Cidr6(c).Some? {
      var p := Cidr6(c).value;
      SafeRouteV6(p.address.words, p.bits);
      MaskingKeepsMembers(p.address.words, p.bits, w);
    } else if StrictPrefix(c).Some? {
      assert StrictPrefix(c).value.address.V4?;
    }
  }

  lemma {:induction false} Ipv6RoutesMean(subnets: seq<string>, w: seq<nat>)
    requires V6(w).Valid()
    ensures Subnets.InSubnets(w, Ipv6Routes(subnets)) <==> exists c :: c in subnets && RouteHas(c, V6(w))
  {
    if subnets != [] {
      var rest := subnets[1..];
      Ipv6RoutesMean(rest, w);
      Ipv6RoutesNext(subnets, w);
      if c :| c in rest && RouteHas(c, V6(w)) {
        assert c in subnets;
      }
      if c :| c in subnets && RouteHas(c, V6(w)) {
        assert c == subnets[0] || c in rest;
      }
    }
  }

  lemma {:induction false} Ipv6RoutesNext(subnets: seq<string>, w: seq<nat>)
    requires V6(w).Valid() && subnets != []
    ensures Subnets.InSubnets(w, Ipv6Routes(subnets)) <==> RouteHas(subnets[0], V6(w)) || Subnets.InSubnets(w, Ipv6Routes(subnets[1..]))
  {
    var parsed, rest := ParseIpv6Cidr(subnets[0]), Ipv6Routes(subnets[1..]);
    Ipv6RouteHas(subnets[0], w);
    assert Ipv6Routes(subnets) == if parsed.Some? then [parsed.value] + rest else rest;
    if parsed.Some? {
      InMoreIpv6(w, parsed.value, rest);
    }
  }

  lemma {:induction false} InMoreIpv6(w: seq<nat>, s: Subnet, routes: seq<Subnet>)
    requires |w| == 8
    ensures Subnets.InSubnets(w, [s] + routes) <==> InSubnet(w, s) || Subnets.InSubnets(w, routes)
  {
    var more := [s] + routes;
    assert more[0] == s && forall i | 0 <= i < |routes| :: more[i + 1] == routes[i];
    if i :| 0 <= i < |routes| && InSubnet(w, routes[i]) {
      assert InSubnet(w, more[i + 1]);
    }
  }

  lemma {:induction false} NamesMean(policy: Policy, rules: Rules, host: Host)
    requires host.Valid() && rules.suffix == Lower(SanitizeSuffix(policy.magicSuffix))
    requires rules.names == ShortNamesOf(policy) && rules.routes == SanitizeRoutes(policy.dnsRoutes)
    ensures NamedHost(policy, host.text) <==>
            || host.text == SERVICE_IP || host.text in rules.names || ListMatch(host.text, rules.routes)
            || StartsWith(host.text, TAILNET_IPV6) || (rules.suffix != "" && DomainMatch(host.text, rules.suffix))
  {
    ShortNamesMean(policy, host.text);
    RoutesMean(policy.dnsRoutes, host.text);
    LowerOfStripped(policy.magicSuffix);
    assert Lower("") == "";
    MatchWithin(host.text, rules.suffix);
  }

  /** The always protected destinations, by the policy. */
  lemma {:induction false} CoveredMeans(policy: Policy, strict: bool, host: Host)
    requires host.Valid() && Readable(host)
    ensures Protected(RulesFor(policy, if strict then Supported(policy.subnets) else policy.subnets), host)
            <==> Covered(policy, strict, host)
  {
    var rules := RulesFor(policy, if strict then Supported(policy.subnets) else policy.subnets);
    NamesMean(policy, rules, host);
    if host.octets.Some? {
      TailnetMeans(host.octets.value);
      if strict {
        SupportedRangesMean(policy.subnets, host.octets.value);
      } else {
        RangesMean(policy.subnets, host.octets.value);
      }
    }
    if host.words.Some? {
      SupportedKeepsIpv6(policy.subnets);
      Ipv6RoutesMean(policy.subnets, host.words.value);
    }
  }

  lemma {:induction false} ReadHostReadable(raw: string)
    ensures ReadHost(raw).Valid() && Readable(ReadHost(raw))
  {
  }

  // ---------- the decisions ----------

  /** The manager has credentials for the port of an active policy. */
  predicate Credentialed(policy: Policy, session: Session) {
    policy.mode == Active && session.Some? && policy.proxyPort == session
  }

  /** The decision that a policy asks for. */
  ghost function Wanted(policy: Policy, port: nat, strict: bool, host: Host): Decision
    requires Readable(host)
  {
    if policy.mode != Direct && Proxied(policy, strict, host) then Via(port) else GoDirect
  }

  lemma {:induction false} ResolveMeans(policy: Policy, v: View, session: Session, strict: bool, host: Host)
    requires v.Valid() && host.Valid() && Readable(host) && v.mode != Direct && policy.mode != Direct
    requires InForce(v, session) == RulesFor(policy, if strict then Supported(policy.subnets) else policy.subnets)
    requires v.exitActive == ExitActive(policy) && v.splitMode == policy.domainSplit.mode
    requires v.splitDomains == CleanDomains(policy.domainSplit.domains)
    ensures Resolve(v, session, host) == Wanted(policy, if Authenticated(v, session) then v.proxyPort else 1, strict, host)
  {
    CoveredMeans(policy, strict, host);
    DomainsMean(policy, host.text);
  }

  /** A policy that `apply` works with differs from the requested one only in its mode and port. */
  lemma {:induction false} FieldsKept(policy: Policy, p: Policy)
    requires p == policy || p == policy.(mode := Blocked, proxyPort := None)
    ensures var v := FieldsOf(p);
            && v.mode == p.mode && (p.proxyPort.Some? ==> v.proxyPort == p.proxyPort.value)
            && v.exitActive == ExitActive(policy) && v.splitMode == policy.domainSplit.mode
            && v.splitDomains == CleanDomains(policy.domainSplit.domains)
            && Rules(v.suffix, v.shortNames, v.dnsRoutes, v.ranges, v.ipv6) == RulesFor(policy, Supported(policy.subnets))
            && Rules(v.suffix, v.shortNames, v.dnsRoutes, v.blockedRanges, v.ipv6) == RulesFor(policy, policy.subnets)
  {
    SupportedKeepsIpv6(policy.subnets);
  }

  lemma {:induction false} FieldsMean(policy: Policy, session: Session, later: Session)
    requires policy.mode != Direct
    ensures var v, live := Applied(policy, session), Credentialed(policy, session) && later == session;
            && v.mode != Direct && Authenticated(v, later) == live && (live ==> v.proxyPort == session.value)
            && InForce(v, later) == RulesFor(policy, if live then Supported(policy.subnets) else policy.subnets)
            && v.exitActive == ExitActive(policy) && v.splitMode == policy.domainSplit.mode
            && v.splitDomains == CleanDomains(policy.domainSplit.domains)
  {
    FieldsKept(policy, FirefoxProxy.Requested(policy, session));
  }

  /** Firefox, for every policy, session, later session and host: what the policy covers and
      what follows its exit node goes to the helper's port while there are credentials for
      it, and else to the closed port 1; everything else goes direct. */
  lemma {:induction false} FirefoxDecides(policy: Policy, session: Session, later: Session, raw: string)
    ensures Readable(ReadHost(raw))
    ensures var live := Credentialed(policy, session) && later == session;
            FirefoxDecision(Applied(policy, session), later, raw)
            == Wanted(policy, if live then session.value else 1, live, ReadHost(raw))
  {
    ReadHostReadable(raw);
    if policy.mode != Direct {
      FieldsMean(policy, session, later);
      ResolveMeans(policy, Applied(policy, session), later, Credentialed(policy, session) && later == session, ReadHost(raw));
    }
  }

  /** Chrome takes only dotted digits for an IPv4 address. */
  function AsQuad(host: Host): Host { host.(octets := if host.dotted then host.octets else None) }

  lemma {:induction false} SameTests(ts: seq<Test>, host: Host)
    requires host.Valid()
    ensures AnyHolds(ts, AsQuad(host)) <==> AnyHolds(ts, host)
  {
    forall t | t in ts ensures Holds(t, AsQuad(host)) == Holds(t, host) {
    }
    if t :| t in ts && Holds(t, host) {
      assert Holds(t, AsQuad(host));
    }
  }

  lemma {:induction false} TestsMean(policy: Policy, strict: bool, host: Host)
    requires host.Valid() && Readable(host)
    ensures AnyHolds(TestsFor(RulesFor(policy, if strict then Supported(policy.subnets) else policy.subnets)), host)
            <==> Covered(policy, strict, AsQuad(host))
  {
    var rules := RulesFor(policy, if strict then Supported(policy.subnets) else policy.subnets);
    SameTests(TestsFor(rules), host);
    TestsAgree(rules, AsQuad(host));
    CoveredMeans(policy, strict, AsQuad(host));
  }

  lemma {:induction false} RouteMeans(policy: Policy, port: nat, probe: Option<nat>, host: Host)
    requires host.Valid() && Readable(host) && policy.mode != Direct
    ensures Route(Generate(policy, port, probe), host) == Wanted(policy, port, port != 1, AsQuad(host))
  {
    TestsMean(policy, port != 1, host);
    DomainsMean(policy, host.text);
  }

  /** Chrome, for every policy, session and host: the same, except that on the closed port
      and on the helper's port 1 every recorded range counts. */
  lemma {:induction false} ChromeDecides(policy: Policy, session: Session, raw: string)
    ensures Readable(ReadHost(raw))
    ensures var port := if Credentialed(policy, session) then session.value else 1;
            ChromeDecision(policy, session, raw) == Wanted(policy, port, port != 1, AsQuad(ReadHost(raw)))
  {
    ReadHostReadable(raw);
    if policy.mode != Direct {
      RouteMeans(policy, if IsBlocked(policy, session) then BLOCKED_PORT else session.value, None, ReadHost(raw));
    }
  }

  /** While authentication is pending only the probe reaches the helper; everything else that
      the policy covers or that follows its exit node goes to the closed port. */
  lemma {:induction false} WarmupDecides(policy: Policy, port: nat, raw: string)
    requires policy.mode != Direct
    ensures Readable(ReadHost(raw))
    ensures Eval(Generate(policy, BLOCKED_PORT, Some(port)), raw)
            == if raw == "tailchrome-proxy-auth.invalid" then Via(port) else Wanted(policy, 1, false, AsQuad(ReadHost(raw)))
  {
    ReadHostReadable(raw);
    RouteMeans(policy, BLOCKED_PORT, Some(port), ReadHost(raw));
  }

  // ---------- hosts as they are written ----------

  /** The forms in which a browser may hand over a host: any case, one dot at the end, the
      brackets of a literal. */
  predicate WrittenAs(raw: string, text: string) {
    Lower(raw) == text || Lower(raw) == text + "." || Lower(raw) == "[" + text + "]" || Lower(raw) == "[" + text + "]."
  }

  lemma {:induction false} BareForm(low: string, text: string)
    requires text != "" && text[0] != '[' && text[|text| - 1] != '.' && (low == text || low == text + ".")
    ensures Ipv6Text.Unbracket(StripDot(low)) == text
  {
    assert (text + ".")[..|text|] == text;
  }

  lemma {:induction false} BracketForm(low: string, text: string)
    requires low == "[" + text + "]" || low == "[" + text + "]."
    ensures Ipv6Text.Unbracket(StripDot(low)) == text
  {
    var bracketed := "[" + text + "]";
    assert (bracketed + ".")[..|bracketed|] == bracketed;
    assert low == bracketed || low == bracketed + ".";
    assert bracketed[|bracketed| - 1] == ']' && bracketed[0] == '[';
    assert bracketed[1..|bracketed| - 1] == text;
  }

  lemma {:induction false} HostForms(raw: string, text: string)
    requires text != "" && text[0] != '[' && text[|text| - 1] != '.' && WrittenAs(raw, text)
    ensures NormalHost(raw) == text
  {
    var low := Lower(raw);
    if low == text || low == text + "." {
      BareForm(low, text);
    } else {
      BracketForm(low, text);
    }
  }

  /** The host is a literal of the address. */
  predicate IsLiteral(raw: string, a: Address)
    requires a.Valid()
  {
    match a
    case V4(o) => ReadHost(raw).dotted && ReadHost(raw).octets == Some(o)
    case V6(w) => ReadHost(raw).words == Some(w) && !Mapped(w)
  }

  /** A text that reads as an octet of this value. */
  predicate ReadsAs(part: string, n: nat) { ShortDigits(part) && OctetInt(part) && OctetOf(part) == n }

  lemma {:induction false} QuadOf(text: string, parts: seq<string>, o: seq<nat>)
    requires |parts| == |o| == 4 && Split(text, '.') == parts
    requires ReadsAs(parts[0], o[0]) && ReadsAs(parts[1], o[1]) && ReadsAs(parts[2], o[2]) && ReadsAs(parts[3], o[3])
    ensures DottedDigits(text) && IpToNum(text) == Some(o)
  {
    assert [o[0], o[1], o[2], o[3]] == o;
  }

  lemma {:induction false} OctetTexts(o: seq<nat>)
    requires V4(o).Valid()
    ensures Split(OctetText(o), '.') == [Decimal(o[0]), Decimal(o[1]), Decimal(o[2]), Decimal(o[3])]
    ensures ReadsAs(Decimal(o[0]), o[0]) && ReadsAs(Decimal(o[1]), o[1]) && ReadsAs(Decimal(o[2]), o[2]) && ReadsAs(Decimal(o[3]), o[3])
  {
    OctetSize();
    var texts := [Decimal(o[0]), Decimal(o[1]), Decimal(o[2]), Decimal(o[3])];
    assert forall t | t in texts :: '.' !in t;
    SplitJoin(texts, '.');
    ParseIntDigits(Decimal(o[0]));
    ParseIntDigits(Decimal(o[1]));
    ParseIntDigits(Decimal(o[2]));
    ParseIntDigits(Decimal(o[3]));
  }

  lemma {:induction false} QuadEnds(text: string, parts: seq<string>)
    requires |parts| == 4 && text == Join(parts, '.') && ShortDigits(parts[0]) && ShortDigits(parts[3])
    ensures text != "" && text[0] != '[' && text[|text| - 1] != '.'
  {
    assert parts == [parts[0], parts[1], parts[2], parts[3]];
    JoinFour(parts[0], parts[1], parts[2], parts[3]);
    assert text[0] == parts[0][0] && parts[0][0] in parts[0];
    assert text[|text| - 1] == parts[3][|parts[3]| - 1] && parts[3][|parts[3]| - 1] in parts[3];
  }

  lemma {:induction false} QuadReads(o: seq<nat>)
    requires V4(o).Valid()
    ensures var text := OctetText(o); text != "" && text[0] != '[' && text[|text| - 1] != '.'
    ensures DottedDigits(OctetText(o)) && IpToNum(OctetText(o)) == Some(o)
  {
    var parts := [Decimal(o[0]), Decimal(o[1]), Decimal(o[2]), Decimal(o[3])];
    OctetTexts(o);
    QuadEnds(OctetText(o), parts);
    QuadOf(OctetText(o), parts, o);
  }

  /** An IPv4 address in dotted decimal is a literal of it ... */
  lemma {:induction false} QuadIsLiteral(raw: string, o: seq<nat>)
    requires V4(o).Valid() && WrittenAs(raw, OctetText(o))
    ensures IsLiteral(raw, V4(o))
  {
    QuadReads(o);
    HostForms(raw, OctetText(o));
  }

  /** ... and so is a text that parses as an IPv6 address that is not IPv4-mapped. */
  lemma {:induction false} WordsAreLiteral(raw: string, text: string)
    requires text != "" && text[0] != '[' && text[|text| - 1] != '.' && WrittenAs(raw, text)
    requires Ipv6Text.Parse(text).Some? && !Mapped(Ipv6Text.Parse(text).value)
    ensures IsLiteral(raw, V6(Ipv6Text.Parse(text).value))
  {
    HostForms(raw, text);
  }

  /** In no mode but direct does an address of a recorded route that the helper accepts go
      direct: it goes to the helper's port with credentials, and else to the closed port. */
  lemma {:induction false} RouteIsProtected(policy: Policy, session: Session, cidr: string, a: Address, raw: string)
    requires policy.mode != Direct && cidr in policy.subnets && a.Valid() && RouteHas(cidr, a) && IsLiteral(raw, a)
    ensures var port := Via(if Credentialed(policy, session) then session.value else 1);
            ChromeDecision(policy, session, raw) == port && FirefoxDecision(Applied(policy, session), session, raw) == port
  {
    ChromeDecides(policy, session, raw);
    FirefoxDecides(policy, session, session, raw);
    assert InRoutes(policy, a);
    if a.V4? {
      StrictRange(cidr, a.octets);
      assert InRanges4(policy, a.octets);
    }
  }
}
