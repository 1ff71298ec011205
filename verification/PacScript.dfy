/** The routing policy handed to the browser managers. */
module Policies {
  import opened Text
  import opened DnsNames

  datatype Mode = Active | Blocked | Direct

  datatype Policy = Policy(
    blockAll: bool,
    mode: Mode,
    proxyPort: Option<nat>,
    selectedExit: Option<string>,
    magicSuffix: string,
    subnets: seq<string>,
    shortNames: seq<string>,
    dnsRoutes: seq<string>,
    domainSplit: DomainSplit)

  /** A closed loopback port: connections to it fail. */
  const BLOCKED_PORT: nat := 1
  const PROBE_HOST := "tailchrome-proxy-auth.invalid"
  const SERVICE_IP := "100.100.100.100"
  const TAILNET_IPV6 := "fd7a:115c:a1e0:"

  datatype Decision = GoDirect | Via(port: nat)
}

/** The PAC program Chrome is given, as an abstract syntax with an evaluator. */
module PacScript {
  import opened Text
  import opened Prefixes
  import opened Subnets
  import opened DnsNames
  import opened Policies
  import Ipv6Text

  /** The conditions of the script; each one leads to `return proxy`. */
  datatype Test =
    | HostIs(name: string)
    | InDomain(domain: string)
    | HostStartsWith(prefix: string)
    | InNet(network: seq<nat>, bits: nat)
    | InIpv6(subnets: seq<Subnet>)

  datatype CatchAll = AllDirect | AllProxied | OnlyListed(domains: seq<string>) | AllButListed(domains: seq<string>)

  datatype Program = Program(port: nat, probe: Option<nat>, tests: seq<Test>, catchAll: CatchAll)

  /** `host === d || dnsDomainIs(host, "." + d)`. */
  predicate DomainMatch(host: string, d: string) {
    host == d || EndsWith(host, "." + d)
  }

  predicate ListMatch(host: string, domains: seq<string>) {
    exists d :: d in domains && DomainMatch(host, d)
  }

  /** A host name with everything the tests read from it: whether it has the shape of
      a dotted quad, the octets `ipToNum` finds, and the words of an IPv6 literal. */
  datatype Host = Host(text: string, dotted: bool, octets: Option<seq<nat>>, words: Option<seq<nat>>) {
    predicate Valid() {
      && (octets.Some? ==> |octets.value| == 4)
      && (words.Some? ==> |words.value| == 8)
    }
  }

  /** Lower case, without one trailing dot and without the brackets of a literal. */
  function NormalHost(raw: string): string {
    Ipv6Text.Unbracket(StripDot(Lower(raw)))
  }

  function ReadHost(raw: string): (h: Host)
    ensures h.Valid()
  {
    var text := NormalHost(raw);
    Host(text, DottedDigits(text), IpToNum(text), Ipv6Text.Parse(text))
  }

  /** `isIPv4 && isInNet(host, network, mask)`; on plain digits the PAC library reads
      the same octets as `ipToNum`, and it rejects octets above 255. The network and
      its mask are written in dotted decimal in the script. */
  predicate IsInNet(host: Host, network: seq<nat>, bits: nat)
    requires host.Valid()
  {
    && host.dotted && host.octets.Some? && |network| == 4 && bits <= 32
    && SamePrefix(host.octets.value, network, 8, bits)
  }

  /** The embedded `matches` of the IPv6 tools. */
  predicate Ipv6Match(host: Host, subnets: seq<Subnet>)
    requires host.Valid()
  {
    host.words.Some? && !Mapped(host.words.value) && InSubnets(host.words.value, subnets)
  }

  predicate Holds(t: Test, host: Host)
    requires host.Valid()
  {
    match t
    case HostIs(name) => host.text == name
    case InDomain(d) => DomainMatch(host.text, d)
    case HostStartsWith(p) => StartsWith(host.text, p)
    case InNet(network, bits) => IsInNet(host, network, bits)
    case InIpv6(subnets) => Ipv6Match(host, subnets)
  }

  predicate AnyHolds(ts: seq<Test>, host: Host)
    requires host.Valid()
  {
    exists t :: t in ts && Holds(t, host)
  }

  /** The body of `FindProxyForURL` after the probe. */
  function Route(p: Program, host: Host): Decision
    requires host.Valid()
  {
    if AnyHolds(p.tests, host) then Via(p.port)
    else
      match p.catchAll
      case AllDirect => GoDirect
      case AllProxied => Via(p.port)
      case OnlyListed(ds) => if ListMatch(host.text, ds) then Via(p.port) else GoDirect
      case AllButListed(ds) => if ListMatch(host.text, ds) then GoDirect else Via(p.port)
  }

  /** `FindProxyForURL`. */
  function Eval(p: Program, raw: string): Decision {
    if p.probe.Some? && raw == PROBE_HOST then Via(p.probe.value) else Route(p, ReadHost(raw))
  }

  // ---------- the generator ----------

  function NameTests(names: seq<string>): (ts: seq<Test>)
    ensures forall t :: t in ts <==> t.HostIs? && t.name in names
  {
    if names == [] then [] else [HostIs(names[0])] + NameTests(names[1..])
  }

  function DomainTests(domains: seq<string>): (ts: seq<Test>)
    ensures forall t :: t in ts <==> t.InDomain? && t.domain in domains
  {
    if domains == [] then [] else [InDomain(domains[0])] + DomainTests(domains[1..])
  }

  function Ranges(subnets: seq<string>): (rs: seq<Range>)
    ensures forall i | 0 <= i < |rs| :: rs[i].Valid()
  {
    if subnets == [] then []
    else
      match ParseCidr(subnets[0])
      case None => Ranges(subnets[1..])
      case Some(range) => [range] + Ranges(subnets[1..])
  }

  function RangeTests(ranges: seq<Range>): (ts: seq<Test>)
    ensures forall t :: t in ts <==> t.InNet? && exists i :: 0 <= i < |ranges| && t == InNet(ranges[i].octets, ranges[i].bits)
  {
    if ranges == [] then []
    else
      var rest := RangeTests(ranges[1..]);
      var ts := [InNet(ranges[0].octets, ranges[0].bits)] + rest;
      assert forall i | 0 <= i < |ranges[1..]| :: ranges[1..][i] == ranges[i + 1];
      ts
  }

  function Ipv6Routes(subnets: seq<string>): seq<Subnet> {
    if subnets == [] then []
    else
      match ParseIpv6Cidr(subnets[0])
      case None => Ipv6Routes(subnets[1..])
      case Some(subnet) => [subnet] + Ipv6Routes(subnets[1..])
  }

  function Supported(subnets: seq<string>): seq<string> {
    if subnets == [] then []
    else if IsSupportedSubnet(subnets[0]) then [subnets[0]] + Supported(subnets[1..])
    else Supported(subnets[1..])
  }

  function PlainNames(names: seq<string>): (r: seq<string>)
    ensures forall y :: y in r <==> y in names && '.' !in y
  {
    if names == [] then []
    else if '.' in names[0] then PlainNames(names[1..])
    else [names[0]] + PlainNames(names[1..])
  }

  function ShortNamesOf(policy: Policy): seq<string> { PlainNames(SanitizeRoutes(policy.shortNames)) }

  function ExitActive(policy: Policy): bool { policy.blockAll || policy.selectedExit.Some? }

  function CatchAllFor(exitActive: bool, mode: SplitMode, domains: seq<string>): CatchAll {
    if !exitActive then AllDirect
    else if mode == Only then OnlyListed(domains)
    else if domains != [] then AllButListed(domains)
    else AllProxied
  }

  /** The cleaned lists that the tests are generated from. */
  datatype Rules = Rules(suffix: string, names: seq<string>, routes: seq<string>, ranges: seq<Range>, ipv6: seq<Subnet>)

  function RulesFor(policy: Policy, subnets: seq<string>): Rules {
    Rules(Lower(SanitizeSuffix(policy.magicSuffix)), ShortNamesOf(policy), SanitizeRoutes(policy.dnsRoutes),
          Ranges(subnets), Ipv6Routes(subnets))
  }

  function TestsFor(r: Rules): seq<Test> {
    [HostIs(SERVICE_IP)]
    + (if r.suffix == "" then [] else [InDomain(r.suffix)])
    + NameTests(r.names) + DomainTests(r.routes)
    + [HostStartsWith(TAILNET_IPV6), InNet([100, 64, 0, 0], 10)]
    + RangeTests(r.ranges)
    + (if r.ipv6 == [] then [] else [InIpv6(r.ipv6)])
  }

  /** `config(proxyPort, probePort)`: outage boundaries keep every recorded subnet,
      active routing only those the helper can authorize. */
  function Generate(policy: Policy, port: nat, probe: Option<nat>): Program {
    Program(port, probe,
            TestsFor(RulesFor(policy, if port == BLOCKED_PORT then policy.subnets else Supported(policy.subnets))),
            CatchAllFor(ExitActive(policy), policy.domainSplit.mode, CleanDomains(policy.domainSplit.domains)))
  }

  /** The helper's proxy session, by the port it authenticates. */
  type Session = s: Option<nat> | s.Some? ==> s.value >= 1 witness None

  predicate HasSession(session: Session, policy: Policy) {
    session.Some? && session.value == (if policy.proxyPort.Some? then policy.proxyPort.value else 0)
  }

  predicate IsBlocked(policy: Policy, session: Session) {
    policy.mode == Blocked || !HasSession(session, policy)
  }

  /** What the browser decides under the configuration that `apply` asks for. */
  function ChromeDecision(policy: Policy, session: Session, raw: string): Decision {
    if policy.mode == Direct then GoDirect
    else Eval(Generate(policy, if IsBlocked(policy, session) then BLOCKED_PORT else session.value, None), raw)
  }

  // ---------- the warm-up program ----------

  lemma {:induction false} SupportedSubset(subnets: seq<string>, range: Range)
    requires range in Ranges(Supported(subnets))
    ensures range in Ranges(subnets)
  {
    if subnets != [] {
      if IsSupportedSubnet(subnets[0]) {
        assert Supported(subnets)[1..] == Supported(subnets[1..]);
        if ParseCidr(subnets[0]) != Some(range) {
          SupportedSubset(subnets[1..], range);
        }
      } else {
        SupportedSubset(subnets[1..], range);
      }
    }
  }

  /** Filtering by support drops no usable IPv6 route. */
  lemma {:induction false} SupportedKeepsIpv6(subnets: seq<string>)
    ensures Ipv6Routes(Supported(subnets)) == Ipv6Routes(subnets)
  {
    if subnets != [] {
      SupportedKeepsIpv6(subnets[1..]);
      if IsSupportedSubnet(subnets[0]) {
        assert Supported(subnets)[1..] == Supported(subnets[1..]);
      }
    }
  }

  /** While authentication is pending, every host that the active program would send
      to the helper is sent to the closed port; only the probe host gets through. */
  lemma {:induction false} WarmupBlocks(policy: Policy, port: nat, raw: string)
    requires port != BLOCKED_PORT && raw != PROBE_HOST
    requires Eval(Generate(policy, port, None), raw) == Via(port)
    ensures Eval(Generate(policy, BLOCKED_PORT, Some(port)), raw) == Via(BLOCKED_PORT)
  {
    var active, warm := RulesFor(policy, Supported(policy.subnets)), RulesFor(policy, policy.subnets);
    SupportedKeepsIpv6(policy.subnets);
    forall range | range in active.ranges ensures range in warm.ranges {
      SupportedSubset(policy.subnets, range);
    }
    WarmupRoutes(Generate(policy, port, None), Generate(policy, BLOCKED_PORT, Some(port)), active, warm, ReadHost(raw));
  }

  lemma {:induction false} WarmupRoutes(p: Program, q: Program, active: Rules, warm: Rules, host: Host)
    requires host.Valid() && p.tests == TestsFor(active) && q.tests == TestsFor(warm) && p.catchAll == q.catchAll
    requires active.suffix == warm.suffix && active.names == warm.names && active.routes == warm.routes
    requires active.ipv6 == warm.ipv6 && forall range | range in active.ranges :: range in warm.ranges
    requires Route(p, host) == Via(p.port)
    ensures Route(q, host) == Via(q.port)
  {
    if AnyHolds(p.tests, host) {
      var t :| t in p.tests && Holds(t, host);
      if t in RangeTests(active.ranges) {
        var i :| 0 <= i < |active.ranges| && t == InNet(active.ranges[i].octets, active.ranges[i].bits);
        assert active.ranges[i] in warm.ranges;
        assert t in RangeTests(warm.ranges);
      }
      assert t in q.tests;
    }
  }
}

/** Firefox's direct interpreter of the same policy. */
module FirefoxProxy {
  import opened Text
  import opened Prefixes
  import opened Subnets
  import opened DnsNames
  import opened Policies
  import opened PacScript

  /** The manager's routing fields. */
  datatype View = View(
    mode: Mode, proxyPort: nat, exitActive: bool, suffix: string, shortNames: seq<string>,
    dnsRoutes: seq<string>, ranges: seq<Range>, blockedRanges: seq<Range>, ipv6: seq<Subnet>,
    splitMode: SplitMode, splitDomains: seq<string>)
  {
    predicate Valid() {
      && (forall i | 0 <= i < |ranges| :: ranges[i].Valid())
      && forall i | 0 <= i < |blockedRanges| :: blockedRanges[i].Valid()
    }
  }

  /** The policy `apply` works with: without credentials an active policy is blocked. */
  function Requested(policy: Policy, session: Session): Policy {
    if policy.mode == Active && !HasSession(session, policy) then policy.(mode := Blocked, proxyPort := None) else policy
  }

  function FieldsOf(policy: Policy): (v: View)
    ensures v.Valid()
  {
    View(policy.mode, if policy.proxyPort.None? then BLOCKED_PORT else policy.proxyPort.value,
         ExitActive(policy), Lower(SanitizeSuffix(policy.magicSuffix)), ShortNamesOf(policy),
         SanitizeRoutes(policy.dnsRoutes), Ranges(Supported(policy.subnets)), Ranges(policy.subnets),
         Ipv6Routes(policy.subnets), policy.domainSplit.mode, CleanDomains(policy.domainSplit.domains))
  }

  /** The fields `apply` is meant to leave behind. */
  function Applied(policy: Policy, session: Session): (v: View)
    ensures v.Valid()
  {
    FieldsOf(Requested(policy, session))
  }

  predicate Authenticated(v: View, session: Session) {
    v.mode == Active && session == Some(v.proxyPort)
  }

  predicate InRange(octets: seq<nat>, range: Range)
    requires |octets| == 4 && range.Valid()
  {
    AndMask(octets, range.bits) == AndMask(range.octets, range.bits)
  }

  predicate InRanges(octets: seq<nat>, ranges: seq<Range>)
    requires |octets| == 4 && forall i | 0 <= i < |ranges| :: ranges[i].Valid()
  {
    exists i :: 0 <= i < |ranges| && InRange(octets, ranges[i])
  }

  const CGNAT_NETWORK: nat := 0x64400000

  /** The lists in force: without credentials, every recorded range is blocked. */
  function InForce(v: View, session: Session): Rules {
    Rules(v.suffix, v.shortNames, v.dnsRoutes, if Authenticated(v, session) then v.ranges else v.blockedRanges, v.ipv6)
  }

  /** The destinations that are always protected. */
  predicate Protected(r: Rules, host: Host)
    requires host.Valid() && forall i | 0 <= i < |r.ranges| :: r.ranges[i].Valid()
  {
    || host.text == SERVICE_IP
    || host.text in r.names
    || ListMatch(host.text, r.routes)
    || StartsWith(host.text, TAILNET_IPV6)
    || (host.octets.Some? && AndMask(host.octets.value, 10) == CGNAT_NETWORK)
    || (r.suffix != "" && DomainMatch(host.text, r.suffix))
    || (host.octets.Some? && InRanges(host.octets.value, r.ranges))
    || Ipv6Match(host, r.ipv6)
  }

  /** `resolveProxy`. */
  function Resolve(v: View, session: Session, host: Host): Decision
    requires v.Valid() && host.Valid()
  {
    var proxy := Via(if Authenticated(v, session) then v.proxyPort else BLOCKED_PORT);
    if v.mode == Direct then GoDirect
    else if Protected(InForce(v, session), host) then proxy
    else if !v.exitActive then GoDirect
    else if v.splitMode == Only then (if ListMatch(host.text, v.splitDomains) then proxy else GoDirect)
    else if v.splitDomains != [] && ListMatch(host.text, v.splitDomains) then GoDirect
    else proxy
  }

  function FirefoxDecision(v: View, session: Session, raw: string): Decision
    requires v.Valid()
  {
    Resolve(v, session, ReadHost(raw))
  }

  // ---------- the manager ----------

  /** The routing fields, the helper's session, the policy last asked for and the one the
      browser has reported an error for. */
  datatype Manager = Manager(fields: View, session: Session, policyKey: Option<Policy>, failedKey: Option<Policy>)

  datatype Event = SetSession(session: Session) | Apply(policy: Policy) | ErrorSeen | Clear

  /** Before anything is applied every destination is blocked. */
  const UNAPPLIED := Manager(View(Blocked, BLOCKED_PORT, true, "", [], [], [], [], [], Bypass, []), None, None, None)

  /** `apply`: a policy that failed is not applied again. */
  function ApplyKey(m: Manager, key: Policy): Manager {
    var failed := if m.policyKey == Some(key) then m.failedKey else None;
    if failed == Some(key) then m else m.(fields := FieldsOf(key), policyKey := Some(key), failedKey := failed)
  }

  function StepManager(m: Manager, e: Event): Manager {
    match e
    case SetSession(session) => m.(session := session)
    case Apply(policy) => ApplyKey(m, Requested(policy, m.session))
    case ErrorSeen => m.(failedKey := m.policyKey)
    case Clear => m.(fields := m.fields.(mode := Direct))
  }

  function RunManager(events: seq<Event>): Manager {
    if events == [] then UNAPPLIED else StepManager(RunManager(events[..|events| - 1]), events[|events| - 1])
  }

  /** The fields are those of the policy last asked for, or cleared since. */
  predicate ManagerInv(m: Manager) {
    && m.fields.Valid()
    && (m.policyKey.Some? ==> m.fields == FieldsOf(m.policyKey.value) || m.fields == FieldsOf(m.policyKey.value).(mode := Direct))
    && (m.failedKey.Some? ==> m.failedKey == m.policyKey)
  }

  lemma {:induction false} ManagerKeeps(m: Manager, e: Event)
    ensures ManagerInv(m) ==> ManagerInv(StepManager(m, e))
  {
  }

  lemma {:induction false} ManagerRuns(events: seq<Event>)
    ensures ManagerInv(RunManager(events))
  {
    if events != [] {
      ManagerRuns(events[..|events| - 1]);
      ManagerKeeps(RunManager(events[..|events| - 1]), events[|events| - 1]);
    }
  }

  /** The policy failed and the routing was cleared since. */
  predicate ClearedFailure(m: Manager, key: Policy) {
    m.failedKey == Some(key) && m.fields.mode == Direct && key.mode != Direct
  }

  /** Over every run of sessions, policies, errors and clears: `apply` leaves the fields of
      its policy, except, and only, when that policy failed and was cleared since; then
      everything goes on direct. */
  lemma {:induction false} AppliedUnlessFailedAndCleared(events: seq<Event>, policy: Policy)
    ensures var m := RunManager(events);
            var t := StepManager(m, Apply(policy));
            && (t.fields == Applied(policy, m.session) <==> !ClearedFailure(m, Requested(policy, m.session)))
            && (ClearedFailure(m, Requested(policy, m.session)) ==> t.fields.mode == Direct)
  {
    ManagerRuns(events);
  }

  lemma {:induction false} UnclearedFields(events: seq<Event>)
    requires forall i | 0 <= i < |events| :: !events[i].Clear?
    ensures var m := RunManager(events); m.policyKey.Some? ==> m.fields == FieldsOf(m.policyKey.value)
  {
    if events != [] {
      UnclearedFields(events[..|events| - 1]);
    }
  }

  /** So without a clear `apply` always does what it is asked. */
  lemma {:induction false} AppliedWithoutClear(events: seq<Event>, policy: Policy)
    requires forall i | 0 <= i < |events| :: !events[i].Clear?
    ensures var m := RunManager(events); StepManager(m, Apply(policy)).fields == Applied(policy, m.session)
  {
    ManagerRuns(events);
    UnclearedFields(events);
  }

  lemma {:induction false} ManagerNext(events: seq<Event>, e: Event)
    ensures RunManager(events + [e]) == StepManager(RunManager(events), e)
  {
    assert (events + [e])[..|events|] == events;
  }

  /** Such a run: a blocked policy is applied, fails, is cleared, and is not applied again. */
  lemma {:induction false} ClearedFailureStaysDirect(policy: Policy) returns (events: seq<Event>)
    requires policy.mode == Blocked
    ensures var m := StepManager(RunManager(events), Apply(policy)); m.policyKey == Some(policy) && m.fields.mode == Direct
  {
    assert RunManager([]) == UNAPPLIED;
    ManagerNext([], Apply(policy));
    ManagerNext([Apply(policy)], ErrorSeen);
    ManagerNext([Apply(policy)] + [ErrorSeen], Clear);
    events := [Apply(policy)] + [ErrorSeen] + [Clear];
    assert [] + [Apply(policy)] == [Apply(policy)];
  }

  /** The manager: fields overwritten by `apply` and `clear`, read by the listener. */
  class FirefoxProxyManager {
    var session: Session
    var mode: Mode
    var proxyPort: nat
    var exitNodeActive: bool
    var magicDNSSuffix: string
    var shortNames: seq<string>
    var dnsRoutes: seq<string>
    var subnetRanges: seq<Range>
    var blockedSubnetRanges: seq<Range>
    var ipv6Subnets: seq<Subnet>
    var splitMode: SplitMode
    var splitDomains: seq<string>

    var policyKey: Option<Policy>
    var failedKey: Option<Policy>

    ghost function Fields(): View
      reads this
    {
      View(mode, proxyPort, exitNodeActive, magicDNSSuffix, shortNames, dnsRoutes, subnetRanges,
           blockedSubnetRanges, ipv6Subnets, splitMode, splitDomains)
    }

    ghost function Now(): Manager
      reads this
    {
      Manager(Fields(), session, policyKey, failedKey)
    }

    constructor ()
      ensures Now() == UNAPPLIED && ManagerInv(Now())
      ensures forall raw :: FirefoxDecision(Fields(), session, raw) == Via(BLOCKED_PORT)
    {
      session, mode, proxyPort, exitNodeActive := None, Blocked, BLOCKED_PORT, true;
      magicDNSSuffix, shortNames, dnsRoutes, subnetRanges, blockedSubnetRanges := "", [], [], [], [];
      ipv6Subnets, splitMode, splitDomains, policyKey, failedKey := [], Bypass, [], None, None;
    }

    method SetProxySession(next: Session)
      modifies this`session
      ensures Now() == StepManager(old(Now()), Event.SetSession(next))
      ensures ManagerInv(old(Now())) ==> ManagerInv(Now())
    {
      ManagerKeeps(Now(), Event.SetSession(next));
      session := next;
    }

    method Error()
      modifies this`failedKey
      ensures Now() == StepManager(old(Now()), ErrorSeen)
      ensures ManagerInv(old(Now())) ==> ManagerInv(Now())
    {
      ManagerKeeps(Now(), ErrorSeen);
      failedKey := policyKey;
    }

    method ApplyPolicy(policy: Policy)
      modifies this
      ensures Now() == StepManager(old(Now()), Event.Apply(policy))
      ensures ManagerInv(old(Now())) ==> ManagerInv(Now())
    {
      ManagerKeeps(Now(), Event.Apply(policy));
      ApplyKeyed(Requested(policy, session));
    }

    method ApplyKeyed(key: Policy)
      modifies this
      ensures Now() == ApplyKey(old(Now()), key)
    {
      if policyKey != Some(key) {
        failedKey := None;
      }
      policyKey := Some(key);
      if failedKey == policyKey {
        return;
      }
      var domains := CollectDomains(key.domainSplit.domains);
      SetFields(FieldsOf(key).(splitDomains := domains));
    }

    method SetFields(v: View)
      modifies this
      ensures session == old(session) && policyKey == old(policyKey) && failedKey == old(failedKey) && Fields() == v
    {
      mode, proxyPort, exitNodeActive := v.mode, v.proxyPort, v.exitActive;
      SetLists(v);
    }

    method SetLists(v: View)
      modifies this`magicDNSSuffix, this`shortNames, this`dnsRoutes, this`subnetRanges, this`blockedSubnetRanges,
               this`ipv6Subnets, this`splitMode, this`splitDomains
      ensures Fields() == v.(mode := mode, proxyPort := proxyPort, exitActive := exitNodeActive)
    {
      magicDNSSuffix, shortNames, dnsRoutes := v.suffix, v.shortNames, v.dnsRoutes;
      subnetRanges, blockedSubnetRanges, ipv6Subnets := v.ranges, v.blockedRanges, v.ipv6;
      splitMode, splitDomains := v.splitMode, v.splitDomains;
    }

    method ClearRouting()
      requires Fields().Valid()
      modifies this`mode
      ensures Now() == StepManager(old(Now()), Event.Clear)
      ensures ManagerInv(old(Now())) ==> ManagerInv(Now())
      ensures forall raw :: FirefoxDecision(Fields(), session, raw) == GoDirect
    {
      ManagerKeeps(Now(), Event.Clear);
      mode := Direct;
    }

    method MatchSplitDomain(host: string) returns (found: bool)
      ensures found <==> ListMatch(host, splitDomains)
    {
      for i := 0 to |splitDomains|
        invariant forall k | 0 <= k < i :: !DomainMatch(host, splitDomains[k])
      {
        if DomainMatch(host, splitDomains[i]) {
          return true;
        }
      }
      return false;
    }

    method MatchRanges(octets: seq<nat>, ranges: seq<Range>) returns (found: bool)
      requires |octets| == 4 && forall i | 0 <= i < |ranges| :: ranges[i].Valid()
      ensures found <==> InRanges(octets, ranges)
    {
      for i := 0 to |ranges|
        invariant forall k | 0 <= k < i :: !InRange(octets, ranges[k])
      {
        if InRange(octets, ranges[i]) {
          return true;
        }
      }
      return false;
    }

    /** The listener, in the order the source tests a host. */
    method ResolveProxy(raw: string) returns (decision: Decision)
      requires Fields().Valid()
      ensures decision == FirefoxDecision(Fields(), session, raw)
    {
      var host := ReadHost(raw);
      decision := ResolveHost(host);
    }

    /** The tests that come before the catch-all. */
    method IsProtected(host: Host, credentials: bool) returns (found: bool)
      requires Fields().Valid() && host.Valid() && (host.words.Some? ==> Words(host.words.value, 16))
      requires credentials == Authenticated(Fields(), session)
      ensures found <==> Protected(InForce(Fields(), session), host)
    {
      var text := host.text;
      if text == SERVICE_IP || text in shortNames || ListMatch(text, dnsRoutes) || StartsWith(text, TAILNET_IPV6) {
        return true;
      }
      var num := host.octets;
      if num.Some? && AndMask(num.value, 10) == CGNAT_NETWORK {
        return true;
      }
      if magicDNSSuffix != "" && DomainMatch(text, magicDNSSuffix) {
        return true;
      }
      if num.Some? {
        var inRange := MatchRanges(num.value, if credentials then subnetRanges else blockedSubnetRanges);
        if inRange {
          return true;
        }
      }
      if host.words.Some? && !Mapped(host.words.value) {
        found := MatchWords(host.words.value, ipv6Subnets);
        return;
      }
      return false;
    }

    method ResolveHost(host: Host) returns (decision: Decision)
      requires Fields().Valid() && host.Valid() && (host.words.Some? ==> Words(host.words.value, 16))
      ensures decision == Resolve(Fields(), session, host)
    {
      if mode == Direct {
        return GoDirect;
      }
      var credentials := mode == Active && session == Some(proxyPort);
      var proxy := Via(if credentials then proxyPort else BLOCKED_PORT);
      var found := IsProtected(host, credentials);
      if found {
        return proxy;
      }
      if exitNodeActive {
        var listed := MatchSplitDomain(host.text);
        if splitMode == Only {
          return if listed then proxy else GoDirect;
        }
        if |splitDomains| > 0 && listed {
          return GoDirect;
        }
        return proxy;
      }
      return GoDirect;
    }
  }

  // ---------- the two browsers agree ----------

  /** `parseInt` accepts a host whose four labels merely begin with digits. A host is
      strict when it is not one of those. */
  predicate StrictHost(host: Host) {
    host.octets.Some? ==> host.dotted
  }

  lemma {:induction false} CgnatNumber()
    ensures AndMask([100, 64, 0, 0], 10) == CGNAT_NETWORK
  {
    var octets: seq<nat> :| octets == [100, 64, 0, 0];
    OctetSize();
    Pow2Add(8, 8);
    Pow2Add(8, 16);
    assert Pow2(16) == 65536 && Pow2(24) == 16777216;
    assert octets[1..] == [64, 0, 0] && octets[1..][1..] == [0, 0] && octets[1..][1..][1..] == [0];
    assert Value(octets, 8) == 0x64400000;
    assert Pow2(22) == 4194304 by {
      Pow2Add(6, 16);
      assert Pow2(6) == 64;
    }
    QuotIs(0x64400000, 4194304, 401);
  }

  lemma {:induction false} CgnatAgrees(host: Host)
    requires host.Valid() && StrictHost(host)
    ensures IsInNet(host, [100, 64, 0, 0], 10)
            <==> host.octets.Some? && AndMask(host.octets.value, 10) == CGNAT_NETWORK
  {
    CgnatNumber();
    if host.octets.Some? {
      AndMaskEqual(host.octets.value, [100, 64, 0, 0], 10);
    }
  }

  lemma {:induction false} RangesAgree(host: Host, ranges: seq<Range>)
    requires host.Valid() && StrictHost(host)
    requires forall i | 0 <= i < |ranges| :: ranges[i].Valid()
    ensures AnyHolds(RangeTests(ranges), host) <==> host.octets.Some? && InRanges(host.octets.value, ranges)
  {
    if host.octets.Some? {
      forall i | 0 <= i < |ranges|
        ensures Holds(InNet(ranges[i].octets, ranges[i].bits), host) <==> InRange(host.octets.value, ranges[i])
        ensures InNet(ranges[i].octets, ranges[i].bits) in RangeTests(ranges)
      {
        AndMaskEqual(host.octets.value, ranges[i].octets, ranges[i].bits);
      }
    }
  }

  /** The script's conditions, taken together, say what Firefox's tests say. */
  lemma {:induction false} TestsAgree(r: Rules, host: Host)
    requires host.Valid() && StrictHost(host)
    requires forall i | 0 <= i < |r.ranges| :: r.ranges[i].Valid()
    ensures AnyHolds(TestsFor(r), host) <==> Protected(r, host)
  {
    var ts := TestsFor(r);
    CgnatAgrees(host);
    RangesAgree(host, r.ranges);
    if Protected(r, host) {
      ProtectedIsTested(r, host);
    }
    if AnyHolds(ts, host) {
      var t :| t in ts && Holds(t, host);
      if t in RangeTests(r.ranges) {
        assert AnyHolds(RangeTests(r.ranges), host);
      }
    }
  }

  lemma {:induction false} ProtectedIsTested(r: Rules, host: Host)
    requires host.Valid() && StrictHost(host)
    requires forall i | 0 <= i < |r.ranges| :: r.ranges[i].Valid()
    requires Protected(r, host)
    ensures AnyHolds(TestsFor(r), host)
  {
    var ts := TestsFor(r);
    var t: Test;
    if host.text == SERVICE_IP {
      t := HostIs(SERVICE_IP);
    } else if host.text in r.names {
      t := HostIs(host.text);
    } else if ListMatch(host.text, r.routes) {
      var d :| d in r.routes && DomainMatch(host.text, d);
      t := InDomain(d);
    } else if StartsWith(host.text, TAILNET_IPV6) {
      t := HostStartsWith(TAILNET_IPV6);
    } else if host.octets.Some? && AndMask(host.octets.value, 10) == CGNAT_NETWORK {
      CgnatAgrees(host);
      t := InNet([100, 64, 0, 0], 10);
    } else if r.suffix != "" && DomainMatch(host.text, r.suffix) {
      t := InDomain(r.suffix);
    } else if Ipv6Match(host, r.ipv6) {
      t := InIpv6(r.ipv6);
    } else {
      RangesAgree(host, r.ranges);
      t :| t in RangeTests(r.ranges) && Holds(t, host);
    }
    assert t in ts && Holds(t, host);
  }

  lemma {:induction false} RouteAgrees(p: Program, v: View, session: Session, host: Host)
    requires v.Valid() && host.Valid() && StrictHost(host) && v.mode != Direct
    requires p.tests == TestsFor(InForce(v, session))
    requires p.port == (if Authenticated(v, session) then v.proxyPort else BLOCKED_PORT)
    requires p.catchAll == CatchAllFor(v.exitActive, v.splitMode, v.splitDomains)
    ensures Route(p, host) == Resolve(v, session, host)
  {
    TestsAgree(InForce(v, session), host);
  }

  lemma {:induction false} AppliedInForce(policy: Policy, session: Session)
    requires policy.mode != Direct && policy.proxyPort != Some(BLOCKED_PORT)
    ensures var v := Applied(policy, session); var blocked := IsBlocked(policy, session);
            && v.mode != Direct && Authenticated(v, session) == !blocked && (!blocked ==> v.proxyPort == session.value)
            && InForce(v, session) == RulesFor(policy, if blocked then policy.subnets else Supported(policy.subnets))
  {
    SupportedKeepsIpv6(policy.subnets);
  }

  lemma {:induction false} SameRoute(policy: Policy, session: Session, port: nat, host: Host)
    requires host.Valid() && StrictHost(host) && policy.mode != Direct && policy.proxyPort != Some(BLOCKED_PORT)
    requires port == if IsBlocked(policy, session) then BLOCKED_PORT else session.value
    ensures Route(Generate(policy, port, None), host) == Resolve(Applied(policy, session), session, host)
  {
    AppliedInForce(policy, session);
    RouteAgrees(Generate(policy, port, None), Applied(policy, session), session, host);
  }

  /** For every policy, session and strict host, the generated PAC and Firefox's
      interpreter make the same decision, down to the port. */
  lemma {:induction false} SameDecision(policy: Policy, session: Session, raw: string)
    requires StrictHost(ReadHost(raw))
    requires policy.proxyPort != Some(BLOCKED_PORT)
    ensures ChromeDecision(policy, session, raw) == FirefoxDecision(Applied(policy, session), session, raw)
  {
    if policy.mode != Direct {
      SameRoute(policy, session, if IsBlocked(policy, session) then BLOCKED_PORT else session.value, ReadHost(raw));
    }
  }

  /** When the session disappears after `apply`, Firefox behaves as Chrome's blocked
      program does. */
  lemma {:induction false} LostSessionBlocks(policy: Policy, session: Session, later: Session, raw: string)
    requires StrictHost(ReadHost(raw)) && policy.mode != Direct
    requires !HasSession(later, policy)
    ensures FirefoxDecision(Applied(policy, session), later, raw)
            == Eval(Generate(policy, BLOCKED_PORT, None), raw)
  {
    assert !Authenticated(Applied(policy, session), later);
    RouteAgrees(Generate(policy, BLOCKED_PORT, None), Applied(policy, session), later, ReadHost(raw));
  }

  // ---------- and only on strict hosts ----------

  /** Four labels that are read as numbers do not begin with a letter. */
  /** What a text that `parseInt` reads can begin with. */
  predicate NumberStart(c: char) { IsDigit(c) || c == '+' || c == '-' || Space(c) }

  lemma {:induction false} NumberFirst(text: string)
    requires IpToNum(text).Some?
    ensures text != "" && NumberStart(text[0])
  {
    var parts := Split(text, '.');
    assert OctetInt(parts[0]) && parts[0] != "";
    assert text == parts[0] + ['.'] + Join(parts[1..], '.');
    assert text[0] == parts[0][0];
  }

  lemma {:induction false} DottedFour(text: string, parts: seq<string>)
    requires |parts| == 4 && text == Join(parts, '.')
    requires ShortDigits(parts[0]) && ShortDigits(parts[1]) && ShortDigits(parts[2]) && ShortDigits(parts[3])
    ensures Split(text, '.') == parts && DottedDigits(text)
  {
    SplitJoin(parts, '.');
  }

  lemma {:induction false} JoinFour(a: string, b: string, c: string, d: string)
    ensures Join([a, b, c, d], '.') == a + "." + (b + "." + (c + "." + d))
  {
    assert Join([d], '.') == d;
    assert [c, d][1..] == [d];
    assert Join([c, d], '.') == c + "." + d;
    assert [b, c, d][1..] == [c, d];
    assert Join([b, c, d], '.') == b + "." + (c + "." + d);
    assert [a, b, c, d][1..] == [b, c, d];
  }

  lemma {:induction false} ServiceIsDotted(n: string, text: string)
    requires n == "100" && text == n + "." + (n + "." + (n + "." + n))
    ensures DottedDigits(text)
  {
    JoinFour(n, n, n, n);
    DottedFour(text, [n, n, n, n]);
  }

  lemma {:induction false} ServiceText(n: string)
    requires n == "100"
    ensures n + "." + (n + "." + (n + "." + n)) == SERVICE_IP
  {
  }

  lemma {:induction false} LooseIsNotService(text: string)
    requires !DottedDigits(text)
    ensures text != SERVICE_IP
  {
    var n: string :| n == "100";
    var service := n + "." + (n + "." + (n + "." + n));
    ServiceIsDotted(n, service);
    ServiceText(n);
  }

  lemma {:induction false} NumberIsNotTailnet(text: string)
    requires text != "" && NumberStart(text[0])
    ensures !StartsWith(text, TAILNET_IPV6)
  {
    assert TAILNET_IPV6[0] == 'f';
  }

  /** A policy that blocks everything with an IPv4 address: the separator. */
  function BlocksAllIpv4(cidr: string): Policy {
    Policy(false, Blocked, None, None, "", [cidr], [], [], DomainSplit(Bypass, []))
  }

  lemma {:induction false} ZeroParses(zero: string)
    requires zero == "0"
    ensures ParseInt(zero) == Some(0) && ShortDigits(zero)
  {
    assert AllDigits(zero);
    ParseIntDigits(zero);
    assert zero[..0] == "" && DecimalValue("") == 0;
  }

  lemma {:induction false} ZeroQuad(zero: string, quad: string)
    requires ParseInt(zero) == Some(0) && ShortDigits(zero) && quad == Join([zero, zero, zero, zero], '.')
    ensures DottedDigits(quad) && IpToNum(quad).Some? && '/' !in quad && ':' !in quad
  {
    var parts := [zero, zero, zero, zero];
    DottedFour(quad, parts);
    if '/' in quad {
      JoinChars(parts, '.', '/');
    }
    if ':' in quad {
      JoinChars(parts, '.', ':');
    }
  }

  lemma {:induction false} ZeroLength(quad: string, zero: string, cidr: string)
    requires DottedDigits(quad) && IpToNum(quad).Some? && '/' !in quad && ParseInt(zero) == Some(0) && ShortDigits(zero)
    requires cidr == quad + ['/'] + zero
    ensures ParseCidr(cidr).Some? && ParseCidr(cidr).value.bits == 0
  {
    assert '/' !in zero;
    SplitHead(quad, zero, '/');
    SplitPlain(zero, '/');
    assert Split(cidr, '/') == [quad, zero];
  }

  /** A subnet that contains every IPv4 address. */
  lemma {:induction false} AllIpv4() returns (cidr: string)
    ensures ParseCidr(cidr).Some? && ParseCidr(cidr).value.bits == 0 && ':' !in cidr
  {
    var zero: string :| zero == "0";
    ZeroParses(zero);
    var quad := Join([zero, zero, zero, zero], '.');
    ZeroQuad(zero, quad);
    cidr := quad + ['/'] + zero;
    ZeroLength(quad, zero, cidr);
  }

  lemma {:induction false} SeparatorSubnets(cidr: string)
    requires ParseCidr(cidr).Some? && ':' !in cidr
    ensures Ranges([cidr]) == [ParseCidr(cidr).value] && Ipv6Routes([cidr]) == []
  {
    assert [cidr][1..] == [];
    assert Ranges([]) == [] && Ipv6Routes([]) == [];
    assert ParseIpv6Cidr(cidr).None?;
  }

  lemma {:induction false} SeparatorNames()
    ensures Lower(SanitizeSuffix("")) == "" && SanitizeRoutes([]) == [] && PlainNames(SanitizeRoutes([])) == []
  {
    assert ValidNames([]) == [] && SortUnique([]) == [];
  }

  /** A host that is not strict is in every range of length 0 for Firefox and in none for
      the script. */
  lemma {:induction false} LooseHostDiffers(host: Host, r: Rules, all: Range)
    requires host.Valid() && !StrictHost(host) && host.text != SERVICE_IP && !StartsWith(host.text, TAILNET_IPV6)
    requires V4(host.octets.value).Valid() && all.Valid() && all.bits == 0 && r == Rules("", [], [], [all], [])
    ensures r.ranges[0].Valid() && !AnyHolds(TestsFor(r), host) && Protected(r, host)
  {
    AndMaskEqual(host.octets.value, all.octets, 0);
    SamePrefixZero(host.octets.value, all.octets, 8);
    assert InRange(host.octets.value, r.ranges[0]);
  }

  lemma {:induction false} RoutesDiffer(p: Program, v: View, host: Host, r: Rules)
    requires v.Valid() && host.Valid() && v.mode == Blocked && !v.exitActive && InForce(v, None) == r
    requires p.tests == TestsFor(r) && p.catchAll == AllDirect && !AnyHolds(TestsFor(r), host) && Protected(r, host)
    ensures Route(p, host) == GoDirect && Resolve(v, None, host) == Via(BLOCKED_PORT)
  {
  }

  lemma {:induction false} SeparatorFields(cidr: string, r: Rules)
    requires ParseCidr(cidr).Some? && ':' !in cidr && r == Rules("", [], [], [ParseCidr(cidr).value], [])
    ensures Generate(BlocksAllIpv4(cidr), BLOCKED_PORT, None).tests == TestsFor(r)
    ensures InForce(Applied(BlocksAllIpv4(cidr), None), None) == r
  {
    SeparatorSubnets(cidr);
    SeparatorNames();
    assert RulesFor(BlocksAllIpv4(cidr), [cidr]) == r;
  }

  lemma {:induction false} BrowsersDiffer(raw: string, cidr: string)
    requires !StrictHost(ReadHost(raw)) && ParseCidr(cidr).Some? && ParseCidr(cidr).value.bits == 0 && ':' !in cidr
    ensures ChromeDecision(BlocksAllIpv4(cidr), None, raw) == GoDirect
    ensures FirefoxDecision(Applied(BlocksAllIpv4(cidr), None), None, raw) == Via(BLOCKED_PORT)
  {
    var host, policy := ReadHost(raw), BlocksAllIpv4(cidr);
    NumberFirst(host.text);
    LooseIsNotService(host.text);
    NumberIsNotTailnet(host.text);
    var all := ParseCidr(cidr).value;
    var r := Rules("", [], [], [all], []);
    SeparatorFields(cidr, r);
    LooseHostDiffers(host, r, all);
    RoutesDiffer(Generate(policy, BLOCKED_PORT, None), Applied(policy, None), host, r);
  }

  /** The browsers agree on a host. */
  ghost predicate BrowsersAgree(raw: string) {
    forall policy: Policy, session: Session | policy.proxyPort != Some(BLOCKED_PORT) ::
      ChromeDecision(policy, session, raw) == FirefoxDecision(Applied(policy, session), session, raw)
  }

  /** For every host: the browsers agree under all policies and sessions if and only if
      the host is strict. */
  lemma {:induction false} AgreeOnlyIfStrict(raw: string)
    ensures BrowsersAgree(raw) <==> StrictHost(ReadHost(raw))
  {
    if StrictHost(ReadHost(raw)) {
      forall policy: Policy, session: Session | policy.proxyPort != Some(BLOCKED_PORT)
        ensures ChromeDecision(policy, session, raw) == FirefoxDecision(Applied(policy, session), session, raw)
      {
        SameDecision(policy, session, raw);
      }
    } else {
      var cidr := AllIpv4();
      BrowsersDiffer(raw, cidr);
    }
  }

  lemma {:induction false} DigitParses(digit: string, rest: string)
    requires |digit| == 1 && IsDigit(digit[0]) && (rest == "" || !IsDigit(rest[0]))
    ensures ParseInt(digit + rest) == Some(DigitValue(digit[0]))
  {
    var s := digit + rest;
    assert s[1..] == rest && DigitPrefix(rest) == "";
    assert DigitPrefix(s) == digit;
    assert digit[..0] == "" && DecimalValue("") == 0;
  }

  lemma {:induction false} LooseParts(raw: string, a: string, b: string, c: string, d: string)
    requires raw == Join([a, b, c, d], '.') && OctetInt(a) && OctetInt(b) && OctetInt(c) && OctetInt(d) && !AllDigits(d)
    requires '.' !in a && '.' !in b && '.' !in c && '.' !in d
    ensures IpToNum(raw).Some? && !DottedDigits(raw)
  {
    SplitJoin([a, b, c, d], '.');
  }

  lemma {:induction false} NormalLoose(raw: string)
    requires raw == "1.2.3.4a"
    ensures NormalHost(raw) == raw
  {
    assert Lower(raw) == raw;
  }

  lemma {:induction false} LooseDigits(a: string, b: string, c: string, d: string)
    requires a == "1" && b == "2" && c == "3" && d == "4a"
    ensures OctetInt(a) && OctetInt(b) && OctetInt(c) && OctetInt(d) && !AllDigits(d)
  {
    DigitParses(a, "");
    DigitParses(b, "");
    DigitParses(c, "");
    DigitParses("4", "a");
    assert a + "" == a && b + "" == b && c + "" == c && "4" + "a" == d;
    assert d[1] in d && !IsDigit(d[1]);
  }

  lemma {:induction false} LooseJoin(raw: string, a: string, b: string, c: string, d: string)
    requires raw == "1.2.3.4a" && a == "1" && b == "2" && c == "3" && d == "4a"
    ensures raw == a + "." + (b + "." + (c + "." + d))
    ensures '.' !in a && '.' !in b && '.' !in c && '.' !in d
  {
  }

  /** A host the browser can hand over that is not strict: 1.2.3.4a. */
  lemma {:induction false} LooseHost(raw: string)
    requires raw == "1.2.3.4a"
    ensures !StrictHost(ReadHost(raw)) && !BrowsersAgree(raw)
  {
    var a: string, b: string, c: string, d: string :| a == "1" && b == "2" && c == "3" && d == "4a";
    LooseJoin(raw, a, b, c, d);
    LooseDigits(a, b, c, d);
    LooseShape(raw, a, b, c, d);
    NormalLoose(raw);
    AgreeOnlyIfStrict(raw);
  }

  lemma {:induction false} LooseShape(raw: string, a: string, b: string, c: string, d: string)
    requires raw == a + "." + (b + "." + (c + "." + d)) && OctetInt(a) && OctetInt(b) && OctetInt(c) && OctetInt(d) && !AllDigits(d)
    requires '.' !in a && '.' !in b && '.' !in c && '.' !in d
    ensures IpToNum(raw).Some? && !DottedDigits(raw)
  {
    JoinFour(a, b, c, d);
    LooseParts(raw, a, b, c, d);
  }
}
