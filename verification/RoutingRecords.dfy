/** What a status teaches, what the policy carries of it, and where it makes the browser
    send a host. */
module RoutingRecords {
  import opened Text
  import opened Subnets
  import opened DnsNames
  import opened Policies
  import opened RoutingProtection
  import opened RoutingGuarantees
  import opened Destinations
  import PacScript
  import FirefoxProxy

  // ---------- reading a status ----------

  /** A route offered by a subnet router among the peers. */
  ghost predicate Offered(peers: seq<Peer>, cidr: string) {
    exists p :: p in peers && p.isSubnetRouter && cidr in p.subnets
  }

  /** The full name of a peer or of this node. */
  ghost predicate NodeName(peers: seq<Peer>, selfNode: Option<SelfNode>, name: string) {
    (exists p :: p in peers && p.dnsName == name) || (selfNode.Some? && selfNode.value.dnsName == name)
  }

  lemma {:induction false} OfferedIff(peers: seq<Peer>, cidr: string)
    ensures cidr in SubnetsOf(peers) <==> Offered(peers, cidr)
  {
    if peers != [] {
      OfferedIff(peers[1..], cidr);
      assert peers == [peers[0]] + peers[1..];
    }
  }

  lemma {:induction false} NodeNameIff(peers: seq<Peer>, selfNode: Option<SelfNode>, name: string)
    ensures name in NamesOf(peers, selfNode) <==> NodeName(peers, selfNode, name)
  {
    if peers != [] {
      NodeNameIff(peers[1..], selfNode, name);
      assert peers == [peers[0]] + peers[1..];
    }
  }

  /** The routes that peers offer and the helper accepts. */
  ghost predicate UsableRoute(peers: seq<Peer>, cidr: string) {
    Offered(peers, cidr) && StrictPrefix(cidr).Some? && SafeProxyRoute(StrictPrefix(cidr).value)
  }

  lemma {:induction false} UsableIff(peers: seq<Peer>, cidr: string)
    ensures cidr in PacScript.Supported(SubnetsOf(peers)) <==> UsableRoute(peers, cidr)
  {
    SupportedIn(SubnetsOf(peers), cidr);
    OfferedIff(peers, cidr);
    BrowserAgreesWithHelper(cidr);
  }

  /** The short name of some node under the tailnet's suffix. */
  ghost predicate NodeShortName(magicSuffix: string, peers: seq<Peer>, selfNode: Option<SelfNode>, short: string) {
    && SanitizeName(magicSuffix).Some?
    && exists name :: NodeName(peers, selfNode, name) && ShortUnder(SanitizeName(magicSuffix).value, name, short)
  }

  lemma {:induction false} NodeShortIff(magicSuffix: string, peers: seq<Peer>, selfNode: Option<SelfNode>, short: string)
    ensures short in CollectShortNames(magicSuffix, NamesOf(peers, selfNode)) <==> NodeShortName(magicSuffix, peers, selfNode, short)
  {
    CollectIff(magicSuffix, NamesOf(peers, selfNode), short);
    if SanitizeName(magicSuffix).Some? {
      forall name | ShortUnder(SanitizeName(magicSuffix).value, name, short)
        ensures name in NamesOf(peers, selfNode) <==> NodeName(peers, selfNode, name)
      {
        NodeNameIff(peers, selfNode, name);
      }
    }
  }

  function PeersOf(st: Status): seq<Peer> { if st.peers.Some? then st.peers.value else [] }

  /** The routes of a status in their order of trust: the authoritative list, and without it
      a legacy list that is not empty. */
  function RouteSource(st: Status): Option<seq<string>> {
    if st.dnsRoutes.Some? then st.dnsRoutes else if st.splitDNS != [] then Some(st.splitDNS) else None
  }

  /** What `confirmStatus` reads from a status: every usable route of a subnet router, every
      short name of a node, and nothing else. */
  lemma {:induction false} DigestReads(st: Status, cidr: string, short: string, route: string)
    ensures var u := Digest(st);
            && (cidr in u.subnets <==> UsableRoute(PeersOf(st), cidr))
            && (short in u.names <==> NodeShortName(st.magicSuffix, PeersOf(st), st.selfNode, short))
            && (u.routes.Some? <==> RouteSource(st).Some?)
            && (u.routes.Some? ==> (route in u.routes.value <==> exists x :: x in RouteSource(st).value && SanitizeName(x) == Some(route)))
            && (u.complete <==> st.peers.Some? && !st.peersTruncated && SanitizeName(st.magicSuffix).Some?)
  {
    UsableIff(PeersOf(st), cidr);
    NodeShortIff(st.magicSuffix, PeersOf(st), st.selfNode, short);
    if RouteSource(st).Some? {
      RoutesIff(RouteSource(st).value, route);
    }
  }

  /** The account, the exit node and the rest of a status. */
  lemma {:induction false} DigestNames(st: Status, scope: Scope, exit: string)
    ensures var u := Digest(st);
            && u.backend == st.backend && u.suffix == SanitizeSuffix(st.magicSuffix) && u.split == Normalize(st.domainSplit)
            && (u.scope == Some(scope) <==>
                && scope.nodeID != "" && st.selfNode.Some? && st.selfNode.value.id == scope.nodeID
                && st.prefs.Some? && st.prefs.value.controlURL == scope.controlURL)
            && (u.exit == Some(exit) <==>
                exit != "" && if st.prefs.Some? && st.prefs.value.exitNodeID != "" then exit == st.prefs.value.exitNodeID
                              else st.exitNode.Some? && exit == st.exitNode.value.id)
  {
  }

  // ---------- what a status records ----------

  /** An exit choice that is still pending when a status of this account arrives. */
  function PendingChoice(s: State, u: Update): Option<string> { if NamesOther(s, u) then None else s.pendingExit }

  /** A status that releases instead, because it answers a requested disconnect. */
  predicate AnswersRequest(s: State, u: Update) { Answers(u) && !NamesOther(s, u) && s.pendingDisconnect }

  /** A status records its account unless it answers a disconnect, names none, or finds
      routing released; a new account is recorded only if it runs or has an exit node. */
  predicate Records(s: State, u: Update) {
    && u.scope.Some? && !AnswersRequest(s, u) && (s.released ==> s.pendingLogin && CompleteRunning(u))
    && (Prior(s, u.scope.value).Some? || u.backend == Running || Truthy(PendingChoice(s, u)) || Truthy(u.exit))
  }

  /** The record of an account after a status, from what was recorded before. */
  ghost predicate LearnedFrom(r: Snapshot, prior: Option<Snapshot>, pending: Option<string>, u: Update) {
    && Some(r.scope) == u.scope && r.domainSplit == u.split
    && (forall x :: x in r.subnets <==> x in u.subnets || (prior.Some? && x in prior.value.subnets))
    && (u.complete ==> r.shortNames == u.names)
    && (!u.complete ==> forall x :: x in r.shortNames <==> x in u.names || (prior.Some? && x in prior.value.shortNames))
    && r.magicSuffix == (if u.suffix != "" || prior.None? then u.suffix else prior.value.magicSuffix)
    && (if u.routes.Some? then r.dnsRoutes == u.routes.value else r.dnsRoutes == if prior.Some? then prior.value.dnsRoutes else [])
    && ExitFrom(r.selectedExit, prior, pending, u.exit)
  }

  /** A pending choice comes first, then what the status reports, then what was recorded,
      unless no exit node was chosen and none is reported. */
  predicate ExitFrom(exit: Option<string>, prior: Option<Snapshot>, pending: Option<string>, reported: Option<string>) {
    if Truthy(pending) then exit == pending
    else if Truthy(reported) then exit == reported
    else if (pending == Some("") && reported.None?) || prior.None? || !Truthy(prior.value.selectedExit) then exit.None?
    else exit == prior.value.selectedExit
  }

  lemma {:induction false} LearnLearns(scope: Scope, pending: Option<string>, prior: Option<Snapshot>, u: Update)
    requires u.scope == Some(scope)
    ensures LearnedFrom(Learn(scope, Selected(pending, u.exit, prior), prior, u), prior, pending, u)
  {
    DedupeKeeps((if prior.Some? then prior.value.subnets else []) + u.subnets);
    DedupeKeeps((if prior.Some? then prior.value.shortNames else []) + u.names);
  }

  lemma {:induction false} RecordLearns(s: State, u: Update)
    requires u.scope.Some?
    ensures var prior, t := Prior(s, u.scope.value), Record(s, u, u.scope.value);
            if prior.Some? || u.backend == Running || Truthy(s.pendingExit) || Truthy(u.exit)
            then t.active.Some? && LearnedFrom(t.active.value, prior, s.pendingExit, u)
            else t.active == s.active
  {
    var prior := Prior(s, u.scope.value);
    LearnLearns(u.scope.value, s.pendingExit, prior, u);
    RememberChanges(s, Answered(s, u.exit), Learn(u.scope.value, Selected(s.pendingExit, u.exit, prior), prior, u));
  }

  /** Exactly what a status does to the remembered account: every route of the status and
      every one recorded before is recorded, the short names are those of a complete status
      and else the union, and suffix, DNS routes and exit node follow the status when it has
      them. */
  lemma {:induction false} ConfirmLearns(s: State, u: Update)
    ensures var t := ConfirmStatus(s, u);
            if Records(s, u) then t.active.Some? && LearnedFrom(t.active.value, Prior(s, u.scope.value), PendingChoice(s, u), u)
            else t.active == s.active
  {
    SettleFlags(s, u);
    SettledKeeps(s, u);
    if u.scope.Some? {
      assert Prior(Settle(s, u), u.scope.value) == Prior(s, u.scope.value);
      RecordLearns(Settle(s, u), u);
    }
  }

  // ---------- what the policy carries ----------

  /** The policy of a remembered account, list by list. */
  predicate Carries(p: Policy, r: Snapshot, live: Live) {
    && !p.blockAll && p.selectedExit == r.selectedExit && p.magicSuffix == r.magicSuffix
    && p.subnets == r.subnets && p.shortNames == r.shortNames && p.dnsRoutes == r.dnsRoutes
    && p.domainSplit == Normalize(live.domainSplit)
    && p.mode == (if IsLive(r, live) then Active else Blocked)
    && p.proxyPort == if IsLive(r, live) then live.proxyPort else None
  }

  lemma {:induction false} RecordCarried(r: Snapshot, live: Live)
    ensures Carries(PolicyOf(r, live), r, live)
  {
    LiveIsActive(r, live);
  }

  predicate NothingStands(s: State, events: seq<Event>) {
    !Standing(s, events, |events|, true) && !Standing(s, events, |events|, false)
  }

  /** Over every run with a remembered account, the policy carries exactly its record while
      nothing blocks and no release stands, and else blocks everything or nothing. */
  lemma {:induction false} PolicyCarriesRecord(s: State, events: seq<Event>, live: Live)
    requires s.active.Some?
    ensures var t := Run(s, events);
            && t.active.Some?
            && (!Unblocked(t) ==> Decorate(t, live) == BLOCK_ALL)
            && (Unblocked(t) && !NothingStands(s, events) ==> Decorate(t, live) == EMPTY_POLICY)
            && (Unblocked(t) && NothingStands(s, events) ==> Carries(Decorate(t, live), t.active.value, live))
  {
    assert events[..|events|] == events;
    SnapshotKept(s, events);
    ReleasedStands(s, events, |events|, true);
    ReleasedStands(s, events, |events|, false);
    RecordCarried(Run(s, events).active.value, live);
  }

  /** Before any account is remembered, the policy is that of the live state. */
  lemma {:induction false} LivePolicyReads(live: Live, cidr: string, short: string, route: string)
    ensures var p := PolicyFromState(live);
            && !p.blockAll && p.magicSuffix == SanitizeSuffix(live.magicSuffix) && p.domainSplit == Normalize(live.domainSplit)
            && (cidr in p.subnets <==> UsableRoute(live.peers, cidr))
            && (short in p.shortNames <==> NodeShortName(live.magicSuffix, live.peers, live.selfNode, short))
            && (live.dnsRoutes.Some? ==>
                (route in p.dnsRoutes <==> exists x :: x in live.dnsRoutes.value && SanitizeName(x) == Some(route)))
            && (live.dnsRoutes.None? ==>
                (route in p.dnsRoutes <==> exists x :: x in live.splitDNS && SanitizeName(x) == Some(route)))
  {
    UsableIff(live.peers, cidr);
    NodeShortIff(live.magicSuffix, live.peers, live.selfNode, short);
    if live.dnsRoutes.Some? {
      RoutesIff(live.dnsRoutes.value, route);
    } else {
      RoutesIff(SanitizeSplitDomains(live.splitDNS), route);
      LegacyIff(live.splitDNS, route);
    }
  }

  /** The exit node of that policy, and when it is active, blocked or direct. */
  lemma {:induction false} LivePolicyMode(live: Live)
    ensures var p := PolicyFromState(live);
            && p.proxyPort == live.proxyPort
            && p.selectedExit == (if live.pendingExit != "" then Some(live.pendingExit)
                                  else if live.prefs.Some? && live.prefs.value.exitNodeID != "" then Some(live.prefs.value.exitNodeID)
                                  else if live.exitNode.Some? && live.exitNode.value.id != "" then Some(live.exitNode.value.id)
                                  else None)
            && (p.mode == Direct <==> !(live.proxyEnabled && live.proxyPort.Some? && live.backend == Running))
            && (p.mode == Active <==>
                && live.proxyEnabled && live.proxyPort.Some? && live.backend == Running
                && (p.selectedExit.Some? ==> live.exitNode == Some(ExitNode(p.selectedExit.value, true))))
  {
    if live.exitNode.Some? {
      assert live.exitNode.value == ExitNode(live.exitNode.value.id, live.exitNode.value.online);
    }
  }

  /** A legacy domain that is kept; unlike a DNS name it may be numeric. */
  predicate LegacyKept(x: string) {
    var name := StripDot(Lower(x));
    name != "" && |name| <= 253 && Labels(Split(name, '.'))
  }

  lemma {:induction false} LegacyIn(inputs: seq<string>, y: string)
    ensures y in SplitDomains(inputs) <==> exists x :: x in inputs && LegacyKept(x) && y == StripDot(Lower(x))
  {
    if inputs != [] {
      LegacyIn(inputs[1..], y);
      assert inputs == [inputs[0]] + inputs[1..];
    }
  }

  lemma {:induction false} LegacyName(x: string)
    ensures if LegacyKept(x) then SanitizeName(StripDot(Lower(x))) == SanitizeName(x) else SanitizeName(x).None?
  {
    var name := StripDot(Lower(x));
    if LegacyKept(x) {
      JoinedLabels(Split(name, '.'));
      assert Lower(name) == name;
    }
  }

  lemma {:induction false} LegacyIff(inputs: seq<string>, route: string)
    ensures (exists y :: y in SanitizeSplitDomains(inputs) && SanitizeName(y) == Some(route))
            <==> exists x :: x in inputs && SanitizeName(x) == Some(route)
  {
    if y :| y in SanitizeSplitDomains(inputs) && SanitizeName(y) == Some(route) {
      LegacyIn(inputs, y);
      var x :| x in inputs && LegacyKept(x) && y == StripDot(Lower(x));
      LegacyName(x);
    }
    if x :| x in inputs && SanitizeName(x) == Some(route) {
      LegacyName(x);
      LegacyIn(inputs, StripDot(Lower(x)));
    }
  }

  // ---------- from a status to the browser ----------

  /** While everything is blocked, every host goes to the closed port in both browsers. */
  lemma {:induction false} BlockAllBlocks(session: PacScript.Session, later: PacScript.Session, raw: string)
    ensures PacScript.ChromeDecision(BLOCK_ALL, session, raw) == Via(1)
    ensures FirefoxProxy.FirefoxDecision(FirefoxProxy.Applied(BLOCK_ALL, session), later, raw) == Via(1)
  {
    ChromeDecides(BLOCK_ALL, session, raw);
    FirefoxDecides(BLOCK_ALL, session, later, raw);
    assert !Listed(BLOCK_ALL, PacScript.ReadHost(raw).text);
  }

  lemma {:induction false} RunSplits(s: State, events: seq<Event>, n: nat)
    requires n <= |events|
    ensures Run(s, events) == Run(At(s, events, n), events[n..])
  {
    if n == |events| {
      assert events[..n] == events;
    } else {
      var front := events[..|events| - 1];
      RunSplits(s, front, n);
      assert front[..n] == events[..n] && events[n..][..|events| - n - 1] == front[n..];
    }
  }

  predicate HasRoute(r: Option<Snapshot>, cidr: string) { r.Some? && cidr in r.value.subnets }

  lemma {:induction false} FiledRoute(s: State, e: Event, t: State, scope: Scope, cidr: string)
    requires Filed(s) && Changes(s, e, t) && HasRoute(t.active, cidr) && t.active.value.scope == scope
    ensures Filed(t) && HasRoute(Find(t.profiles, scope), cidr)
  {
    ChangeGrows(s, e, t, scope);
  }

  lemma {:induction false} RouteLearned(r: Option<Snapshot>, prior: Option<Snapshot>, pending: Option<string>, u: Update, cidr: string)
    requires r.Some? && LearnedFrom(r.value, prior, pending, u) && cidr in u.subnets
    ensures HasRoute(r, cidr) && Some(r.value.scope) == u.scope
  {
  }

  lemma {:induction false} ConfirmFiles(s: State, u: Update, t: State, cidr: string)
    requires t == Step(s, Confirm(u)) && Filed(s) && Records(s, u) && cidr in u.subnets
    ensures Filed(t) && HasRoute(Find(t.profiles, u.scope.value), cidr)
  {
    ConfirmLearns(s, u);
    RouteLearned(t.active, Prior(s, u.scope.value), PendingChoice(s, u), u, cidr);
    StepChanges(s, Confirm(u));
    FiledRoute(s, Confirm(u), t, u.scope.value, cidr);
  }

  lemma {:induction false} RouteStays(s: State, events: seq<Event>, scope: Scope, cidr: string)
    requires Filed(s) && HasRoute(Find(s.profiles, scope), cidr)
    ensures var t := Run(s, events); t.active.Some? && t.active.value.scope == scope ==> HasRoute(t.active, cidr)
  {
    SubnetsNeverShrink(s, events, scope);
  }

  /** Over every run: a route that a status taught stays in its account's record. */
  lemma {:induction false} LearnedStays(s: State, events: seq<Event>, i: nat, cidr: string)
    requires Filed(s) && i < |events| && events[i].Confirm? && Records(At(s, events, i), events[i].update)
    requires cidr in events[i].update.subnets
    ensures var t := Run(s, events);
            t.active.Some? && Some(t.active.value.scope) == events[i].update.scope ==> HasRoute(t.active, cidr)
  {
    var u, next, rest := events[i].update, At(s, events, i + 1), events[i + 1..];
    RunLast(s, events, i);
    SubnetsNeverShrink(s, events[..i], u.scope.value);
    ConfirmFiles(At(s, events, i), u, next, cidr);
    RunSplits(s, events, i + 1);
    RouteStays(next, rest, u.scope.value, cidr);
  }

  /** Over every run, until a release, a login or a confirmed disconnect stands: an address
      in a route that a status taught is never sent direct while its account is the
      remembered one. It goes to the helper's port with credentials while the account is
      live, and else to the closed port; in either browser. */
  lemma {:induction false} LearnedRouteIsProtected(
      s: State, events: seq<Event>, i: nat, cidr: string, a: Address, raw: string, live: Live, session: PacScript.Session)
    requires Filed(s) && s.active.Some? && i < |events| && events[i].Confirm? && Records(At(s, events, i), events[i].update)
    requires cidr in events[i].update.subnets && a.Valid() && RouteHas(cidr, a) && IsLiteral(raw, a)
    requires var t := Run(s, events); t.active.Some? && Some(t.active.value.scope) == events[i].update.scope
    requires NothingStands(s, events)
    ensures var t := Run(s, events); var policy := Decorate(t, live);
            var port := Via(if Unblocked(t) && IsLive(t.active.value, live) && session.Some? && live.proxyPort == session
                            then session.value else 1);
            && PacScript.ChromeDecision(policy, session, raw) == port
            && FirefoxProxy.FirefoxDecision(FirefoxProxy.Applied(policy, session), session, raw) == port
  {
    PolicyCarriesRecord(s, events, live);
    if Unblocked(Run(s, events)) {
      LearnedStays(s, events, i, cidr);
      RouteIsProtected(Decorate(Run(s, events), live), session, cidr, a, raw);
    } else {
      BlockAllBlocks(session, session, raw);
    }
  }
}
