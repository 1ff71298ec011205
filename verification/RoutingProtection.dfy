/** Routing protection: one protected snapshot per account, and the policy computed
    from that memory and the live state. */
module RoutingProtection {
  import opened Text
  import opened Subnets
  import opened DnsNames
  import opened Policies
  import PacScript

  // ---------- what is remembered and what is observed ----------

  /** An account: `JSON.stringify([controlURL, nodeID])`, which is injective. */
  datatype Scope = Scope(controlURL: string, nodeID: string)

  datatype Snapshot = Snapshot(
    scope: Scope,
    selectedExit: Option<string>,
    magicSuffix: string,
    subnets: seq<string>,
    shortNames: seq<string>,
    dnsRoutes: seq<string>,
    domainSplit: DomainSplit)

  datatype Backend = NoState | NeedsLogin | Stopped | Starting | Running | OtherBackend
  datatype Prefs = Prefs(controlURL: string, exitNodeID: string)
  datatype ExitNode = ExitNode(id: string, online: bool)
  datatype Peer = Peer(dnsName: string, isSubnetRouter: bool, subnets: seq<string>)
  datatype SelfNode = SelfNode(id: string, dnsName: string)

  /** The parts of the extension's state that routing reads. */
  datatype Live = Live(
    hostConnected: bool, initialized: bool, proxyPort: Option<nat>, proxyEnabled: bool, backend: Backend,
    selfNode: Option<SelfNode>, peers: seq<Peer>, exitNode: Option<ExitNode>, magicSuffix: string,
    dnsRoutes: Option<seq<string>>, splitDNS: seq<string>, prefs: Option<Prefs>, pendingExit: string, domainSplit: DomainSplit)

  /** A status from the helper, with the domain split of the state it arrives in. */
  datatype Status = Status(
    backend: Backend, selfNode: Option<SelfNode>, prefs: Option<Prefs>, exitNode: Option<ExitNode>,
    magicSuffix: string, peers: Option<seq<Peer>>, peersTruncated: bool,
    dnsRoutes: Option<seq<string>>, splitDNS: seq<string>, domainSplit: DomainSplit)

  datatype State = State(
    active: Option<Snapshot>,
    profiles: seq<Snapshot>,
    ready: bool,
    uncertain: bool,
    released: bool,
    transitioning: bool,
    transitionScope: Option<Scope>,
    pendingExit: Option<string>,
    pendingDisconnect: bool,
    pendingLogin: bool,
    saved: Option<Saved>)

  /** The value `save` writes. */
  datatype Saved = Saved(
    active: Option<Snapshot>, profiles: seq<Snapshot>, released: bool, transitioning: bool,
    transitionScope: Option<Scope>, pendingExit: Option<string>, pendingDisconnect: bool, pendingLogin: bool)

  const CREATED := State(None, [], false, false, false, false, None, None, false, false, None)

  function ScopeOf(selfNode: Option<SelfNode>, prefs: Option<Prefs>): Option<Scope> {
    if selfNode.Some? && selfNode.value.id != "" && prefs.Some?
    then Some(Scope(prefs.value.controlURL, selfNode.value.id)) else None
  }

  /** JavaScript's `a || b` on identifiers. */
  function Or(a: Option<string>, b: Option<string>): Option<string> {
    if a.Some? && a.value != "" then a else if b.Some? && b.value != "" then b else None
  }

  predicate Truthy(a: Option<string>) { a.Some? && a.value != "" }

  predicate ShouldProxy(live: Live) { live.proxyEnabled && live.proxyPort.Some? && live.backend == Running }

  // ---------- lists ----------

  /** `[...new Set(s)]`. */
  function Dedupe(s: seq<string>): seq<string> {
    if s == [] then []
    else
      var front := Dedupe(s[..|s| - 1]);
      if s[|s| - 1] in front then front else front + [s[|s| - 1]]
  }

  lemma {:induction false} DedupeKeeps(s: seq<string>)
    ensures NoDuplicates(Dedupe(s)) && forall x :: x in Dedupe(s) <==> x in s
  {
    if s != [] {
      DedupeKeeps(s[..|s| - 1]);
      assert s == s[..|s| - 1] + [s[|s| - 1]];
    }
  }

  lemma {:induction false} DedupeFixed(s: seq<string>)
    requires NoDuplicates(s)
    ensures Dedupe(s) == s
  {
    if s != [] {
      DedupeFixed(s[..|s| - 1]);
      assert s[|s| - 1] !in s[..|s| - 1];
    }
  }

  function SubnetsOf(peers: seq<Peer>): seq<string> {
    if peers == [] then []
    else (if peers[0].isSubnetRouter then peers[0].subnets else []) + SubnetsOf(peers[1..])
  }

  function NamesOf(peers: seq<Peer>, selfNode: Option<SelfNode>): seq<string> {
    if peers == [] then (if selfNode.Some? then [selfNode.value.dnsName] else [])
    else [peers[0].dnsName] + NamesOf(peers[1..], selfNode)
  }

  function Find(profiles: seq<Snapshot>, scope: Scope): (r: Option<Snapshot>)
    ensures r.Some? ==> r.value.scope == scope && r.value in profiles
  {
    if profiles == [] then None
    else if profiles[0].scope == scope then Some(profiles[0])
    else Find(profiles[1..], scope)
  }

  /** `Map.set`: an existing account keeps its place. */
  function Put(profiles: seq<Snapshot>, s: Snapshot): seq<Snapshot> {
    if profiles == [] then [s]
    else if profiles[0].scope == s.scope then [s] + profiles[1..]
    else [profiles[0]] + Put(profiles[1..], s)
  }

  lemma {:induction false} PutFinds(profiles: seq<Snapshot>, s: Snapshot, x: Scope)
    ensures Find(Put(profiles, s), x) == if x == s.scope then Some(s) else Find(profiles, x)
  {
    if profiles != [] {
      if profiles[0].scope == s.scope {
        assert ([s] + profiles[1..])[1..] == profiles[1..];
      } else {
        PutFinds(profiles[1..], s, x);
        assert ([profiles[0]] + Put(profiles[1..], s))[1..] == Put(profiles[1..], s);
      }
    }
  }

  lemma {:induction false} PutMembers(profiles: seq<Snapshot>, s: Snapshot)
    ensures forall p | p in Put(profiles, s) :: p == s || p in profiles
  {
    if profiles != [] && profiles[0].scope != s.scope {
      PutMembers(profiles[1..], s);
    }
  }

  // ---------- policies ----------

  const EMPTY_POLICY := Policy(false, Direct, None, None, "", [], [], [], DomainSplit(Bypass, []))
  const BLOCK_ALL := EMPTY_POLICY.(mode := Blocked, blockAll := true)

  /** `policyFromState` while nothing is remembered. */
  function PolicyFromState(live: Live): Policy {
    var prefsExit := if live.prefs.Some? then Some(live.prefs.value.exitNodeID) else None;
    var liveExit := if live.exitNode.Some? then Some(live.exitNode.value.id) else None;
    var selected := Or(Some(live.pendingExit), Or(prefsExit, liveExit));
    var mode := if !ShouldProxy(live) then Direct
                else if selected.Some? && !(live.exitNode.Some? && live.exitNode.value.online && live.exitNode.value.id == selected.value)
                then Blocked else Active;
    Policy(false, mode, live.proxyPort, selected, SanitizeSuffix(live.magicSuffix),
           PacScript.Supported(SubnetsOf(live.peers)),
           CollectShortNames(live.magicSuffix, NamesOf(live.peers, live.selfNode)),
           SanitizeRoutes(if live.dnsRoutes.Some? then live.dnsRoutes.value else SanitizeSplitDomains(live.splitDNS)),
           Normalize(live.domainSplit))
  }

  function PolicyOf(s: Snapshot, live: Live): Policy {
    var exit := s.selectedExit;
    var up := && ShouldProxy(live) && ScopeOf(live.selfNode, live.prefs) == Some(s.scope)
              && (!Truthy(exit) || (live.exitNode.Some? && Some(live.exitNode.value.id) == exit && live.exitNode.value.online));
    Policy(false, if up then Active else Blocked, if up then live.proxyPort else None, exit, s.magicSuffix,
           s.subnets, s.shortNames, s.dnsRoutes, Normalize(live.domainSplit))
  }

  // ---------- the steps ----------

  function Last32(profiles: seq<Snapshot>): seq<Snapshot> {
    if |profiles| > 32 then profiles[|profiles| - 32..] else profiles
  }

  function WithActive(s: State): seq<Snapshot> {
    if s.active.Some? then Put(s.profiles, s.active.value) else s.profiles
  }

  function SavedOf(s: State): Saved {
    Saved(s.active, Last32(s.profiles), s.released, s.transitioning, s.transitionScope, s.pendingExit,
          s.pendingDisconnect, s.pendingLogin)
  }

  function Save(s: State): State {
    var t := s.(profiles := WithActive(s));
    t.(saved := Some(SavedOf(t)))
  }

  function SelectExit(s: State, id: string): State {
    Save(s.(pendingExit := Some(id), released := false,
            active := if id != "" && s.active.Some? then Some(s.active.value.(selectedExit := Some(id))) else s.active))
  }

  function Reconnected(s: State): State {
    if s.pendingLogin then s else s.(released := false)
  }

  function ReleaseRouting(s: State, login: bool): State {
    Save(s.(transitioning := false, transitionScope := None, uncertain := false, pendingExit := None,
            pendingDisconnect := false, pendingLogin := login, released := true))
  }

  /** The live state is that of a new profile without an account. */
  predicate EmptyProfile(live: Live) {
    live.backend == NeedsLogin && (live.selfNode.None? || live.selfNode.value.id == "") && live.hostConnected && live.initialized
  }

  /** The account a switch leaves. */
  function SourceScope(s: State, source: Option<Scope>, empty: bool): Option<Scope> {
    if source.Some? then source
    else if empty then None
    else if s.active.Some? then Some(s.active.value.scope) else None
  }

  function SwitchProfile(s: State, source: Option<Scope>, empty: bool): State {
    Save(s.(released := false, pendingLogin := false, pendingExit := None, pendingDisconnect := false,
            transitioning := true, transitionScope := SourceScope(s, source, empty)))
  }

  // ---------- statuses ----------

  /** What `confirmStatus` reads from a status. */
  datatype Update = Update(
    backend: Backend, scope: Option<Scope>, exit: Option<string>, suffix: string, subnets: seq<string>,
    names: seq<string>, complete: bool, routes: Option<seq<string>>, split: DomainSplit)

  function Digest(st: Status): Update {
    var peers := if st.peers.Some? then st.peers.value else [];
    Update(
      st.backend,
      ScopeOf(st.selfNode, st.prefs),
      Or(if st.prefs.Some? then Some(st.prefs.value.exitNodeID) else None,
         if st.exitNode.Some? then Some(st.exitNode.value.id) else None),
      SanitizeSuffix(st.magicSuffix),
      PacScript.Supported(SubnetsOf(peers)),
      CollectShortNames(st.magicSuffix, NamesOf(peers, st.selfNode)),
      st.peers.Some? && !st.peersTruncated && SanitizeName(st.magicSuffix).Some?,
      if st.dnsRoutes.Some? then Some(SanitizeRoutes(st.dnsRoutes.value))
      else if st.splitDNS != [] then Some(SanitizeRoutes(st.splitDNS))
      else None,
      Normalize(st.domainSplit))
  }

  /** A login ends with the first complete status of a running account. */
  function SettleLogin(s: State, u: Update): State {
    if s.pendingLogin && u.backend == Running && u.scope.Some? then s.(pendingLogin := false, released := false) else s
  }

  /** A switch ends with a status that names another account than its source. */
  function SettleSwitch(s: State, u: Update): State {
    if u.scope.Some? && u.scope != s.transitionScope then s.(transitioning := false, transitionScope := None) else s
  }

  /** Pending requests belong to the remembered account. */
  function SettleRequests(s: State, u: Update): State {
    if u.scope.Some? && (s.active.None? || s.active.value.scope != u.scope.value)
    then s.(pendingExit := None, pendingDisconnect := false) else s
  }

  /** The first part of `confirmStatus`: pending work that the status settles. */
  function Settle(s: State, u: Update): State {
    SettleRequests(SettleSwitch(SettleLogin(s, u), u), u)
  }

  predicate ConfirmsDisconnect(s: State, u: Update) {
    Settle(s, u).pendingDisconnect && (u.backend == Stopped || u.backend == NeedsLogin)
  }

  function Prior(s: State, scope: Scope): Option<Snapshot> {
    if s.active.Some? && s.active.value.scope == scope then s.active else Find(s.profiles, scope)
  }

  function Selected(pending: Option<string>, confirmed: Option<string>, prior: Option<Snapshot>): Option<string> {
    if pending == Some("") && confirmed.None? then None
    else Or(pending, Or(confirmed, if prior.Some? then prior.value.selectedExit else None))
  }

  /** The snapshot a status gives its account. */
  function Learn(scope: Scope, selected: Option<string>, prior: Option<Snapshot>, u: Update): Snapshot {
    Snapshot(scope, selected,
             if u.suffix != "" then u.suffix else if prior.Some? then prior.value.magicSuffix else "",
             Dedupe((if prior.Some? then prior.value.subnets else []) + u.subnets),
             if u.complete then u.names else Dedupe((if prior.Some? then prior.value.shortNames else []) + u.names),
             if u.routes.Some? then u.routes.value else if prior.Some? then prior.value.dnsRoutes else [],
             u.split)
  }

  /** A requested exit node that the status confirms is no longer pending. */
  function Answered(s: State, confirmed: Option<string>): State {
    if s.pendingExit.Some? && Or(s.pendingExit, None) == confirmed then s.(pendingExit := None) else s
  }

  /** The second part of `confirmStatus`: recording the account the status names. */
  function Record(s: State, u: Update, scope: Scope): State {
    var prior := Prior(s, scope);
    var selected := Selected(s.pendingExit, u.exit, prior);
    var t := Answered(s, u.exit);
    if prior.None? && selected.None? && u.backend != Running then t
    else Save(t.(active := Some(Learn(scope, selected, prior, u))))
  }

  function ConfirmStatus(s: State, u: Update): State {
    var t := Settle(s, u);
    if ConfirmsDisconnect(s, u) then ReleaseRouting(t, false)
    else if t.released || u.scope.None? then t
    else Record(t, u, u.scope.value)
  }

  /** `decorate` may first update the remembered domain split. */
  function Refresh(s: State, split: DomainSplit): State {
    if s.ready && !s.uncertain && !s.transitioning && !s.released && s.active.Some? && s.active.value.domainSplit != split
    then Save(s.(active := Some(s.active.value.(domainSplit := split)))) else s
  }

  function Decorate(s: State, live: Live): Policy {
    if !s.ready || s.uncertain || s.transitioning then BLOCK_ALL
    else if s.released then EMPTY_POLICY
    else if s.active.Some? then PolicyOf(s.active.value, live)
    else if live.backend == Running && ScopeOf(live.selfNode, live.prefs).None? then BLOCK_ALL
    else if !ShouldProxy(live) then EMPTY_POLICY
    else PolicyFromState(live)
  }

  datatype Event =
    | SelectExitNode(id: string)
    | RequestDisconnect
    | Reconnect
    | StartLogin
    | Release
    | Switch(source: Option<Scope>, empty: bool)
    | Confirm(update: Update)
    | Show(split: DomainSplit)

  function Step(s: State, e: Event): State {
    match e
    case SelectExitNode(id) => SelectExit(s, id)
    case RequestDisconnect => Save(s.(pendingDisconnect := true))
    case Reconnect => Reconnected(s)
    case StartLogin => ReleaseRouting(s, true)
    case Release => ReleaseRouting(s, false)
    case Switch(source, empty) => SwitchProfile(s, source, empty)
    case Confirm(u) => ConfirmStatus(s, u)
    case Show(split) => Refresh(s, split)
  }

  function Run(s: State, events: seq<Event>): State {
    if events == [] then s else Step(Run(s, events[..|events| - 1]), events[|events| - 1])
  }

  /** The state before event `i` of a run. */
  function At(s: State, events: seq<Event>, i: nat): State
    requires i <= |events|
  {
    Run(s, events[..i])
  }

  // ---------- restoring ----------

  function EscapedLength(c: char): nat {
    if c == '"' || c == '\\' || c == '\n' || c == '\r' || c == '\t' || c as int == 8 || c as int == 12 then 2
    else if c as int < 0x20 then 6
    else 1
  }

  function JsonLength(s: string): nat {
    if s == "" then 2 else EscapedLength(s[0]) + JsonLength(s[1..])
  }

  /** The length of the scope's JSON text. */
  function ScopeLength(scope: Scope): nat {
    JsonLength(scope.controlURL) + JsonLength(scope.nodeID) + 3
  }

  /** `/\/\d{1,2}$/`. */
  predicate ShortPrefix(s: string) {
    var n := |s|;
    || (n >= 2 && s[n - 2] == '/' && IsDigit(s[n - 1]))
    || (n >= 3 && s[n - 3] == '/' && IsDigit(s[n - 2]) && IsDigit(s[n - 1]))
  }

  predicate SubnetOk(s: string) {
    if ':' in s then IsSupportedSubnet(s) else ShortPrefix(s) && ParseCidr(s).Some?
  }

  predicate NameOk(s: string) { SanitizeName(s) == Some(s) }

  predicate ShortOk(s: string) { '.' !in s && NameOk(s) }

  predicate Limits(s: Snapshot) {
    && ScopeLength(s.scope) <= 4096
    && (s.selectedExit.Some? ==> |s.selectedExit.value| <= 256)
    && |s.subnets| <= 8192 && |s.shortNames| <= 8192 && |s.dnsRoutes| <= 8192
  }

  predicate Constraints(s: Snapshot) {
    && (forall x | x in s.subnets :: SubnetOk(x))
    && (forall x | x in s.shortNames :: ShortOk(x))
    && (forall x | x in s.dnsRoutes :: NameOk(x))
    && SanitizeSuffix(s.magicSuffix) == s.magicSuffix
    && Normalize(s.domainSplit) == s.domainSplit
  }

  /** `snapshot(value)`: validated, with duplicates removed. */
  function Validated(s: Snapshot): Option<Snapshot> {
    if !Limits(s) || !Constraints(s) then None
    else Some(s.(subnets := Dedupe(s.subnets), shortNames := Dedupe(s.shortNames), dnsRoutes := Dedupe(s.dnsRoutes)))
  }

  function ValidatedAll(raw: seq<Snapshot>): (r: seq<Option<Snapshot>>)
    ensures |r| == |raw| && forall i | 0 <= i < |r| :: r[i] == Validated(raw[i])
  {
    seq(|raw|, i requires 0 <= i < |raw| => Validated(raw[i]))
  }

  function PutAll(into: seq<Snapshot>, values: seq<Option<Snapshot>>): seq<Snapshot> {
    if values == [] then into
    else
      var front, last := PutAll(into, values[..|values| - 1]), values[|values| - 1];
      if last.Some? then Put(front, last.value) else front
  }

  /** Every stored account that passes the validator, set in order. */
  function RestoreProfiles(into: seq<Snapshot>, raw: seq<Snapshot>): seq<Snapshot> { PutAll(into, ValidatedAll(raw)) }

  function RestoredScope(scope: Option<Scope>, active: Option<Snapshot>): Option<Scope> {
    if scope.None? || ScopeLength(scope.value) <= 4096 then scope
    else if active.Some? then Some(active.value.scope) else None
  }

  function RestoredExit(pending: Option<string>, v: Saved, active: Option<Snapshot>): Option<string> {
    if active.None? then pending
    else if v.pendingExit.Some? && |v.pendingExit.value| <= 256 then v.pendingExit else None
  }

  /** The flags `restore` reads over a state, given the validated remembered
      account and the account a switch left. */
  function RestoreFlags(s: State, v: Saved, active: Option<Snapshot>, scope: Option<Scope>): State {
    s.(released := v.released,
       pendingLogin := v.released && v.pendingLogin,
       transitioning := v.transitioning,
       active := active,
       transitionScope := scope,
       pendingExit := RestoredExit(s.pendingExit, v, active),
       pendingDisconnect := if active.None? then s.pendingDisconnect else v.pendingDisconnect,
       uncertain := v.active.Some? && active.None?)
  }

  /** What reading the stored value gives. */
  datatype Reading = ReadFailed | Read(saved: Option<Saved>)

  /** `restore`, when the read returns to state `s`. `changed`: a choice of exit node or
      a release came while it was pending, and is newer than what was stored. */
  function RestoreInto(s: State, changed: bool, reading: Reading): State {
    if changed || reading == Read(None) then s.(ready := true)
    else if reading.ReadFailed? then s.(ready := true, uncertain := true)
    else
      var v := reading.saved.value;
      var active := if v.active.Some? then Validated(v.active.value) else None;
      RestoreFlags(s, v, active, RestoredScope(v.transitionScope, active)).(
        ready := true, profiles := RestoreProfiles(s.profiles, Last32(v.profiles)))
  }

  /** `restore` on a new object. */
  function Restore(saved: Option<Saved>): State { RestoreInto(CREATED, false, Read(saved)) }
}
