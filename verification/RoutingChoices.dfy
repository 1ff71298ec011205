/** What becomes of the user's choices: an exit node, an account switch, a domain split;
    and which saved snapshots are read back. */
module RoutingChoices {
  import opened Text
  import opened Subnets
  import opened DnsNames
  import opened Policies
  import opened RoutingProtection
  import opened RoutingGuarantees
  import opened RoutingRecords

  // ---------- choosing an exit node ----------

  /** A chosen exit node waits for a status to confirm it, and is recorded already. */
  predicate ChoiceWaits(s: State, scope: Scope, id: string) {
    && s.active.Some? && s.active.value.scope == scope
    && s.active.value.selectedExit == Some(id) && s.pendingExit == Some(id)
  }

  /** What leaves a waiting choice alone: a status that reports some other exit node or
      none, names no other account and answers no disconnect, and the events that are no
      choice. */
  predicate LeavesChoice(s: State, e: Event, id: string) {
    match e
    case Confirm(u) => !NamesOther(s, u) && !AnswersRequest(s, u) && u.exit != Some(id)
    case Show(_) => true
    case Reconnect => true
    case RequestDisconnect => true
    case _ => false
  }

  lemma {:induction false} RecordLeavesChoice(s: State, u: Update, scope: Scope, id: string)
    requires ChoiceWaits(s, scope, id) && id != "" && u.scope == Some(scope) && u.exit != Some(id)
    ensures ChoiceWaits(Record(s, u, scope), scope, id)
  {
    var prior := Prior(s, scope);
    assert Selected(s.pendingExit, u.exit, prior) == Some(id);
    assert Answered(s, u.exit) == s;
    LearnLearns(scope, s.pendingExit, prior, u);
  }

  lemma {:induction false} StepLeavesChoice(s: State, e: Event, scope: Scope, id: string)
    requires ChoiceWaits(s, scope, id) && id != "" && LeavesChoice(s, e, id)
    ensures ChoiceWaits(Step(s, e), scope, id)
  {
    if e.Confirm? {
      SettledKeeps(s, e.update);
      SettleFlags(s, e.update);
      assert ChoiceWaits(Settle(s, e.update), scope, id);
      if e.update.scope.Some? {
        RecordLeavesChoice(Settle(s, e.update), e.update, scope, id);
      }
    }
  }

  /** Over every run: an exit node chosen for the remembered account is its exit node from
      then on, whatever other exit node statuses still report, and until it is online
      nothing of the account's traffic is routed actively. */
  lemma {:induction false} ChoiceStands(s: State, events: seq<Event>, scope: Scope, id: string, live: Live)
    requires id != "" && s.active.Some? && s.active.value.scope == scope
    requires var t := Step(s, SelectExitNode(id)); forall i | 0 <= i < |events| :: LeavesChoice(At(t, events, i), events[i], id)
    ensures var t := Run(Step(s, SelectExitNode(id)), events);
            && ChoiceWaits(t, scope, id)
            && (Decorate(t, live).mode == Active ==>
                  Decorate(t, live).selectedExit == Some(id) && live.exitNode == Some(ExitNode(id, true)))
  {
    var t := Step(s, SelectExitNode(id));
    if events != [] {
      var n := |events| - 1;
      forall i | 0 <= i < n ensures LeavesChoice(At(t, events[..n], i), events[..n][i], id) {
        assert events[..n][..i] == events[..i];
      }
      ChoiceStands(s, events[..n], scope, id, live);
      assert events[..n] == events[..|events| - 1];
      StepLeavesChoice(Run(t, events[..n]), events[n], scope, id);
    }
    LiveIsActive(Run(t, events).active.value, live);
  }

  /** A status that records its account ends the wait exactly when it reports what was
      chosen; a cleared exit node is confirmed by a status that reports none. */
  lemma {:induction false} ChoiceAnswered(s: State, u: Update)
    requires Records(s, u)
    ensures var chosen, t := PendingChoice(s, u), ConfirmStatus(s, u);
            if chosen.Some? && (if chosen.value == "" then u.exit.None? else u.exit == chosen) then t.pendingExit.None?
            else t.pendingExit == chosen
  {
    SettleFlags(s, u);
    SettledKeeps(s, u);
    assert Prior(Settle(s, u), u.scope.value) == Prior(s, u.scope.value);
    RecordAnswers(Settle(s, u), u);
  }

  lemma {:induction false} RecordAnswers(s: State, u: Update)
    requires u.scope.Some?
    ensures Record(s, u, u.scope.value).pendingExit
            == if s.pendingExit.Some? && (if s.pendingExit.value == "" then u.exit.None? else u.exit == s.pendingExit) then None
               else s.pendingExit
  {
    var prior := Prior(s, u.scope.value);
    SavePending(Answered(s, u.exit), Learn(u.scope.value, Selected(s.pendingExit, u.exit, prior), prior, u));
  }

  lemma {:induction false} SavePending(s: State, x: Snapshot)
    ensures Save(s.(active := Some(x))).pendingExit == s.pendingExit
  {
  }

  // ---------- switching accounts ----------

  /** The live state names an account. */
  predicate NamesAccount(live: Live, scope: Scope) {
    && scope.nodeID != "" && live.selfNode.Some? && live.selfNode.value.id == scope.nodeID
    && live.prefs.Some? && live.prefs.value.controlURL == scope.controlURL
  }

  predicate NamesNone(live: Live) { live.selfNode.None? || live.selfNode.value.id == "" || live.prefs.None? }

  /** The live state is that of a profile known to have no account yet. */
  predicate KnownEmpty(live: Live) {
    && live.backend == NeedsLogin && (live.selfNode.None? || live.selfNode.value.id == "")
    && live.hostConnected && live.initialized
  }

  /** The account that a switch leaves: the live one if the state names one; none if it is
      known to be empty; and else the remembered one. */
  lemma {:induction false} SwitchLeaves(s: State, live: Live, scope: Scope)
    ensures var t := Step(s, Switch(ScopeOf(live.selfNode, live.prefs), EmptyProfile(live)));
            && t.transitioning && t.active == s.active && !t.released && !t.pendingLogin && !t.pendingDisconnect && t.pendingExit.None?
            && (t.transitionScope == Some(scope) <==>
                  NamesAccount(live, scope) || (NamesNone(live) && !KnownEmpty(live) && s.active.Some? && s.active.value.scope == scope))
  {
  }

  /** A status ends a switch exactly when it names an account other than the one that the
      switch left, or releases routing. */
  lemma {:induction false} SwitchEndsIff(s: State, u: Update)
    requires s.transitioning
    ensures !ConfirmStatus(s, u).transitioning <==> (u.scope.Some? && u.scope != s.transitionScope) || AnswersRequest(s, u)
  {
    SettleFlags(s, u);
    SettleSwitchFlags(s, u);
    if u.scope.Some? {
      RecordFlags(Settle(s, u), u, u.scope.value);
    }
  }

  // ---------- before any account is remembered ----------

  /** While no account is remembered: a running helper without an identity blocks
      everything, and the live state decides in every other case. */
  lemma {:induction false} BeforeAnyAccount(s: State, live: Live)
    requires s.active.None? && Unblocked(s) && !s.released
    ensures Decorate(s, live).blockAll <==> live.backend == Running && NamesNone(live)
    ensures !(live.backend == Running && NamesNone(live)) ==>
              Decorate(s, live) == if live.backend == Running && live.proxyEnabled && live.proxyPort.Some? then PolicyFromState(live) else EMPTY_POLICY
  {
  }

  // ---------- the domain split ----------

  /** Showing a policy records the live domain split of the remembered account and changes
      nothing else of it; while everything is blocked or released it changes nothing. */
  lemma {:induction false} SplitIsRecorded(s: State, split: DomainSplit)
    ensures var t := Step(s, Show(split));
            if s.active.Some? && Unblocked(s) && !s.released then
              t.active == Some(s.active.value.(domainSplit := split))
              && (t.saved == s.saved || t.saved == Some(SavedOf(t))) && (s.active.value.domainSplit != split ==> t.saved == Some(SavedOf(t)))
            else t == s
  {
    if s.active.Some? && s.active.value.domainSplit == split {
      assert s.active.value.(domainSplit := split) == s.active.value;
    }
  }

  // ---------- what is saved and read back ----------

  /** At most 32 accounts are saved: those filed last. */
  lemma {:induction false} SavesLast(s: State)
    ensures var t := Save(s);
            && t.saved.Some? && |t.saved.value.profiles| == (if |t.profiles| < 32 then |t.profiles| else 32)
            && EndsWithAll(t.profiles, t.saved.value.profiles)
            && t.saved.value.active == s.active && t.saved.value.released == s.released && t.saved.value.transitioning == s.transitioning
            && t.saved.value.transitionScope == s.transitionScope && t.saved.value.pendingExit == s.pendingExit
            && t.saved.value.pendingDisconnect == s.pendingDisconnect && t.saved.value.pendingLogin == s.pendingLogin
  {
  }

  predicate EndsWithAll(all: seq<Snapshot>, last: seq<Snapshot>) { |last| <= |all| && all[|all| - |last|..] == last }

  function HexDigit(n: nat): char
    requires n < 16
  {
    "0123456789abcdef"[n]
  }

  /** How `JSON.stringify` writes one character of a string. */
  function JsonChar(c: char): string {
    if c == '"' then "\\\"" else if c == '\\' then "\\\\"
    else if c == '\n' then "\\n" else if c == '\r' then "\\r" else if c == '\t' then "\\t"
    else if c as int == 8 then "\\b" else if c as int == 12 then "\\f"
    else if c as int < 0x20 then "\\u00" + [HexDigit(c as int / 16), HexDigit(c as int % 16)]
    else [c]
  }

  function JsonChars(s: string): string { if s == "" then "" else JsonChar(s[0]) + JsonChars(s[1..]) }

  /** The scope's JSON text. */
  function ScopeText(scope: Scope): string {
    "[" + "\"" + JsonChars(scope.controlURL) + "\"" + "," + "\"" + JsonChars(scope.nodeID) + "\"" + "]"
  }

  lemma {:induction false} JsonLengthIs(s: string)
    ensures JsonLength(s) == |JsonChars(s)| + 2
  {
    if s != "" {
      JsonLengthIs(s[1..]);
    }
  }

  lemma {:induction false} ScopeLengthIs(scope: Scope)
    ensures ScopeLength(scope) == |ScopeText(scope)|
  {
    JsonLengthIs(scope.controlURL);
    JsonLengthIs(scope.nodeID);
  }

  predicate OctetDigits(o: string) { ShortDigits(o) && DecimalValue(o) <= 255 }

  /** Four decimals of one to three digits and at most 255, and a length of one or two
      digits and at most 32. */
  ghost predicate DottedRange(s: string, octets: seq<string>, length: string) {
    && s == Join(octets, '.') + "/" + length
    && |octets| == 4 && (forall o | o in octets :: OctetDigits(o))
    && 1 <= |length| <= 2 && AllDigits(length) && DecimalValue(length) <= 32
  }

  ghost predicate SomeRange(s: string) { exists octets, length :: DottedRange(s, octets, length) }

  lemma {:induction false} OctetIsRead(o: string)
    requires OctetDigits(o)
    ensures OctetInt(o) && '/' !in o && '.' !in o
  {
    ParseIntDigits(o);
  }

  lemma {:induction false} OctetsAreRead(octets: seq<string>)
    requires |octets| == 4 && OctetDigits(octets[0]) && OctetDigits(octets[1]) && OctetDigits(octets[2]) && OctetDigits(octets[3])
    ensures var text := Join(octets, '.'); DottedDigits(text) && IpToNum(text).Some? && '/' !in text
  {
    OctetIsRead(octets[0]);
    OctetIsRead(octets[1]);
    OctetIsRead(octets[2]);
    OctetIsRead(octets[3]);
    assert forall o | o in octets :: '/' !in o && '.' !in o;
    SplitJoin(octets, '.');
    var text := Join(octets, '.');
    if '/' in text {
      JoinChars(octets, '.', '/');
    }
  }

  lemma {:induction false} RangeIsRead(s: string, octets: seq<string>, length: string)
    requires DottedRange(s, octets, length)
    ensures ShortPrefix(s) && ParseCidr(s).Some?
  {
    var text := Join(octets, '.');
    assert forall i | 0 <= i < 4 :: octets[i] in octets;
    OctetsAreRead(octets);
    assert s == text + ['/'] + length;
    SplitHead(text, length, '/');
    SplitPlain(length, '/');
    ParseIntDigits(length);
    ShortPrefixOf(text, length);
  }

  lemma {:induction false} ShortLength(s: string, text: string, length: string)
    requires ShortPrefix(s) && s == text + "/" + length && '/' !in length && '/' !in text
    ensures 1 <= |length| <= 2 && AllDigits(length)
  {
    var n := |s|;
    assert s[|text|] == '/';
    if n >= 2 && s[n - 2] == '/' && IsDigit(s[n - 1]) {
      assert length == [s[n - 1]];
    } else {
      assert length == [s[n - 2], s[n - 1]];
    }
  }

  lemma {:induction false} ReadOctet(o: string)
    requires ShortDigits(o) && OctetInt(o)
    ensures OctetDigits(o)
  {
    ParseIntDigits(o);
  }

  lemma {:induction false} ReadOctets(text: string)
    requires DottedDigits(text) && IpToNum(text).Some?
    ensures var octets := Split(text, '.'); |octets| == 4 && Join(octets, '.') == text && forall o | o in octets :: OctetDigits(o)
  {
    var octets := Split(text, '.');
    ReadOctet(octets[0]);
    ReadOctet(octets[1]);
    ReadOctet(octets[2]);
    ReadOctet(octets[3]);
    assert octets == [octets[0], octets[1], octets[2], octets[3]];
  }

  lemma {:induction false} ReadIsRange(s: string)
    requires ShortPrefix(s) && ParseCidr(s).Some?
    ensures SomeRange(s)
  {
    var parts := Split(s, '/');
    assert parts == [parts[0], parts[1]];
    assert Join(parts, '/') == parts[0] + "/" + parts[1];
    ShortLength(s, parts[0], parts[1]);
    ParseIntDigits(parts[1]);
    ReadOctets(parts[0]);
    assert DottedRange(s, Split(parts[0], '.'), parts[1]);
  }

  /** Which saved snapshots are read back, by their texts; without duplicates they come
      back as they are. */
  lemma {:induction false} ReadBackIff(s: Snapshot)
    ensures Validated(s).Some? <==>
              && |ScopeText(s.scope)| <= 4096 && (s.selectedExit.Some? ==> |s.selectedExit.value| <= 256)
              && |s.subnets| <= 8192 && |s.shortNames| <= 8192 && |s.dnsRoutes| <= 8192
              && (forall x | x in s.subnets :: if ':' in x then IsSupportedSubnet(x) else SomeRange(x))
              && (forall x | x in s.shortNames :: '.' !in x && DnsText(x)) && (forall x | x in s.dnsRoutes :: DnsText(x))
              && SanitizeSuffix(s.magicSuffix) == s.magicSuffix && Normalize(s.domainSplit) == s.domainSplit
  {
    ScopeLengthIs(s.scope);
    forall x | x in s.subnets ensures SubnetOk(x) <==> if ':' in x then IsSupportedSubnet(x) else SomeRange(x) {
      SubnetOkIff(x);
    }
    forall x | x in s.shortNames ensures ShortOk(x) <==> '.' !in x && DnsText(x) {
      NameOkIff(x);
    }
    forall x | x in s.dnsRoutes ensures NameOk(x) <==> DnsText(x) {
      NameOkIff(x);
    }
  }

  lemma {:induction false} SubnetOkIff(x: string)
    ensures SubnetOk(x) <==> if ':' in x then IsSupportedSubnet(x) else SomeRange(x)
  {
    if ':' !in x {
      if SomeRange(x) {
        var octets, length :| DottedRange(x, octets, length);
        RangeIsRead(x, octets, length);
      }
      if SubnetOk(x) {
        ReadIsRange(x);
      }
    }
  }

  lemma {:induction false} NameOkIff(x: string)
    ensures NameOk(x) <==> DnsText(x)
  {
    if DnsText(x) {
      NameFixedPoint(x);
    }
  }

  /** A restored switch: which account it left. A source that is too long for the saved
      state is replaced by the remembered account. */
  lemma {:induction false} RestoredSwitch(saved: Saved)
    ensures var t := Restore(Some(saved));
            && t.ready && t.released == saved.released && t.transitioning == saved.transitioning
            && t.pendingLogin == (saved.released && saved.pendingLogin)
            && (t.uncertain <==> saved.active.Some? && Validated(saved.active.value).None?)
            && (t.active.Some? <==> saved.active.Some? && !t.uncertain)
            && (t.active.Some? ==> t.active == Validated(saved.active.value) && t.pendingDisconnect == saved.pendingDisconnect)
            && (t.active.Some? ==>
                  t.pendingExit == if saved.pendingExit.Some? && |saved.pendingExit.value| > 256 then None else saved.pendingExit)
            && (t.active.None? ==> t.pendingExit.None? && !t.pendingDisconnect)
            && t.transitionScope == (if saved.transitionScope.Some? && |ScopeText(saved.transitionScope.value)| > 4096
                                     then (if t.active.Some? then Some(t.active.value.scope) else None) else saved.transitionScope)
  {
    if saved.transitionScope.Some? {
      ScopeLengthIs(saved.transitionScope.value);
    }
  }

  /** A choice made while the read was pending is newer than what was stored: a release
      stays a release and an exit node stays chosen, whatever the read brings, and nothing
      is blocked on its account. */
  lemma {:induction false} NewerChoiceWins(s: State, id: string, reading: Reading, live: Live)
    ensures var t := RestoreInto(Step(s, Release), true, reading); Unblocked(t) && Decorate(t, live) == EMPTY_POLICY
    ensures var t := RestoreInto(Step(s, SelectExitNode(id)), true, reading);
            t.ready && t.pendingExit == Some(id) && !t.released && t.uncertain == s.uncertain && (s.active.None? ==> t.active.None?)
  {
  }
}
