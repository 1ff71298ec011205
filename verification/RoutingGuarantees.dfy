/** What routing protection promises over whole runs and across restarts. */
module RoutingGuarantees {
  import opened Text
  import opened Subnets
  import opened DnsNames
  import opened Policies
  import opened RoutingProtection
  import PacScript

  lemma {:induction false} RunLast(s: State, events: seq<Event>, n: nat)
    requires n < |events|
    ensures At(s, events, n + 1) == Step(At(s, events, n), events[n])
  {
    assert events[..n + 1][..n] == events[..n];
  }

  // ---------- what a status leaves as it was ----------

  /** The status names an account other than the remembered one. */
  predicate NamesOther(s: State, u: Update) {
    u.scope.Some? && (s.active.None? || s.active.value.scope != u.scope.value)
  }

  /** A status that can answer a requested disconnect. */
  predicate Answers(u: Update) { u.backend == Stopped || u.backend == NeedsLogin }

  predicate CompleteRunning(u: Update) { u.backend == Running && u.scope.Some? }

  lemma {:induction false} SettleFlags(s: State, u: Update)
    ensures var t := Settle(s, u);
            && t.pendingDisconnect == (s.pendingDisconnect && !NamesOther(s, u))
            && t.pendingLogin == (s.pendingLogin && !CompleteRunning(u))
            && t.released == (s.released && !(s.pendingLogin && CompleteRunning(u)))
  {
    var a := SettleLogin(s, u);
    assert a.active == s.active && a.pendingDisconnect == s.pendingDisconnect;
    var b := SettleSwitch(a, u);
    assert b.active == s.active && b.pendingDisconnect == s.pendingDisconnect && b.pendingLogin == a.pendingLogin && b.released == a.released;
  }

  lemma {:induction false} SettleSwitchFlags(s: State, u: Update)
    ensures var t := Settle(s, u);
            if u.scope.Some? && u.scope != s.transitionScope then !t.transitioning && t.transitionScope.None?
            else t.transitioning == s.transitioning && t.transitionScope == s.transitionScope
  {
    var a := SettleLogin(s, u);
    assert a.transitioning == s.transitioning && a.transitionScope == s.transitionScope;
  }

  predicate SameFlags(s: State, t: State) {
    && t.pendingDisconnect == s.pendingDisconnect && t.pendingLogin == s.pendingLogin && t.released == s.released
    && t.transitioning == s.transitioning && t.transitionScope == s.transitionScope
    && t.ready == s.ready && t.uncertain == s.uncertain
  }

  lemma {:induction false} RememberFlags(s: State, x: Snapshot)
    ensures SameFlags(s, Save(s.(active := Some(x))))
  {
  }

  lemma {:induction false} RecordFlags(s: State, u: Update, scope: Scope)
    ensures SameFlags(s, Record(s, u, scope))
  {
    var prior := Prior(s, scope);
    var selected := Selected(s.pendingExit, u.exit, prior);
    var t := Answered(s, u.exit);
    assert SameFlags(s, t);
    RememberFlags(t, Learn(scope, selected, prior, u));
  }

  // ---------- a requested disconnect ----------

  /** What drops a requested disconnect: a release, a login, a switch, the status that
      answers it, and a status of another account. */
  predicate DropsRequest(s: State, e: Event) {
    e.Release? || e.StartLogin? || e.Switch? || (e.Confirm? && (NamesOther(s, e.update) || Answers(e.update)))
  }

  predicate Undropped(s: State, events: seq<Event>, from: nat, to: nat)
    requires to <= |events|
  {
    forall k | from <= k < to :: !DropsRequest(At(s, events, k), events[k])
  }

  predicate RequestedAt(s: State, events: seq<Event>, j: nat, n: nat)
    requires j < n <= |events|
  {
    events[j].RequestDisconnect? && Undropped(s, events, j + 1, n)
  }

  /** A disconnect was requested before event `n`, in this run or before it, and nothing
      has dropped it. */
  predicate Requested(s: State, events: seq<Event>, n: nat)
    requires n <= |events|
  {
    (s.pendingDisconnect && Undropped(s, events, 0, n)) || exists j :: 0 <= j < n && RequestedAt(s, events, j, n)
  }

  lemma {:induction false} ConfirmPending(s: State, u: Update)
    ensures ConfirmStatus(s, u).pendingDisconnect <==> s.pendingDisconnect && !NamesOther(s, u) && !Answers(u)
  {
    SettleFlags(s, u);
    if u.scope.Some? {
      RecordFlags(Settle(s, u), u, u.scope.value);
    }
  }

  lemma {:induction false} StepPending(s: State, e: Event)
    ensures Step(s, e).pendingDisconnect <==> e.RequestDisconnect? || (s.pendingDisconnect && !DropsRequest(s, e))
  {
    if e.Confirm? {
      ConfirmPending(s, e.update);
    }
  }

  lemma {:induction false} RequestedNext(s: State, events: seq<Event>, n: nat)
    requires n < |events|
    ensures Requested(s, events, n + 1) <==>
            events[n].RequestDisconnect? || (Requested(s, events, n) && !DropsRequest(At(s, events, n), events[n]))
  {
    if events[n].RequestDisconnect? {
      assert RequestedAt(s, events, n, n + 1);
    } else if Requested(s, events, n) && !DropsRequest(At(s, events, n), events[n]) {
      if !(s.pendingDisconnect && Undropped(s, events, 0, n)) {
        var j :| 0 <= j < n && RequestedAt(s, events, j, n);
        assert RequestedAt(s, events, j, n + 1);
      }
    } else if Requested(s, events, n + 1) {
      if !(s.pendingDisconnect && Undropped(s, events, 0, n + 1)) {
        var j :| 0 <= j < n + 1 && RequestedAt(s, events, j, n + 1);
        assert j < n && RequestedAt(s, events, j, n);
      }
    }
  }

  /** The pending flag says exactly that a request stands. */
  lemma {:induction false} PendingIffRequested(s: State, events: seq<Event>, n: nat)
    requires n <= |events|
    ensures At(s, events, n).pendingDisconnect <==> Requested(s, events, n)
  {
    if n > 0 {
      RunLast(s, events, n - 1);
      PendingIffRequested(s, events, n - 1);
      StepPending(At(s, events, n - 1), events[n - 1]);
      RequestedNext(s, events, n - 1);
    }
  }

  // ---------- direct routing needs a standing release ----------

  /** A user release, a login start, or a Stopped or NeedsLogin status of no other
      account that answers a disconnect still requested. */
  predicate Cause(s: State, events: seq<Event>, i: nat)
    requires i < |events|
  {
    match events[i]
    case Release => true
    case StartLogin => true
    case Confirm(u) => Answers(u) && !NamesOther(At(s, events, i), u) && Requested(s, events, i)
    case _ => false
  }

  /** What cancels a release: choosing an exit node, switching accounts, and either a
      reconnect or, for a login, the complete status that ends it. */
  predicate Cancels(byLogin: bool, e: Event) {
    || e.SelectExitNode? || e.Switch?
    || (if byLogin then e.Confirm? && CompleteRunning(e.update) else e.Reconnect?)
  }

  /** A release of one kind ends when it is cancelled or replaced by one of the other. */
  predicate Ends(s: State, events: seq<Event>, k: nat, byLogin: bool)
    requires k < |events|
  {
    Cancels(byLogin, events[k]) || (Cause(s, events, k) && events[k].StartLogin? != byLogin)
  }

  predicate Lasts(s: State, events: seq<Event>, from: nat, to: nat, byLogin: bool)
    requires to <= |events|
  {
    forall k | from <= k < to :: !Ends(s, events, k, byLogin)
  }

  predicate StandsSince(s: State, events: seq<Event>, i: nat, n: nat, byLogin: bool)
    requires i < n <= |events|
  {
    Cause(s, events, i) && events[i].StartLogin? == byLogin && Lasts(s, events, i + 1, n, byLogin)
  }

  /** Before event `n` some cause stands: in this run, or restored from before it. */
  predicate Standing(s: State, events: seq<Event>, n: nat, byLogin: bool)
    requires n <= |events|
  {
    || (s.released && s.pendingLogin == byLogin && Lasts(s, events, 0, n, byLogin))
    || exists i :: 0 <= i < n && StandsSince(s, events, i, n, byLogin)
  }

  predicate ReleasedBy(s: State, byLogin: bool) { s.released && s.pendingLogin == byLogin }

  /** `Cause` in terms of the state before the event. */
  predicate Releases(s: State, e: Event) {
    e.Release? || e.StartLogin? || (e.Confirm? && Answers(e.update) && !NamesOther(s, e.update) && s.pendingDisconnect)
  }

  lemma {:induction false} ConfirmReleased(s: State, u: Update, byLogin: bool)
    ensures ReleasedBy(ConfirmStatus(s, u), byLogin) <==>
            if Answers(u) && !NamesOther(s, u) && s.pendingDisconnect then !byLogin
            else ReleasedBy(s, byLogin) && !(byLogin && CompleteRunning(u))
  {
    SettleFlags(s, u);
    if u.scope.Some? {
      RecordFlags(Settle(s, u), u, u.scope.value);
    }
  }

  lemma {:induction false} StepReleased(s: State, e: Event, byLogin: bool)
    ensures ReleasedBy(Step(s, e), byLogin) <==>
            if Releases(s, e) then e.StartLogin? == byLogin else ReleasedBy(s, byLogin) && !Cancels(byLogin, e)
  {
    if e.Confirm? {
      ConfirmReleased(s, e.update, byLogin);
    }
  }

  lemma {:induction false} StandingNext(s: State, events: seq<Event>, n: nat, byLogin: bool)
    requires n < |events|
    ensures Standing(s, events, n + 1, byLogin) <==>
            || (Cause(s, events, n) && events[n].StartLogin? == byLogin)
            || (Standing(s, events, n, byLogin) && !Ends(s, events, n, byLogin))
  {
    if Cause(s, events, n) && events[n].StartLogin? == byLogin {
      assert StandsSince(s, events, n, n + 1, byLogin);
    } else if Standing(s, events, n, byLogin) && !Ends(s, events, n, byLogin) {
      if !(s.released && s.pendingLogin == byLogin && Lasts(s, events, 0, n, byLogin)) {
        var i :| 0 <= i < n && StandsSince(s, events, i, n, byLogin);
        assert StandsSince(s, events, i, n + 1, byLogin);
      }
    } else if Standing(s, events, n + 1, byLogin) {
      if !(s.released && s.pendingLogin == byLogin && Lasts(s, events, 0, n + 1, byLogin)) {
        var i :| 0 <= i < n + 1 && StandsSince(s, events, i, n + 1, byLogin);
        assert i < n && StandsSince(s, events, i, n, byLogin);
      }
    }
  }

  /** A state is released, by a login or otherwise, exactly while a cause of that kind
      stands. */
  lemma {:induction false} ReleasedStands(s: State, events: seq<Event>, n: nat, byLogin: bool)
    requires n <= |events|
    ensures ReleasedBy(At(s, events, n), byLogin) <==> Standing(s, events, n, byLogin)
  {
    if n > 0 {
      var before := At(s, events, n - 1);
      RunLast(s, events, n - 1);
      ReleasedStands(s, events, n - 1, byLogin);
      StepReleased(before, events[n - 1], byLogin);
      PendingIffRequested(s, events, n - 1);
      assert Cause(s, events, n - 1) == Releases(before, events[n - 1]);
      StandingNext(s, events, n - 1, byLogin);
    }
  }

  lemma {:induction false} StepKeepsSnapshot(s: State, e: Event)
    requires s.active.Some?
    ensures Step(s, e).active.Some?
  {
    if e.Confirm? {
      SettledKeeps(s, e.update);
    }
  }

  /** A remembered account is never forgotten. */
  lemma {:induction false} SnapshotKept(s: State, events: seq<Event>)
    requires s.active.Some?
    ensures Run(s, events).active.Some?
  {
    if events != [] {
      SnapshotKept(s, events[..|events| - 1]);
      StepKeepsSnapshot(Run(s, events[..|events| - 1]), events[|events| - 1]);
    }
  }

  /** Nothing blocks everything: the state was restored, is not corrupted, and no switch
      is under way. */
  predicate Unblocked(s: State) { s.ready && !s.uncertain && !s.transitioning }

  /** The remembered account is live: running, with any selected exit node live and online. */
  predicate IsLive(s: Snapshot, live: Live) {
    && live.backend == Running && live.proxyEnabled && live.proxyPort.Some?
    && ScopeOf(live.selfNode, live.prefs) == Some(s.scope)
    && (Truthy(s.selectedExit) ==> live.exitNode == Some(ExitNode(s.selectedExit.value, true)))
  }

  /** Over every run, once an account is remembered: `direct` appears exactly while a
      release, a login start or a confirmed disconnect stands and nothing blocks. */
  lemma {:induction false} DirectNeedsStandingRelease(s: State, events: seq<Event>, live: Live)
    requires s.active.Some?
    ensures var t := Run(s, events);
            Decorate(t, live).mode == Direct <==>
            Unblocked(t) && (Standing(s, events, |events|, true) || Standing(s, events, |events|, false))
  {
    assert events[..|events|] == events;
    SnapshotKept(s, events);
    ReleasedStands(s, events, |events|, true);
    ReleasedStands(s, events, |events|, false);
  }

  /** Over every run, once an account is remembered: `active` appears exactly for the
      remembered account while it is live, no release stands and nothing blocks, and it
      goes through the helper's port. */
  lemma {:induction false} ActiveNeedsLiveAccount(s: State, events: seq<Event>, live: Live)
    requires s.active.Some?
    ensures var t := Run(s, events);
            && t.active.Some?
            && (Decorate(t, live).mode == Active <==>
                && Unblocked(t) && IsLive(t.active.value, live)
                && !Standing(s, events, |events|, true) && !Standing(s, events, |events|, false))
            && (Decorate(t, live).mode == Active ==> Decorate(t, live).proxyPort == live.proxyPort)
  {
    assert events[..|events|] == events;
    SnapshotKept(s, events);
    ReleasedStands(s, events, |events|, true);
    ReleasedStands(s, events, |events|, false);
    LiveIsActive(Run(s, events).active.value, live);
  }

  lemma {:induction false} LiveIsActive(s: Snapshot, live: Live)
    ensures PolicyOf(s, live).mode == (if IsLive(s, live) then Active else Blocked)
    ensures IsLive(s, live) ==> PolicyOf(s, live).proxyPort == live.proxyPort
  {
    if Truthy(s.selectedExit) && live.exitNode.Some? {
      assert live.exitNode.value == ExitNode(live.exitNode.value.id, live.exitNode.value.online);
    }
  }

  // ---------- account switches ----------

  /** What ends the blocking of a switch away from `source`. */
  predicate EndsSwitch(s: State, source: Option<Scope>, e: Event) {
    e.Switch? || Releases(s, e) || (e.Confirm? && e.update.scope.Some? && e.update.scope != source)
  }

  /** After a switch, everything stays blocked until a status names an account other
      than the source, another switch starts, or a release occurs. */
  lemma {:induction false} SwitchBlocksUntilNamed(s: State, events: seq<Event>, i: nat, n: nat, live: Live)
    requires i < n <= |events| && events[i].Switch?
    requires forall k | i < k < n :: !EndsSwitch(At(s, events, k), SourceScope(At(s, events, i), events[i].source, events[i].empty), events[k])
    ensures Decorate(At(s, events, n), live) == BLOCK_ALL
    ensures At(s, events, n).transitioning
    ensures At(s, events, n).transitionScope == SourceScope(At(s, events, i), events[i].source, events[i].empty)
  {
    RunLast(s, events, n - 1);
    if i < n - 1 {
      SwitchBlocksUntilNamed(s, events, i, n - 1, live);
      StillSwitching(At(s, events, n - 1), events[n - 1]);
    }
  }

  lemma {:induction false} ConfirmStillSwitching(s: State, u: Update)
    requires s.transitioning && !EndsSwitch(s, s.transitionScope, Confirm(u))
    ensures ConfirmStatus(s, u).transitioning && ConfirmStatus(s, u).transitionScope == s.transitionScope
  {
    SettleFlags(s, u);
    SettleSwitchFlags(s, u);
    if u.scope.Some? {
      RecordFlags(Settle(s, u), u, u.scope.value);
    }
  }

  lemma {:induction false} StillSwitching(s: State, e: Event)
    requires s.transitioning && !EndsSwitch(s, s.transitionScope, e)
    ensures Step(s, e).transitioning && Step(s, e).transitionScope == s.transitionScope
  {
    if e.Confirm? {
      ConfirmStillSwitching(s, e.update);
    }
  }

  // ---------- what is recorded for each account ----------

  /** The remembered account is filed under its own name. */
  predicate Filed(s: State) {
    s.active.Some? ==> Find(s.profiles, s.active.value.scope) == s.active
  }

  predicate Subset(a: seq<string>, b: seq<string>) { forall x | x in a :: x in b }

  predicate Grows(before: Option<Snapshot>, after: Option<Snapshot>) {
    before.Some? ==> after.Some? && Subset(before.value.subnets, after.value.subnets)
  }

  /** The records change only by filing the remembered account. */
  predicate Files(s: State, t: State) {
    || (t.active == s.active && t.profiles == s.profiles)
    || t.profiles == (if t.active.Some? then Put(s.profiles, t.active.value) else s.profiles)
  }

  /** The same account with the same subnets, and an exit node unless there was none. */
  predicate Retouched(s: State, t: State) {
    || (s.active.None? && t.active.None?)
    || (&& s.active.Some? && t.active.Some? && t.active.value.scope == s.active.value.scope
        && t.active.value.subnets == s.active.value.subnets
        && (Truthy(t.active.value.selectedExit) || t.active.value.selectedExit == s.active.value.selectedExit))
  }

  /** The account a status names, with what was known of it before. */
  predicate Learned(s: State, u: Update, t: State) {
    && u.scope.Some? && t.active.Some? && t.active.value.scope == u.scope.value
    && Grows(Prior(s, u.scope.value), t.active)
    && t.active.value.selectedExit == Selected(SettleRequests(s, u).pendingExit, u.exit, Prior(s, u.scope.value))
  }

  predicate Changes(s: State, e: Event, t: State) {
    Files(s, t) && (Retouched(s, t) || (e.Confirm? && Learned(s, e.update, t)))
  }

  lemma {:induction false} LearnGrows(scope: Scope, selected: Option<string>, prior: Option<Snapshot>, u: Update)
    ensures Grows(prior, Some(Learn(scope, selected, prior, u)))
  {
    DedupeKeeps((if prior.Some? then prior.value.subnets else []) + u.subnets);
  }

  lemma {:induction false} RememberChanges(s: State, t: State, x: Snapshot)
    requires t.profiles == s.profiles
    ensures Files(s, Save(t.(active := Some(x)))) && Save(t.(active := Some(x))).active == Some(x)
  {
  }

  lemma {:induction false} RecordChanges(s: State, u: Update)
    requires u.scope.Some? && (s.pendingExit.Some? ==> s.active.Some? && s.active.value.scope == u.scope.value)
    ensures var t := Record(s, u, u.scope.value); Files(s, t) && (Retouched(s, t) || Learned(s, u, t))
  {
    var prior := Prior(s, u.scope.value);
    var selected := Selected(s.pendingExit, u.exit, prior);
    var t := Answered(s, u.exit);
    assert t.active == s.active && t.profiles == s.profiles;
    LearnGrows(u.scope.value, selected, prior, u);
    RememberChanges(s, t, Learn(u.scope.value, selected, prior, u));
    assert SettleRequests(s, u).pendingExit == s.pendingExit;
  }

  /** What settling leaves as it was. */
  predicate SettledFrom(s: State, u: Update, t: State) {
    && t.active == s.active && t.profiles == s.profiles && t.pendingExit == SettleRequests(s, u).pendingExit
    && (u.scope.Some? && t.pendingExit.Some? ==> t.active.Some? && t.active.value.scope == u.scope.value)
  }

  lemma {:induction false} SettledKeeps(s: State, u: Update)
    ensures SettledFrom(s, u, Settle(s, u))
  {
    var a := SettleLogin(s, u);
    assert a.active == s.active && a.profiles == s.profiles && a.pendingExit == s.pendingExit;
    var b := SettleSwitch(a, u);
    assert b.active == s.active && b.profiles == s.profiles && b.pendingExit == s.pendingExit;
  }

  lemma {:induction false} ConfirmChanges(s: State, u: Update)
    ensures Changes(s, Confirm(u), ConfirmStatus(s, u))
  {
    var t := Settle(s, u);
    SettledKeeps(s, u);
    if !ConfirmsDisconnect(s, u) && !t.released && u.scope.Some? {
      RecordChanges(t, u);
      RecordedAfterSettling(s, u, t, Record(t, u, u.scope.value));
    }
  }

  lemma {:induction false} RecordedAfterSettling(s: State, u: Update, t: State, r: State)
    requires SettledFrom(s, u, t) && u.scope.Some? && Files(t, r) && (Retouched(t, r) || Learned(t, u, r))
    ensures Changes(s, Confirm(u), r)
  {
    assert Files(s, r);
    if Retouched(t, r) {
      assert Retouched(s, r);
    } else {
      assert Prior(t, u.scope.value) == Prior(s, u.scope.value);
    }
  }

  lemma {:induction false} StepChanges(s: State, e: Event)
    ensures Changes(s, e, Step(s, e))
  {
    match e {
      case Confirm(u) => ConfirmChanges(s, u);
      case _ =>
    }
  }

  lemma {:induction false} FilesFind(s: State, t: State, scope: Scope)
    requires Filed(s) && Files(s, t)
    ensures Find(t.profiles, scope) == if t.active.Some? && t.active.value.scope == scope then t.active else Find(s.profiles, scope)
  {
    if t.active.Some? {
      PutFinds(s.profiles, t.active.value, scope);
    }
  }

  lemma {:induction false} ChangeGrows(s: State, e: Event, t: State, scope: Scope)
    requires Filed(s) && Changes(s, e, t)
    ensures Filed(t) && Grows(Find(s.profiles, scope), Find(t.profiles, scope))
  {
    FilesFind(s, t, scope);
    if t.active.Some? {
      FilesFind(s, t, t.active.value.scope);
    }
  }

  /** Over any run of statuses, switches and restoration of the same account, the
      recorded subnets of every account only grow. */
  lemma {:induction false} SubnetsNeverShrink(s: State, events: seq<Event>, scope: Scope)
    requires Filed(s)
    ensures Filed(Run(s, events))
    ensures Grows(Find(s.profiles, scope), Find(Run(s, events).profiles, scope))
  {
    if events != [] {
      var front := events[..|events| - 1];
      SubnetsNeverShrink(s, front, scope);
      StepChanges(Run(s, front), events[|events| - 1]);
      ChangeGrows(Run(s, front), events[|events| - 1], Run(s, events), scope);
    }
  }

  /** The exit node of an account is cleared by a pending explicit clear of that same
      account, when a status of the account reports no exit node. */
  lemma {:induction false} ChangeClearsExit(s: State, e: Event, t: State, scope: Scope)
    requires Filed(s) && Changes(s, e, t) && Find(s.profiles, scope).Some? && Truthy(Find(s.profiles, scope).value.selectedExit)
    requires Find(t.profiles, scope).None? || !Truthy(Find(t.profiles, scope).value.selectedExit)
    ensures e.Confirm? && e.update.scope == Some(scope) && e.update.exit.None?
    ensures s.pendingExit == Some("") && s.active.Some? && s.active.value.scope == scope
  {
    FilesFind(s, t, scope);
    assert Prior(s, scope) == Find(s.profiles, scope);
    assert !Retouched(s, t);
  }

  predicate ClearedIn(s: State, events: seq<Event>, j: nat, scope: Scope)
    requires j < |events|
  {
    events[j] == SelectExitNode("") && At(s, events, j).active.Some? && At(s, events, j).active.value.scope == scope
  }

  /** A clear waits, made in the remembered account. */
  predicate ClearPending(s: State, scope: Scope) {
    s.pendingExit == Some("") && s.active.Some? && s.active.value.scope == scope
  }

  predicate PendingFrom(s: State, events: seq<Event>, from: nat, n: nat, scope: Scope)
    requires n <= |events|
  {
    forall k | from <= k <= n :: ClearPending(At(s, events, k), scope)
  }

  predicate MadeAndPending(s: State, events: seq<Event>, j: nat, n: nat, scope: Scope)
    requires j < n <= |events|
  {
    ClearedIn(s, events, j, scope) && PendingFrom(s, events, j + 1, n, scope)
  }

  /** A clear was made in the account, in this run or before it, and has been pending
      ever since. */
  predicate ClearWaits(s: State, events: seq<Event>, n: nat, scope: Scope)
    requires n <= |events|
  {
    PendingFrom(s, events, 0, n, scope) || exists j :: 0 <= j < n && MadeAndPending(s, events, j, n, scope)
  }

  lemma {:induction false} WaitsLonger(s: State, events: seq<Event>, n: nat, scope: Scope)
    requires n < |events| && ClearPending(At(s, events, n + 1), scope)
    requires ClearWaits(s, events, n, scope) || ClearedIn(s, events, n, scope)
    ensures ClearWaits(s, events, n + 1, scope)
  {
    if ClearedIn(s, events, n, scope) {
      assert MadeAndPending(s, events, n, n + 1, scope);
    } else if !PendingFrom(s, events, 0, n, scope) {
      var j :| 0 <= j < n && MadeAndPending(s, events, j, n, scope);
      assert MadeAndPending(s, events, j, n + 1, scope);
    }
  }

  /** A pending clear was made while its account was the remembered one. */
  lemma {:induction false} ClearWasMadeThere(s: State, events: seq<Event>, n: nat, scope: Scope)
    requires n <= |events| && ClearPending(At(s, events, n), scope)
    ensures ClearWaits(s, events, n, scope)
  {
    if n > 0 {
      RunLast(s, events, n - 1);
      PendingClearFrom(At(s, events, n - 1), events[n - 1]);
      if events[n - 1] != SelectExitNode("") {
        ClearWasMadeThere(s, events, n - 1, scope);
      }
      WaitsLonger(s, events, n - 1, scope);
    }
  }

  lemma {:induction false} PendingClearFrom(s: State, e: Event)
    requires Step(s, e).pendingExit == Some("") && Step(s, e).active.Some?
    ensures s.active.Some? && s.active.value.scope == Step(s, e).active.value.scope
    ensures e == SelectExitNode("") || s.pendingExit == Some("")
  {
    match e {
      case Confirm(u) => ConfirmPendingClear(s, u);
      case _ =>
    }
  }

  lemma {:induction false} ConfirmPendingClear(s: State, u: Update)
    requires ConfirmStatus(s, u).pendingExit == Some("") && ConfirmStatus(s, u).active.Some?
    ensures s.active.Some? && s.active.value.scope == ConfirmStatus(s, u).active.value.scope && s.pendingExit == Some("")
  {
    var t := Settle(s, u);
    SettledKeeps(s, u);
    assert t.pendingExit == Some("");
  }

  /** Over every run: an account's exit node becomes none only through a status of that
      account reporting none, after an explicit clear that was made in that account, in
      this run or before it, and was still pending. */
  lemma {:induction false} ExitClearedOnlyExplicitly(s: State, events: seq<Event>, n: nat, scope: Scope)
    requires n < |events| && Filed(s)
    requires var r := Find(At(s, events, n).profiles, scope); r.Some? && Truthy(r.value.selectedExit)
    requires var r := Find(At(s, events, n + 1).profiles, scope); r.None? || !Truthy(r.value.selectedExit)
    ensures events[n].Confirm? && events[n].update.scope == Some(scope) && events[n].update.exit.None?
    ensures ClearWaits(s, events, n, scope)
  {
    SubnetsNeverShrink(s, events[..n], scope);
    RunLast(s, events, n);
    StepChanges(At(s, events, n), events[n]);
    ChangeClearsExit(At(s, events, n), events[n], At(s, events, n + 1), scope);
    ClearWasMadeThere(s, events, n, scope);
  }

  // ---------- restarts ----------

  /** A snapshot in the form the validator keeps. */
  predicate Clean(s: Snapshot) {
    Constraints(s) && NoDuplicates(s.subnets) && NoDuplicates(s.shortNames) && NoDuplicates(s.dnsRoutes)
  }

  lemma {:induction false} ValidatedFixed(s: Snapshot)
    requires Clean(s) && Limits(s)
    ensures Validated(s) == Some(s)
  {
    DedupeFixed(s.subnets);
    DedupeFixed(s.shortNames);
    DedupeFixed(s.dnsRoutes);
  }

  /** Restoring what was saved gives the same policy on every live state. */
  lemma {:induction false} RestoredPolicy(s: State, live: Live)
    requires s.ready && !s.uncertain && s.saved == Some(SavedOf(s))
    requires s.active.Some? ==> Clean(s.active.value) && Limits(s.active.value)
    ensures Restore(s.saved).active == s.active && !Restore(s.saved).uncertain
    ensures Decorate(Restore(s.saved), live) == Decorate(s, live)
  {
    if s.active.Some? {
      ValidatedFixed(s.active.value);
    }
  }

  lemma {:induction false} StaysUncertain(s: State, e: Event)
    requires s.uncertain && !Releases(s, e)
    ensures Step(s, e).uncertain
  {
    if e.Confirm? {
      var u := e.update;
      SettleFlags(s, u);
      assert Settle(s, u).uncertain;
      if u.scope.Some? {
        RecordFlags(Settle(s, u), u, u.scope.value);
      }
    }
  }

  /** A corrupted state blocks everything, whatever happens, until the next release,
      login or confirmed disconnect. */
  lemma {:induction false} UncertainBlocks(s: State, events: seq<Event>, live: Live)
    requires s.uncertain && forall i | 0 <= i < |events| :: !Releases(At(s, events, i), events[i])
    ensures Run(s, events).uncertain && Decorate(Run(s, events), live) == BLOCK_ALL
  {
    if events != [] {
      var n := |events| - 1;
      forall i | 0 <= i < n ensures !Releases(At(s, events[..n], i), events[..n][i]) {
        assert events[..n][..i] == events[..i];
      }
      UncertainBlocks(s, events[..n], live);
      StaysUncertain(Run(s, events[..n]), events[n]);
    }
  }

  /** When the stored value cannot be read, or its snapshot does not pass the validator,
      everything is blocked from then on until a release, unless the user chose or
      released while the read was pending. */
  lemma {:induction false} RejectedSnapshotBlocks(s: State, reading: Reading, events: seq<Event>, live: Live)
    requires || reading.ReadFailed?
             || (reading.saved.Some? && reading.saved.value.active.Some?
                 && !(Limits(reading.saved.value.active.value) && Constraints(reading.saved.value.active.value)))
    requires var t := RestoreInto(s, false, reading); forall i | 0 <= i < |events| :: !Releases(At(t, events, i), events[i])
    ensures Decorate(Run(RestoreInto(s, false, reading), events), live) == BLOCK_ALL
  {
    UncertainBlocks(RestoreInto(s, false, reading), events, live);
  }

  predicate CleanState(s: State) {
    && (s.active.Some? ==> Clean(s.active.value))
    && forall p | p in s.profiles :: Clean(p)
  }

  ghost predicate AlreadyNormalized(split: DomainSplit) {
    exists raw :: split == Normalize(raw)
  }

  /** A status whose suffix does not end in two dots and whose domain split was
      normalized when it was read or written. */
  ghost predicate WellFormed(st: Status) {
    !EndsWith(st.magicSuffix, "..") && AlreadyNormalized(st.domainSplit)
  }

  /** The inputs a run may see. */
  ghost predicate InputOk(e: Event) {
    match e
    case Confirm(u) => exists st :: WellFormed(st) && u == Digest(st)
    case Show(split) => exists read :: AlreadyNormalized(read) && split == Normalize(read)
    case _ => true
  }

  lemma {:induction false} NormalizedFixed(split: DomainSplit)
    requires AlreadyNormalized(split)
    ensures Normalize(Normalize(split)) == Normalize(split)
  {
    var raw :| split == Normalize(raw);
    NormalizeTwiceFixed(raw);
  }

  lemma {:induction false} ShortPrefixOf(front: string, digits: string)
    requires 1 <= |digits| <= 2 && AllDigits(digits)
    ensures ShortPrefix(front + "/" + digits)
  {
    assert digits[0] in digits && digits[|digits| - 1] in digits;
  }

  /** Every route the browser supports passes the validator of saved subnets. */
  lemma {:induction false} SupportedPasses(cidr: string)
    requires IsSupportedSubnet(cidr)
    ensures SubnetOk(cidr)
  {
    if ':' !in cidr {
      var parts := Split(cidr, '/');
      assert CanonicalDecimal(parts[1]) && DecimalValue(parts[1]) <= 32;
      ShortPrefixJoined(cidr, parts);
    }
  }

  lemma {:induction false} ShortPrefixJoined(cidr: string, parts: seq<string>)
    requires |parts| == 2 && Join(parts, '/') == cidr && CanonicalDecimal(parts[1]) && DecimalValue(parts[1]) <= 32
    ensures ShortPrefix(cidr)
  {
    DecimalUnique(parts[1]);
    ShortPrefixOf(parts[0], parts[1]);
    assert parts == [parts[0], parts[1]];
    assert Join(parts, '/') == parts[0] + "/" + Join([parts[1]], '/');
  }

  lemma {:induction false} SupportedAllPass(subnets: seq<string>)
    ensures forall x | x in PacScript.Supported(subnets) :: SubnetOk(x)
  {
    if subnets != [] {
      SupportedAllPass(subnets[1..]);
      if IsSupportedSubnet(subnets[0]) {
        SupportedPasses(subnets[0]);
      }
    }
  }

  lemma {:induction false} NamesPass(names: seq<string>)
    requires forall y | y in names :: DnsText(y)
    ensures forall y | y in names :: NameOk(y)
  {
    forall y | y in names ensures NameOk(y) {
      NameFixedPoint(y);
    }
  }

  predicate CleanUpdate(u: Update) {
    && (forall x | x in u.subnets :: SubnetOk(x))
    && (forall x | x in u.names :: ShortOk(x)) && NoDuplicates(u.names)
    && (u.routes.Some? ==> (forall x | x in u.routes.value :: NameOk(x)) && NoDuplicates(u.routes.value))
    && SanitizeSuffix(u.suffix) == u.suffix
    && Normalize(u.split) == u.split
  }

  /** What a well-formed status says passes the validator of saved snapshots. */
  lemma {:induction false} DigestIsClean(st: Status)
    requires WellFormed(st)
    ensures CleanUpdate(Digest(st))
  {
    var peers := if st.peers.Some? then st.peers.value else [];
    SupportedAllPass(SubnetsOf(peers));
    NamesPass(CollectShortNames(st.magicSuffix, NamesOf(peers, st.selfNode)));
    if st.dnsRoutes.Some? {
      NamesPass(SanitizeRoutes(st.dnsRoutes.value));
    } else {
      NamesPass(SanitizeRoutes(st.splitDNS));
    }
    SuffixFixedPoint(st.magicSuffix);
    NormalizedFixed(st.domainSplit);
  }

  lemma {:induction false} LearnIsClean(scope: Scope, selected: Option<string>, prior: Option<Snapshot>, u: Update)
    requires CleanUpdate(u) && (prior.Some? ==> Clean(prior.value))
    ensures Clean(Learn(scope, selected, prior, u))
  {
    DedupeKeeps((if prior.Some? then prior.value.subnets else []) + u.subnets);
    DedupeKeeps((if prior.Some? then prior.value.shortNames else []) + u.names);
    assert SanitizeSuffix("") == "";
  }

  lemma {:induction false} FilesClean(s: State, t: State)
    requires CleanState(s) && Files(s, t) && (t.active.Some? ==> Clean(t.active.value))
    ensures CleanState(t)
  {
    if t.active.Some? {
      PutMembers(s.profiles, t.active.value);
    }
  }

  lemma {:induction false} RetouchedIsClean(s: Snapshot, id: string, split: DomainSplit)
    requires Clean(s)
    ensures Clean(s.(selectedExit := Some(id)))
    ensures Normalize(split) == split ==> Clean(s.(domainSplit := split))
  {
  }

  lemma {:induction false} StepIsClean(s: State, e: Event)
    requires CleanState(s) && InputOk(e)
    ensures CleanState(Step(s, e))
  {
    StepChanges(s, e);
    match e {
      case Confirm(u) =>
        var st :| WellFormed(st) && u == Digest(st);
        DigestIsClean(st);
        ConfirmIsClean(s, u);
      case Show(split) =>
        var read :| AlreadyNormalized(read) && split == Normalize(read);
        NormalizedFixed(read);
        if s.active.Some? {
          RetouchedIsClean(s.active.value, "", split);
        }
      case SelectExitNode(id) =>
        if s.active.Some? {
          RetouchedIsClean(s.active.value, id, s.active.value.domainSplit);
        }
      case _ => assert Step(s, e).active == s.active;
    }
    FilesClean(s, Step(s, e));
  }

  lemma {:induction false} ConfirmIsClean(s: State, u: Update)
    requires CleanState(s) && CleanUpdate(u)
    ensures ConfirmStatus(s, u).active.Some? ==> Clean(ConfirmStatus(s, u).active.value)
  {
    var prior, selected := ConfirmActive(s, u);
    if u.scope.Some? {
      LearnIsClean(u.scope.value, selected, prior, u);
    }
  }

  /** A status leaves the remembered account, or learns from what was known before. */
  lemma {:induction false} ConfirmActive(s: State, u: Update) returns (prior: Option<Snapshot>, selected: Option<string>)
    ensures var t := ConfirmStatus(s, u);
            t.active == s.active || (u.scope.Some? && t.active == Some(Learn(u.scope.value, selected, prior, u)))
    ensures prior.None? || prior == s.active || prior.value in s.profiles
  {
    prior, selected := None, None;
    SettledKeeps(s, u);
    if u.scope.Some? {
      var t := Settle(s, u);
      prior := Prior(t, u.scope.value);
      selected := Selected(t.pendingExit, u.exit, prior);
      RecordActive(t, u, prior, selected);
    }
  }

  lemma {:induction false} RecordActive(s: State, u: Update, prior: Option<Snapshot>, selected: Option<string>)
    requires u.scope.Some? && prior == Prior(s, u.scope.value) && selected == Selected(s.pendingExit, u.exit, prior)
    ensures var t := Record(s, u, u.scope.value);
            t.active == s.active || t.active == Some(Learn(u.scope.value, selected, prior, u))
    ensures prior.None? || prior == s.active || prior.value in s.profiles
  {
  }

  lemma {:induction false} ValidatedIsClean(s: Snapshot)
    requires Validated(s).Some?
    ensures Clean(Validated(s).value)
  {
    DedupeKeeps(s.subnets);
    DedupeKeeps(s.shortNames);
    DedupeKeeps(s.dnsRoutes);
  }

  lemma {:induction false} RestoreIsClean(saved: Option<Saved>)
    ensures CleanState(Restore(saved))
  {
    if saved.Some? {
      if saved.value.active.Some? && Validated(saved.value.active.value).Some? {
        ValidatedIsClean(saved.value.active.value);
      }
      ProfilesClean(Last32(saved.value.profiles));
    }
  }

  lemma {:induction false} PutAllMembers(values: seq<Option<Snapshot>>)
    ensures forall p | p in PutAll([], values) :: Some(p) in values
  {
    if values != [] {
      var n := |values| - 1;
      PutAllMembers(values[..n]);
      if values[n].Some? {
        PutMembers(PutAll([], values[..n]), values[n].value);
        assert values[n] == Some(values[n].value);
      }
    }
  }

  lemma {:induction false} ProfilesClean(raw: seq<Snapshot>)
    ensures forall p | p in RestoreProfiles([], raw) :: Clean(p)
  {
    PutAllMembers(ValidatedAll(raw));
    forall p | p in RestoreProfiles([], raw) ensures Clean(p) {
      var i :| 0 <= i < |raw| && ValidatedAll(raw)[i] == Some(p);
      ValidatedIsClean(raw[i]);
    }
  }

  lemma {:induction false} RunIsClean(s: State, events: seq<Event>)
    requires CleanState(s) && forall i | 0 <= i < |events| :: InputOk(events[i])
    ensures CleanState(Run(s, events))
  {
    if events != [] {
      RunIsClean(s, events[..|events| - 1]);
      StepIsClean(Run(s, events[..|events| - 1]), events[|events| - 1]);
    }
  }

  /** After any run from any restored state, restarting from what was last saved
      gives the same policy on every live state, provided the snapshot is within the
      validator's size limits. */
  lemma {:induction false} RestartKeepsPolicy(stored: Option<Saved>, events: seq<Event>, live: Live)
    requires forall i | 0 <= i < |events| :: InputOk(events[i])
    requires var s := Run(Restore(stored), events);
             s.ready && !s.uncertain && s.saved == Some(SavedOf(s)) && (s.active.Some? ==> Limits(s.active.value))
    ensures var s := Run(Restore(stored), events); Decorate(Restore(s.saved), live) == Decorate(s, live)
  {
    RestoreIsClean(stored);
    RunIsClean(Restore(stored), events);
    RestoredPolicy(Run(Restore(stored), events), live);
  }

  predicate DistinctScopes(profiles: seq<Snapshot>) {
    forall i, j | 0 <= i < j < |profiles| :: profiles[i].scope != profiles[j].scope
  }

  lemma {:induction false} PutDistinct(profiles: seq<Snapshot>, s: Snapshot)
    requires DistinctScopes(profiles)
    ensures DistinctScopes(Put(profiles, s))
  {
    if profiles != [] && profiles[0].scope != s.scope {
      PutDistinct(profiles[1..], s);
      var rest := Put(profiles[1..], s);
      PutMembers(profiles[1..], s);
      forall j | 0 <= j < |rest| ensures rest[j].scope != profiles[0].scope {
        assert rest[j] in rest;
      }
    }
  }

  lemma {:induction false} PutLast(profiles: seq<Snapshot>, s: Snapshot)
    requires forall p | p in profiles :: p.scope != s.scope
    ensures Put(profiles, s) == profiles + [s]
  {
    if profiles != [] {
      PutLast(profiles[1..], s);
    }
  }

  lemma {:induction false} PutAllSame(values: seq<Option<Snapshot>>, raw: seq<Snapshot>)
    requires DistinctScopes(raw) && |values| == |raw| && forall i | 0 <= i < |raw| :: values[i] == Some(raw[i])
    ensures PutAll([], values) == raw
  {
    if raw != [] {
      var n := |raw| - 1;
      PutAllSame(values[..n], raw[..n]);
      PutLast(raw[..n], raw[n]);
    }
  }

  /** With at most 32 accounts within the limits, a restart keeps every account's
      record, so the guarantees above continue across it. */
  lemma {:induction false} RestartKeepsRecords(s: State)
    requires s.saved == Some(SavedOf(s)) && |s.profiles| <= 32 && DistinctScopes(s.profiles)
    requires Filed(s) && CleanState(s) && forall p | p in s.profiles :: Limits(p)
    ensures Restore(s.saved).profiles == s.profiles && Restore(s.saved).active == s.active && Filed(Restore(s.saved))
  {
    forall i | 0 <= i < |s.profiles| ensures Validated(s.profiles[i]) == Some(s.profiles[i]) {
      assert s.profiles[i] in s.profiles;
      ValidatedFixed(s.profiles[i]);
    }
    PutAllSame(ValidatedAll(s.profiles), s.profiles);
    if s.active.Some? {
      assert s.active.value in s.profiles;
      ValidatedFixed(s.active.value);
    }
  }

  lemma {:induction false} RunDistinct(s: State, events: seq<Event>)
    requires DistinctScopes(s.profiles)
    ensures DistinctScopes(Run(s, events).profiles)
  {
    if events != [] {
      var front, e := Run(s, events[..|events| - 1]), events[|events| - 1];
      RunDistinct(s, events[..|events| - 1]);
      StepChanges(front, e);
      if Run(s, events).active.Some? {
        PutDistinct(front.profiles, Run(s, events).active.value);
      }
    }
  }

  lemma {:induction false} PutAllDistinct(values: seq<Option<Snapshot>>)
    ensures DistinctScopes(PutAll([], values))
  {
    if values != [] {
      var n := |values| - 1;
      PutAllDistinct(values[..n]);
      if values[n].Some? {
        PutDistinct(PutAll([], values[..n]), values[n].value);
      }
    }
  }

  /** Two sessions of the browser with a restart between them: the subnets of every
      account recorded in the first are still recorded after the second. */
  lemma {:induction false} SubnetsSurviveRestart(stored: Option<Saved>, first: seq<Event>, second: seq<Event>, scope: Scope)
    requires Filed(Restore(stored)) && forall i | 0 <= i < |first| :: InputOk(first[i])
    requires var s := Run(Restore(stored), first);
             s.saved == Some(SavedOf(s)) && |s.profiles| <= 32 && forall p | p in s.profiles :: Limits(p)
    ensures var s := Run(Restore(stored), first);
            Grows(Find(s.profiles, scope), Find(Run(Restore(s.saved), second).profiles, scope))
  {
    var s := Run(Restore(stored), first);
    SubnetsNeverShrink(Restore(stored), first, scope);
    RestoreIsClean(stored);
    RunIsClean(Restore(stored), first);
    if stored.Some? {
      PutAllDistinct(ValidatedAll(Last32(stored.value.profiles)));
    }
    RunDistinct(Restore(stored), first);
    RestartKeepsRecords(s);
    SubnetsNeverShrink(Restore(s.saved), second, scope);
  }

  /** The remembered account is filed, and every account is filed once. */
  predicate Recorded(s: State) { Filed(s) && DistinctScopes(s.profiles) }

  lemma {:induction false} StepKeepsRecorded(s: State, e: Event)
    ensures Recorded(s) ==> Recorded(Step(s, e))
  {
    if Recorded(s) {
      var t := Step(s, e);
      StepChanges(s, e);
      if t.active.Some? {
        ChangeGrows(s, e, t, t.active.value.scope);
        PutDistinct(s.profiles, t.active.value);
      }
    }
  }
}
