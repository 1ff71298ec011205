/** The routing protection object, whose methods are the steps. */
module RoutingManager {
  import opened Text
  import opened DnsNames
  import opened Policies
  import opened RoutingProtection
  import opened RoutingGuarantees

  /** Setting an account replaces its record in place, or appends one. */
  lemma {:induction false} PutAt(profiles: seq<Snapshot>, s: Snapshot, i: nat)
    requires i <= |profiles| && forall j | 0 <= j < i :: profiles[j].scope != s.scope
    requires i < |profiles| ==> profiles[i].scope == s.scope
    ensures Put(profiles, s) == if i < |profiles| then profiles[i := s] else profiles + [s]
  {
    if i > 0 {
      PutAt(profiles[1..], s, i - 1);
    }
  }

  method MapSet(profiles: seq<Snapshot>, s: Snapshot) returns (r: seq<Snapshot>)
    ensures r == Put(profiles, s)
  {
    var i := 0;
    while i < |profiles| && profiles[i].scope != s.scope
      invariant 0 <= i <= |profiles| && forall j | 0 <= j < i :: profiles[j].scope != s.scope
    {
      i := i + 1;
    }
    PutAt(profiles, s, i);
    r := if i < |profiles| then profiles[i := s] else profiles + [s];
  }

  /** Every stored account that passes the validator, set in order. */
  method MapSetAll(profiles: seq<Snapshot>, raw: seq<Snapshot>) returns (r: seq<Snapshot>)
    ensures r == RestoreProfiles(profiles, raw)
  {
    ghost var values := ValidatedAll(raw);
    r := profiles;
    var i := 0;
    while i < |raw|
      invariant 0 <= i <= |raw| && r == PutAll(profiles, values[..i])
    {
      assert values[..i + 1][..i] == values[..i];
      var value := Validated(raw[i]);
      if value.Some? {
        r := MapSet(r, value.value);
      }
      i := i + 1;
    }
    assert values[..i] == values;
  }

  class Protection {
    var active: Option<Snapshot>
    var profiles: seq<Snapshot>
    var ready: bool
    var uncertain: bool
    var released: bool
    var transitioning: bool
    var transitionScope: Option<Scope>
    var pendingExit: Option<string>
    var pendingDisconnect: bool
    var pendingLogin: bool
    var saved: Option<Saved>

    ghost function View(): State
      reads this
    {
      State(active, profiles, ready, uncertain, released, transitioning, transitionScope, pendingExit,
            pendingDisconnect, pendingLogin, saved)
    }

    constructor ()
      ensures View() == CREATED
    {
      active, profiles, ready, uncertain, released := None, [], false, false, false;
      transitioning, transitionScope, pendingExit, pendingDisconnect, pendingLogin := false, None, None, false, false;
      saved := None;
    }

    method SetProfile(s: Snapshot)
      modifies this`profiles
      ensures profiles == Put(old(profiles), s)
    {
      profiles := MapSet(profiles, s);
    }

    method WriteSaved()
      modifies this
      ensures View() == Save(old(View()))
    {
      if active.Some? {
        SetProfile(active.value);
      }
      saved := Some(Saved(active, Last32(profiles), released, transitioning, transitionScope, pendingExit,
                          pendingDisconnect, pendingLogin));
    }

    method SelectExitNode(id: string)
      modifies this
      ensures View() == Step(old(View()), Event.SelectExitNode(id))
      ensures Recorded(old(View())) ==> Recorded(View())
    {
      StepKeepsRecorded(View(), Event.SelectExitNode(id));
      pendingExit := Some(id);
      released := false;
      if id != "" && active.Some? {
        active := Some(active.value.(selectedExit := Some(id)));
      }
      WriteSaved();
    }

    method RequestDisconnect()
      modifies this
      ensures View() == Step(old(View()), Event.RequestDisconnect)
      ensures Recorded(old(View())) ==> Recorded(View())
    {
      StepKeepsRecorded(View(), Event.RequestDisconnect);
      pendingDisconnect := true;
      WriteSaved();
    }

    method Reconnect()
      modifies this
      ensures View() == Step(old(View()), Event.Reconnect)
      ensures Recorded(old(View())) ==> Recorded(View())
    {
      StepKeepsRecorded(View(), Event.Reconnect);
      if !pendingLogin {
        released := false;
      }
    }

    method StartLogin()
      modifies this
      ensures View() == Step(old(View()), Event.StartLogin)
      ensures Recorded(old(View())) ==> Recorded(View())
    {
      StepKeepsRecorded(View(), Event.StartLogin);
      ReleaseAll(true);
    }

    method Release()
      modifies this
      ensures View() == Step(old(View()), Event.Release)
      ensures Recorded(old(View())) ==> Recorded(View())
    {
      StepKeepsRecorded(View(), Event.Release);
      ReleaseAll(false);
    }

    method ReleaseAll(login: bool)
      modifies this
      ensures View() == ReleaseRouting(old(View()), login)
    {
      transitioning := false;
      transitionScope := None;
      uncertain := false;
      pendingExit := None;
      pendingDisconnect := false;
      pendingLogin := login;
      released := true;
      assert View() == old(View()).(
        transitioning := false, transitionScope := None, uncertain := false, pendingExit := None,
        pendingDisconnect := false, pendingLogin := login, released := true);
      WriteSaved();
    }

    method SwitchFrom(source: Option<Scope>, empty: bool)
      modifies this
      ensures View() == SwitchProfile(old(View()), source, empty)
    {
      released := false;
      pendingLogin := false;
      pendingExit := None;
      pendingDisconnect := false;
      transitioning := true;
      if source.Some? {
        transitionScope := source;
      } else if empty {
        transitionScope := None;
      } else {
        transitionScope := if active.Some? then Some(active.value.scope) else None;
      }
      assert View() == old(View()).(
        released := false, pendingLogin := false, pendingExit := None, pendingDisconnect := false,
        transitioning := true, transitionScope := SourceScope(old(View()), source, empty));
      WriteSaved();
    }

    method SwitchTo(live: Live)
      modifies this
      ensures View() == Step(old(View()), Event.Switch(ScopeOf(live.selfNode, live.prefs), EmptyProfile(live)))
      ensures Recorded(old(View())) ==> Recorded(View())
    {
      StepKeepsRecorded(View(), Event.Switch(ScopeOf(live.selfNode, live.prefs), EmptyProfile(live)));
      SwitchFrom(ScopeOf(live.selfNode, live.prefs), EmptyProfile(live));
    }

    method SettlePending(u: Update)
      modifies this
      ensures View() == Settle(old(View()), u)
    {
      if pendingLogin && u.backend == Running && u.scope.Some? {
        pendingLogin := false;
        released := false;
      }
      assert View() == SettleLogin(old(View()), u);
      label login:
      if u.scope.Some? && u.scope != transitionScope {
        transitioning := false;
        transitionScope := None;
      }
      assert View() == SettleSwitch(old@login(View()), u);
      if u.scope.Some? && (active.None? || u.scope.value != active.value.scope) {
        pendingExit := None;
        pendingDisconnect := false;
      }
    }

    method Remember(s: Snapshot)
      modifies this
      ensures View() == Save(old(View()).(active := Some(s)))
    {
      active := Some(s);
      WriteSaved();
    }

    method AnswerExit(confirmed: Option<string>)
      modifies this
      ensures View() == Answered(old(View()), confirmed)
    {
      if pendingExit.Some? && Or(pendingExit, None) == confirmed {
        pendingExit := None;
      }
    }

    method RecordAccount(u: Update)
      requires u.scope.Some?
      modifies this
      ensures View() == Record(old(View()), u, u.scope.value)
    {
      var prior := if active.Some? && active.value.scope == u.scope.value then active else Find(profiles, u.scope.value);
      var selected := Or(pendingExit, Or(u.exit, if prior.Some? then prior.value.selectedExit else None));
      if pendingExit == Some("") && u.exit.None? {
        selected := None;
      }
      assert selected == Selected(pendingExit, u.exit, prior);
      AnswerExit(u.exit);
      if prior.None? && selected.None? && u.backend != Running {
        return;
      }
      Remember(Learn(u.scope.value, selected, prior, u));
    }

    method ConfirmSteps(u: Update)
      modifies this
      ensures View() == ConfirmStatus(old(View()), u)
    {
      SettlePending(u);
      if pendingDisconnect && (u.backend == Stopped || u.backend == NeedsLogin) {
        ReleaseAll(false);
        return;
      }
      if released || u.scope.None? {
        return;
      }
      RecordAccount(u);
    }

    method ConfirmUpdate(u: Update)
      modifies this
      ensures View() == Step(old(View()), Event.Confirm(u))
      ensures Recorded(old(View())) ==> Recorded(View())
    {
      StepKeepsRecorded(View(), Event.Confirm(u));
      ConfirmSteps(u);
    }

    method Confirm(status: Status)
      modifies this
      ensures View() == Step(old(View()), Event.Confirm(Digest(status)))
      ensures Recorded(old(View())) ==> Recorded(View())
    {
      ConfirmUpdate(Digest(status));
    }

    method RefreshSplit(split: DomainSplit)
      modifies this
      ensures View() == Refresh(old(View()), split)
    {
      if ready && !uncertain && !transitioning && !released && active.Some? && split != active.value.domainSplit {
        active := Some(active.value.(domainSplit := split));
        WriteSaved();
      }
    }

    method ShowSplit(split: DomainSplit)
      modifies this
      ensures View() == Step(old(View()), Event.Show(split))
      ensures Recorded(old(View())) ==> Recorded(View())
    {
      StepKeepsRecorded(View(), Event.Show(split));
      RefreshSplit(split);
    }

    method PolicyFor(live: Live) returns (policy: Policy)
      ensures policy == Decorate(View(), live)
    {
      if !ready || uncertain || transitioning {
        policy := BLOCK_ALL;
      } else if released {
        policy := EMPTY_POLICY;
      } else if active.Some? {
        policy := PolicyOf(active.value, live);
      } else if live.backend == Running && ScopeOf(live.selfNode, live.prefs).None? {
        policy := BLOCK_ALL;
      } else if !ShouldProxy(live) {
        policy := EMPTY_POLICY;
      } else {
        policy := PolicyFromState(live);
      }
    }

    /** The policy is the one for the state after the domain split was refreshed. */
    method DecorateState(live: Live) returns (policy: Policy)
      modifies this
      ensures View() == Step(old(View()), Event.Show(Normalize(live.domainSplit)))
      ensures policy == Decorate(View(), live)
      ensures Recorded(old(View())) ==> Recorded(View())
    {
      ShowSplit(Normalize(live.domainSplit));
      policy := PolicyFor(live);
    }

    method SetSwitch(switching: bool, scope: Option<Scope>)
      modifies this`transitioning, this`transitionScope
      ensures transitioning == switching && transitionScope == scope
    {
      transitioning := switching;
      transitionScope := scope;
    }

    method SetRelease(v: Saved)
      modifies this`released, this`pendingLogin
      ensures released == v.released && pendingLogin == (v.released && v.pendingLogin)
    {
      released := v.released;
      pendingLogin := released && v.pendingLogin;
    }

    method SetActive(v: Saved, valid: Option<Snapshot>)
      modifies this`active, this`pendingExit, this`pendingDisconnect, this`uncertain
      ensures active == valid && uncertain == (v.active.Some? && valid.None?)
      ensures pendingExit == RestoredExit(old(pendingExit), v, valid)
      ensures pendingDisconnect == if valid.None? then old(pendingDisconnect) else v.pendingDisconnect
    {
      active := valid;
      if active.Some? {
        pendingExit := if v.pendingExit.Some? && |v.pendingExit.value| <= 256 then v.pendingExit else None;
        pendingDisconnect := v.pendingDisconnect;
      }
      uncertain := v.active.Some? && active.None?;
    }

    method SetFlags(v: Saved, valid: Option<Snapshot>, scope: Option<Scope>)
      modifies this
      ensures View() == RestoreFlags(old(View()), v, valid, scope)
    {
      SetRelease(v);
      SetSwitch(v.transitioning, scope);
      SetActive(v, valid);
    }

    method RestoreRecords(raw: seq<Snapshot>)
      modifies this`profiles
      ensures profiles == RestoreProfiles(old(profiles), raw)
    {
      profiles := MapSetAll(profiles, raw);
    }

    /** The read of the stored value has returned. */
    method RestoreFrom(reading: Reading, changed: bool)
      modifies this
      ensures View() == RestoreInto(old(View()), changed, reading)
    {
      if changed {
      } else if reading.ReadFailed? {
        uncertain := true;
      } else if reading.saved.Some? {
        var v := reading.saved.value;
        var valid := if v.active.Some? then Validated(v.active.value) else None;
        SetFlags(v, valid, RestoredScope(v.transitionScope, valid));
        RestoreRecords(Last32(v.profiles));
      }
      ready := true;
    }
  }
}
