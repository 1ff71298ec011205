/** What an account transition does to everything that began before it, and that no
    transition can get stuck. */
module HostTransitions {
  import opened Text
  import opened HostSession

  // ---------- what began before a transition ends with it ----------

  /** The critical section in which the session changes hands: detaching the client, or
      invalidating the profile of the client that is current. */
  predicate Renews(s: State, c: Change) {
    && s.command.Some? && s.command.value.phase == Drained && s.attempts == map[]
    && match s.command.value.kind
       case Init => c.Detach?
       case Shutdown => c.Detach?
       case Profile(lc) => c.Invalidate? && s.session.lc == Some(lc)
       case Logout(lc) => c.Invalidate? && s.session.lc == Some(lc)
  }

  /** It begins a new generation, in which no map is reachable. */
  lemma {:induction false} RenewalIsFresh(s: State, c: Change)
    requires Renews(s, c)
    ensures var t := CommandStep(s, c);
            t.session.generation > s.session.generation && (t.session.lc.None? || t.cache.netMap.None?)
  {
  }

  /** A change of session or of client is a renewal, or publishes a client into a session
      that has none and whose map was cleared. */
  lemma {:induction false} OnlyRenewalsChange(s: State, a: Action)
    requires Inv(s) && Step(s, a).session != s.session
    ensures a.OfCommand? && (Renews(s, a.change) || (a.change.Publish? && s.session.lc.None? && s.cache.netMap.None?
                                                     && Step(s, a).session == Session(Some(a.change.lc), s.session.generation)))
  {
    match a {
      case OfWeb(r) => WebStepFrame(s, r);
      case OfWatcher(w) => WatcherStepFrame(s, w);
      case OfDial(d) => DialStepFrame(s, d);
      case OfCommand(c) => ChangeOfSession(s, c);
    }
  }

  lemma {:induction false} ChangeOfSession(s: State, c: Change)
    requires CacheInv(s) && CommandStep(s, c).session != s.session
    ensures Renews(s, c) || (c.Publish? && s.session.lc.None? && s.cache.netMap.None?
                             && CommandStep(s, c).session == Session(Some(c.lc), s.session.generation))
  {
  }

  /** In every run, nothing that began before a renewal outlives it: a connection attempt
      has its session from after it, so has the watcher that stored the map in force, and
      so has every request that is admitted. */
  lemma {:induction false} OldSessionsAreDead(actions: seq<Action>, i: nat)
    requires i < |actions| && actions[i].OfCommand? && Renews(Run(STARTED, actions[..i]), actions[i].change)
    ensures var g, s := Run(STARTED, actions[..i]).session.generation, Run(STARTED, actions);
            && (forall a | a in s.attempts :: s.attempts[a].dial.generation > g)
            && (forall d | d in Run(STARTED, actions[..i]).dials :: Run(STARTED, actions[..i]).dials[d].generation <= g)
            && (s.session.lc.Some? && s.cache.netMap.Some? ==> s.cache.author > g)
            && (forall r | r in s.web.counted :: s.web.counted[r].generation > g)
  {
    RunKeeps(actions[..i]);
    RenewalIsFresh(Run(STARTED, actions[..i]), actions[i].change);
    assert actions[..i + 1][..i] == actions[..i];
    GenerationsGrow(actions, i + 1);
    RunKeeps(actions);
  }

  // ---------- who is admitted ----------

  /** In every run: a new request is admitted, under the current identity, if and only if
      no transition is under way that has not reopened admission. */
  lemma {:induction false} AdmittedIff(actions: seq<Action>, r: nat)
    requires r !in Run(STARTED, actions).web.counted
    ensures var s := Run(STARTED, actions); var t := Step(s, OfWeb(Admit(r)));
            && (r in t.web.counted <==> s.command.None? || s.command.value.phase.Reopened?)
            && (r in t.web.counted ==> t.web.counted[r] == s.session && r in t.web.active)
  {
    RunKeeps(actions);
  }

  // ---------- no transition gets stuck ----------

  lemma {:induction false} Unused(used: set<nat>) returns (n: nat)
    ensures forall m | m in used :: m < n
  {
    if used == {} {
      n := 0;
    } else {
      var x :| x in used;
      n := Unused(used - {x});
      assert used == (used - {x}) + {x};
      n := if n > x then n else x + 1;
    }
  }

  lemma {:induction false} OneMore(s: State, actions: seq<Action>, a: Action)
    ensures Run(s, actions + [a]) == Step(Run(s, actions), a)
  {
    assert (actions + [a])[..|actions|] == actions;
  }

  /** Connection attempts end. */
  lemma {:induction false} AttemptsEnd(s: State) returns (actions: seq<Action>)
    ensures Run(s, actions) == s.(attempts := map[])
    decreases s.attempts.Keys
  {
    actions := [];
    if s.attempts != map[] {
      var a :| a in s.attempts;
      var t := Step(s, OfDial(Connect(a)));
      assert t.attempts.Keys == s.attempts.Keys - {a};
      var rest := AttemptsEnd(t);
      actions := [OfDial(Connect(a))] + rest;
      RunJoins(s, [OfDial(Connect(a))], rest);
      OneMore(s, [], OfDial(Connect(a)));
    }
  }

  /** Web requests end. */
  lemma {:induction false} RequestsEnd(s: State) returns (actions: seq<Action>)
    requires s.web.active <= s.web.counted.Keys
    ensures Run(s, actions) == s.(web := s.web.(active := {}, counted := map[]))
    decreases s.web.counted.Keys
  {
    actions := [];
    if s.web.counted != map[] {
      var r :| r in s.web.counted;
      var first := [OfWeb(Leave(r)), OfWeb(Done(r))];
      var t := DoneRequest(LeaveRequest(s, r), r);
      assert t.web.counted.Keys == s.web.counted.Keys - {r};
      assert t.web.active == s.web.active - {r};
      var rest := RequestsEnd(t);
      actions := first + rest;
      RunJoins(s, first, rest);
      OneMore(s, [], first[0]);
      OneMore(s, [first[0]], first[1]);
      assert [first[0]] + [first[1]] == first;
    }
  }

  /** How many phases a transition still has before it. */
  function Left(phase: Phase): nat {
    match phase
    case Closing => 6
    case Drained => 5
    case Detached => 4
    case Cleared(_) => 3
    case Published(_, _) => 2
    case Invalidated(_) => 2
    case Finished => 1
    case Reopened => 0
  }

  /** What the holder of `commandMu` does next. */
  function NextChange(c: Command, w: nat): Change {
    match c.phase
    case Closing => Drain
    case Drained => if Invalidates(c.kind) then Invalidate else Change.Detach
    case Detached => ClearCache
    case Cleared(_) => GiveUp
    case Published(_, _) => Change.Watch(w)
    case Invalidated(_) => Change.Watch(w)
    case Finished => Reopen
    case Reopened => EndCommand
  }

  /** Nothing keeps a transition from its next phase. */
  predicate Ready(s: State) {
    && s.command.Some? && s.attempts == map[]
    && (s.command.value.phase.Closing? ==> s.web.counted == map[])
    && (s.command.value.phase.Invalidated? ==> Invalidates(s.command.value.kind))
  }

  predicate Nearer(s: State, t: State)
    requires s.command.Some?
  {
    Ready(t) && Left(t.command.value.phase) < Left(s.command.value.phase)
  }

  lemma {:induction false} BeginsOn(s: State, w: nat)
    requires Ready(s) && (s.command.value.phase.Closing? || s.command.value.phase.Drained?)
    ensures Nearer(s, CommandStep(s, NextChange(s.command.value, w)))
  {
  }

  lemma {:induction false} PublishesOn(s: State, w: nat)
    requires Ready(s) && (s.command.value.phase.Detached? || s.command.value.phase.Cleared?)
    ensures Nearer(s, CommandStep(s, NextChange(s.command.value, w)))
  {
  }

  lemma {:induction false} WatchesOn(s: State, w: nat)
    requires Ready(s) && w !in s.watchers && (s.command.value.phase.Published? || s.command.value.phase.Invalidated?)
    ensures Nearer(s, CommandStep(s, NextChange(s.command.value, w)))
  {
  }

  lemma {:induction false} ReopensOn(s: State, w: nat)
    requires Ready(s) && (s.command.value.phase.Finished? || s.command.value.phase.Reopened?)
    ensures var t := CommandStep(s, NextChange(s.command.value, w));
            if s.command.value.phase.Reopened? then t.command.None? else Nearer(s, t)
  {
  }

  /** With no request left and no attempt holding the lock, a transition goes on. */
  lemma {:induction false} GoesOn(s: State, w: nat)
    requires Ready(s) && w !in s.watchers
    ensures var t := Step(s, OfCommand(NextChange(s.command.value, w)));
            if s.command.value.phase.Reopened? then t.command.None? else Nearer(s, t)
  {
    match s.command.value.phase {
      case Closing => BeginsOn(s, w);
      case Drained => BeginsOn(s, w);
      case Detached => PublishesOn(s, w);
      case Cleared(_) => PublishesOn(s, w);
      case Published(_, _) => WatchesOn(s, w);
      case Invalidated(_) => WatchesOn(s, w);
      case Finished => ReopensOn(s, w);
      case Reopened => ReopensOn(s, w);
    }
  }

  lemma {:induction false} CommandEnds(s: State) returns (actions: seq<Action>)
    requires Ready(s)
    ensures Run(s, actions).command.None?
    decreases Left(s.command.value.phase)
  {
    var w := Unused(s.watchers.Keys);
    var next := OfCommand(NextChange(s.command.value, w));
    GoesOn(s, w);
    OneMore(s, [], next);
    actions := [next];
    if Step(s, next).command.Some? {
      var rest := CommandEnds(Step(s, next));
      RunJoins(s, [next], rest);
      actions := [next] + rest;
    }
  }

  // ---------- the checks that a transition repeats ----------

  /** The session between the phases of a transition: nobody else changes it. */
  predicate PhaseInv(s: State) {
    s.command.Some? ==>
      match s.command.value.phase
      case Detached => s.session.lc.None?
      case Cleared(g) => s.session == Session(None, g)
      case Published(lc, g) => s.session == Session(Some(lc), g)
      case Invalidated(g) => Invalidates(s.command.value.kind) && s.session == Session(Some(s.command.value.kind.lc), g)
      case _ => true
  }

  lemma {:induction false} EarlyPhases(s: State, c: Change)
    requires PhaseInv(s) && (c.Begin? || c.Drain? || c.Detach? || c.ClearCache? || c.Invalidate?)
    ensures PhaseInv(CommandStep(s, c))
  {
  }

  lemma {:induction false} LatePhases(s: State, c: Change)
    requires PhaseInv(s) && !(c.Begin? || c.Drain? || c.Detach? || c.ClearCache? || c.Invalidate?)
    ensures PhaseInv(CommandStep(s, c))
  {
  }

  lemma {:induction false} StepPhases(s: State, a: Action)
    requires PhaseInv(s)
    ensures PhaseInv(Step(s, a))
  {
    match a {
      case OfWeb(r) => WebStepFrame(s, r);
      case OfWatcher(w) => WatcherStepFrame(s, w);
      case OfDial(d) => DialStepFrame(s, d);
      case OfCommand(c) =>
        if c.Begin? || c.Drain? || c.Detach? || c.ClearCache? || c.Invalidate? {
          EarlyPhases(s, c);
        } else {
          LatePhases(s, c);
        }
    }
  }

  lemma {:induction false} RunPhases(actions: seq<Action>)
    ensures PhaseInv(Run(STARTED, actions))
  {
    if actions != [] {
      RunPhases(actions[..|actions| - 1]);
      StepPhases(Run(STARTED, actions[..|actions| - 1]), actions[|actions| - 1]);
    }
  }

  /** In every run the checks of client and generation that a transition makes before it
      publishes and before it starts its watcher hold: it publishes its own client, and a
      watcher of the new session starts. */
  lemma {:induction false} TransitionIsNotOvertaken(actions: seq<Action>, lc: nat, w: nat)
    requires var s := Run(STARTED, actions); s.command.Some? && s.attempts == map[] && w !in s.watchers
    ensures var s := Run(STARTED, actions); var t, u := Step(s, OfCommand(Publish(lc))), Step(s, OfCommand(Change.Watch(w)));
            && (s.command.value.phase.Cleared? ==>
                  t.session == Session(Some(lc), s.session.generation) && In(t, Published(lc, s.session.generation)))
            && (s.command.value.phase.Published? || s.command.value.phase.Invalidated? ==>
                  && s.session.lc.Some? && u.session == s.session && In(u, Finished)
                  && w in u.watchers && u.watchers[w] == Watcher(s.session.lc.value, s.session.generation, None))
  {
    RunPhases(actions);
    var s := Run(STARTED, actions);
    if s.command.value.phase.Published? || s.command.value.phase.Invalidated? {
      WatchStarts(s, w);
    }
  }

  lemma {:induction false} WatchStarts(s: State, w: nat)
    requires PhaseInv(s) && s.command.Some? && s.attempts == map[] && w !in s.watchers
    requires s.command.value.phase.Published? || s.command.value.phase.Invalidated?
    ensures var u := StartWatch(s, w);
            && s.session.lc.Some? && u.session == s.session && In(u, Finished)
            && w in u.watchers && u.watchers[w] == Watcher(s.session.lc.value, s.session.generation, None)
  {
  }

  /** A command gives up only before it has changed a session that is in use: a login that
      found no client, or a logout that was refused. */
  lemma {:induction false} GivesUpIff(actions: seq<Action>)
    ensures var s := Run(STARTED, actions); var t := Step(s, OfCommand(GiveUp));
            && t.session == s.session && t.cache == s.cache
            && (t != s <==> s.command.Some?
                            && (s.command.value.phase.Cleared? || (s.command.value.kind.Logout? && s.command.value.phase == Drained)))
            && (t != s ==> In(t, Finished))
  {
  }

  // ---------- watchers and dials ----------

  /** In every run: a watcher of the current client and generation puts what it fetched
      into the cache, or nothing after a reset; any other watcher ends and leaves the cache
      as it is. */
  lemma {:induction false} StoreIs(actions: seq<Action>, w: nat, reset: bool)
    requires w in Run(STARTED, actions).watchers
    ensures var s := Run(STARTED, actions); var x, t := s.watchers[w], Step(s, OfWatcher(Watching.Store(w, reset)));
            if s.session.lc == Some(x.lc) && s.session.generation == x.generation then
              t.cache.netMap == (if reset then None else x.fetched) && t.cache.author == x.generation && w in t.watchers
            else t.cache == s.cache && w !in t.watchers
  {
  }

  /** In every run a dial passes the destination policy if and only if it has addresses and
      the map it read permits every one of them; else it ends. */
  lemma {:induction false} CheckedIff(actions: seq<Action>, d: nat, ips: seq<Address>)
    requires d in Run(STARTED, actions).dials && Run(STARTED, actions).dials[d].HasMap?
    ensures var s := Run(STARTED, actions); var x, t := s.dials[d], Step(s, OfDial(Check(d, ips)));
            && x.chart < |s.made|
            && (if ips != [] && forall i | 0 <= i < |ips| :: (x.prefs, ips[i]) in s.made[x.chart].permitted
                then d in t.dials && t.dials[d] == Checked(x.lc, x.generation, x.prefs, x.chart, ips)
                else d !in t.dials)
  {
    RunKeeps(actions);
    assert DialOk(Run(STARTED, actions), Run(STARTED, actions).dials[d]);
  }

  // ---------- every transition can end ----------

  /** From every reachable state the transition under way can be brought to its end by
      requests, attempts and the transition itself, without any new input; then every new
      request is admitted again. */
  lemma {:induction false} TransitionCanEnd(actions: seq<Action>) returns (more: seq<Action>)
    ensures var t := Run(STARTED, actions + more);
            t.command.None? && !t.web.changing && forall r | r !in t.web.counted :: r in Step(t, OfWeb(Admit(r))).web.counted
  {
    var s := Run(STARTED, actions);
    RunKeeps(actions);
    RunPhases(actions);
    more := [];
    if s.command.Some? {
      var first := RequestsEnd(s);
      var t := Run(s, first);
      var second := AttemptsEnd(t);
      var u := Run(t, second);
      var third := CommandEnds(u);
      RunJoins(s, first, second);
      RunJoins(s, first + second, third);
      more := first + second + third;
    }
    RunJoins(STARTED, actions, more);
    RunKeeps(actions + more);
  }
}
