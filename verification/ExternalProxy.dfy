/** The app-facing proxy: who owns it, what is saved, and what listens. */
module ExternalProxy {
  import opened Text

  datatype Config = Config(enabled: bool, allowLAN: bool, port: nat, owner: string, password: nat)

  /** A bound listener: wildcard or loopback address, and the password it asks for. */
  datatype Listener = Listener(wildcard: bool, port: nat, password: nat)

  datatype State = State(config: Config, file: Config, listener: Option<Listener>, host: bool, operations: nat)

  /** What one save or bind does; `port` is the port the system picks. */
  datatype Outcome = Outcome(works: bool, port: nat)

  type Oracle = nat -> Outcome

  predicate OwnerOk(id: string) {
    1 <= |id| <= 64
    && forall i | 0 <= i < |id| ::
         ('a' <= id[i] <= 'z') || ('A' <= id[i] <= 'Z') || ('0' <= id[i] <= '9') || id[i] == '_' || id[i] == '-'
  }

  // ---------- the steps ----------

  /** A failed save leaves the file as it was. */
  function Save(s: State, o: Oracle): (State, bool) {
    var t := s.(operations := s.operations + 1);
    if o(s.operations).works then (t.(file := s.config), true) else (t, false)
  }

  function Start(s: State, o: Oracle): (State, bool) {
    if !s.host then (s, false)
    else
      var t := s.(operations := s.operations + 1);
      if !o(s.operations).works then (t, false)
      else if s.config.port != 0 then (Listening(t), true)
      else
        var saved := Save(t.(config := t.config.(port := o(s.operations).port)), o);
        if saved.1 then (Listening(saved.0), true) else saved
  }

  function Listening(s: State): State {
    s.(listener := Some(Listener(s.config.allowLAN, s.config.port, s.config.password)))
  }

  function StartIfStopped(s: State, o: Oracle): (State, bool) {
    if s.listener.None? then Start(s, o) else (s, true)
  }

  function Disabled(s: State): State {
    s.(config := s.config.(enabled := false, allowLAN := false, owner := ""), listener := None)
  }

  function EnableFor(s: State, owner: string, host: bool, o: Oracle): (State, bool) {
    if !OwnerOk(owner) || !host then (s, false)
    else if s.config.enabled && s.config.owner != "" && s.config.owner != owner then (s, false)
    else
      var started := StartIfStopped(s.(config := s.config.(enabled := true, owner := owner), host := true), o);
      var saved := Save(started.0, o);
      (saved.0, started.1 && saved.1)
  }

  function Enable(s: State, o: Oracle): (State, bool) {
    if !s.host then (s, false)
    else
      var started := StartIfStopped(s.(config := s.config.(enabled := true)), o);
      var saved := Save(started.0, o);
      (saved.0, started.1 && saved.1)
  }

  function AllowLAN(s: State, allow: bool, owner: string, o: Oracle): (State, bool) {
    if !s.config.enabled || s.config.owner != owner then (s, false)
    else if s.config.allowLAN == allow && s.listener.Some? then (s, true)
    else
      var saved := Save(s.(config := s.config.(allowLAN := allow)), o);
      if !saved.1 then (saved.0.(config := s.config), false)
      else Start(saved.0.(listener := None), o)
  }

  function Attach(s: State, owner: string, host: bool, o: Oracle): (State, bool) {
    if s.config.owner != owner then (s, false)
    else
      var t := s.(host := host);
      if t.config.enabled then StartIfStopped(t, o) else (t, true)
  }

  function Rotate(s: State, password: nat, o: Oracle): (State, bool) {
    var saved := Save(s.(config := s.config.(password := password)), o);
    if !saved.1 then saved
    else if saved.0.listener.None? then Save(saved.0, o)
    else
      var started := Start(saved.0.(listener := None), o);
      if started.1 then Save(started.0, o) else started
  }

  datatype Event =
    | SetEnabledFor(enabled: bool, owner: string, host: bool)
    | SetEnabled(enabled: bool)
    | SetAllowLAN(allow: bool, owner: string)
    | Reattach(owner: string, host: bool)
    | RotateCredentials(password: nat)
    | Close

  function Step(s: State, e: Event, o: Oracle): (State, bool) {
    match e
    case SetEnabledFor(enabled, owner, host) => if enabled then EnableFor(s, owner, host, o) else Save(Disabled(s).(host := false), o)
    case SetEnabled(enabled) => if enabled then Enable(s, o) else Save(Disabled(s), o)
    case SetAllowLAN(allow, owner) => AllowLAN(s, allow, owner, o)
    case Reattach(owner, host) => Attach(s, owner, host, o)
    case RotateCredentials(password) => Rotate(s, password, o)
    case Close => (s.(listener := None), true)
  }

  function Run(s: State, events: seq<Event>, o: Oracle): State {
    if events == [] then s else Step(Run(s, events[..|events| - 1], o), events[|events| - 1], o).0
  }

  /** `newExternalProxy`: the configuration read, saved again, and started if enabled. */
  function Created(config: Config, host: bool, o: Oracle): Option<State> {
    var saved := Save(State(config, config, None, host, 0), o);
    if config.port > 65535 || !saved.1 then None
    else if config.enabled && host then Some(Start(saved.0, o).0) else Some(saved.0)
  }

  // ---------- what every step keeps ----------

  /** A live listener is an enabled one, it is bound to the wildcard address exactly
      when memory allows the LAN, and memory allows it only if the file does. */
  predicate Inv(s: State) {
    && (s.listener.Some? ==> s.config.enabled && s.listener.value.wildcard == s.config.allowLAN)
    && (s.config.allowLAN ==> s.file.allowLAN)
  }

  lemma {:induction false} StartKeeps(s: State, o: Oracle)
    requires Inv(s) && s.config.enabled
    ensures Inv(Start(s, o).0)
    ensures Start(s, o).0.config == s.config.(port := Start(s, o).0.config.port)
    ensures s.listener.None? ==> Start(s, o).1 == Start(s, o).0.listener.Some?
  {
  }

  lemma {:induction false} StepKeeps(s: State, e: Event, o: Oracle)
    requires Inv(s)
    ensures Inv(Step(s, e, o).0)
  {
    match e {
      case SetEnabledFor(enabled, owner, host) =>
        if enabled {
          StartKeeps(s.(config := s.config.(enabled := true, owner := owner), host := true), o);
        }
      case SetEnabled(enabled) =>
        if enabled {
          StartKeeps(s.(config := s.config.(enabled := true)), o);
        }
      case SetAllowLAN(allow, owner) =>
        var saved := Save(s.(config := s.config.(allowLAN := allow)), o);
        if s.config.enabled && saved.1 {
          StartKeeps(saved.0.(listener := None), o);
        }
      case Reattach(owner, host) =>
        if s.config.enabled {
          StartKeeps(s.(host := host), o);
        }
      case RotateCredentials(password) =>
        var saved := Save(s.(config := s.config.(password := password)), o);
        if saved.1 && s.listener.Some? {
          StartKeeps(saved.0.(listener := None), o);
        }
      case Close =>
    }
  }

  lemma {:induction false} KeepsInv(s: State, e: Event, o: Oracle)
    ensures Inv(s) ==> Inv(Step(s, e, o).0)
  {
    if Inv(s) {
      StepKeeps(s, e, o);
    }
  }

  /** Over any sequence of steps, with saves and binds failing in any pattern. */
  lemma {:induction false} AlwaysSafe(config: Config, host: bool, events: seq<Event>, o: Oracle)
    requires Created(config, host, o).Some?
    ensures var s := Run(Created(config, host, o).value, events, o);
            && (s.listener.Some? ==> s.config.enabled && s.listener.value.wildcard == s.config.allowLAN)
            && (s.listener.Some? && s.listener.value.wildcard ==> s.file.allowLAN)
  {
    RunKeeps(config, host, events, o);
  }

  lemma {:induction false} RunKeeps(config: Config, host: bool, events: seq<Event>, o: Oracle)
    requires Created(config, host, o).Some?
    ensures Inv(Run(Created(config, host, o).value, events, o))
  {
    if events != [] {
      RunKeeps(config, host, events[..|events| - 1], o);
      StepKeeps(Run(Created(config, host, o).value, events[..|events| - 1], o), events[|events| - 1], o);
    }
  }

  predicate Disables(e: Event) { (e.SetEnabledFor? || e.SetEnabled?) && !e.enabled }

  lemma {:induction false} StepKeepsOwner(s: State, e: Event, o: Oracle)
    requires s.config.enabled && s.config.owner != "" && !Disables(e)
    ensures Step(s, e, o).0.config.enabled && Step(s, e, o).0.config.owner == s.config.owner
    ensures ((e.SetEnabledFor? && e.enabled) || e.SetAllowLAN? || e.Reattach?) && e.owner != s.config.owner ==> Step(s, e, o) == (s, false)
  {
  }

  /** An enabled proxy stays its owner's until it is disabled, through any steps and
      failures, and refuses every other profile meanwhile. */
  lemma {:induction false} OthersCannotTakeOver(s: State, events: seq<Event>, e: Event, o: Oracle)
    requires s.config.enabled && s.config.owner != "" && forall i | 0 <= i < |events| :: !Disables(events[i])
    ensures var t := Run(s, events, o);
            && t.config.enabled && t.config.owner == s.config.owner
            && (((e.SetEnabledFor? && e.enabled) || e.SetAllowLAN? || e.Reattach?) && e.owner != s.config.owner
                ==> Step(t, e, o) == (t, false))
  {
    if events != [] {
      var n := |events| - 1;
      OthersCannotTakeOver(s, events[..n], e, o);
      StepKeepsOwner(Run(s, events[..n], o), events[n], o);
    }
    if !Disables(e) {
      StepKeepsOwner(Run(s, events, o), e, o);
    }
  }

  /** A rotation revokes the old password of a live listener if and only if its first
      save works: when that save fails the listener goes on with the old password
      while memory holds the new one. */
  lemma {:induction false} RotationRevokes(s: State, password: nat, o: Oracle)
    requires Inv(s) && s.listener.Some? && s.listener.value.password != password
    ensures var t := Step(s, RotateCredentials(password), o).0;
            && (o(s.operations).works <==> t.listener.None? || t.listener.value.password == t.config.password)
            && (!o(s.operations).works ==> t.listener == s.listener && t.config.password == password && t.file == s.file)
  {
  }

  /** What a successful step promises of the state after it. */
  predicate Done(s: State, e: Event, t: State) {
    match e
    case SetEnabledFor(enabled, owner, _) =>
      && t.config.enabled == enabled && t.listener.Some? == enabled && t.file == t.config
      && t.config.owner == (if enabled then owner else "") && (!enabled ==> !t.config.allowLAN)
    case SetEnabled(enabled) => t.config.enabled == enabled && t.listener.Some? == enabled && t.file == t.config
    case SetAllowLAN(allow, _) =>
      t.listener.Some? && t.listener.value.wildcard == allow && t.config.allowLAN == allow && (allow ==> t.file.allowLAN)
    case Reattach(_, host) => t.host == host && (t.config.enabled ==> t.listener.Some?)
    case RotateCredentials(password) =>
      && t.file == t.config && t.config.password == password && t.listener.Some? == s.listener.Some?
      && (t.listener.Some? ==> t.listener.value.password == password)
    case Close => t.listener.None?
  }

  lemma {:induction false} SuccessDone(s: State, e: Event, o: Oracle)
    requires Inv(s) && Step(s, e, o).1
    ensures Done(s, e, Step(s, e, o).0)
  {
  }

  /** Over any run with any failures, a step that reports success did what was asked, in
      memory, on the network and, for what must outlive the process, in the file. */
  lemma {:induction false} SuccessIsReal(config: Config, host: bool, events: seq<Event>, e: Event, o: Oracle)
    requires Created(config, host, o).Some?
    requires Step(Run(Created(config, host, o).value, events, o), e, o).1
    ensures var s := Run(Created(config, host, o).value, events, o); Done(s, e, Step(s, e, o).0)
  {
    RunKeeps(config, host, events, o);
    SuccessDone(Run(Created(config, host, o).value, events, o), e, o);
  }

  // ---------- exactly when a step succeeds, and what it leaves alone ----------

  /** What no save or bind can mend: an owner that is no profile name, a helper that is
      not attached, or a proxy that belongs to another profile. */
  predicate Refused(s: State, e: Event) {
    match e
    case SetEnabledFor(enabled, owner, host) =>
      enabled && (!OwnerOk(owner) || !host || (s.config.enabled && s.config.owner != "" && s.config.owner != owner))
    case SetEnabled(enabled) => enabled && !s.host
    case SetAllowLAN(allow, owner) =>
      !s.config.enabled || s.config.owner != owner || (!s.host && (s.config.allowLAN != allow || s.listener.None?))
    case Reattach(owner, host) => s.config.owner != owner || (s.config.enabled && s.listener.None? && !host)
    case RotateCredentials(_) => !s.host && s.listener.Some?
    case Close => false
  }

  /** Every save and bind made between two states worked. */
  predicate AllWorked(s: State, t: State, o: Oracle) {
    forall k | s.operations <= k < t.operations :: o(k).works
  }

  lemma {:induction false} SaveWorksIff(s: State, o: Oracle)
    ensures Save(s, o).0.operations == s.operations + 1 && (Save(s, o).1 <==> AllWorked(s, Save(s, o).0, o))
  {
    assert AllWorked(s, Save(s, o).0, o) ==> o(s.operations).works;
  }

  lemma {:induction false} StartWorksIff(s: State, o: Oracle)
    ensures Start(s, o).0.operations >= s.operations
    ensures Start(s, o).1 <==> s.host && AllWorked(s, Start(s, o).0, o)
  {
    var n, t := s.operations, Start(s, o).0;
    assert AllWorked(s, t, o) && t.operations > n ==> o(n).works;
    assert AllWorked(s, t, o) && t.operations > n + 1 ==> o(n + 1).works;
  }

  lemma {:induction false} WorkedOn(s: State, t: State, u: State, o: Oracle)
    requires s.operations <= t.operations <= u.operations
    ensures AllWorked(s, u, o) <==> AllWorked(s, t, o) && AllWorked(t, u, o)
  {
  }

  lemma {:induction false} StartedAndSaved(s: State, o: Oracle)
    ensures var started := StartIfStopped(s, o); var saved := Save(started.0, o);
            && saved.0.operations >= s.operations
            && (started.1 && saved.1 <==> (s.listener.Some? || s.host) && AllWorked(s, saved.0, o))
  {
    var started := StartIfStopped(s, o);
    StartWorksIff(s, o);
    SaveWorksIff(started.0, o);
    WorkedOn(s, started.0, Save(started.0, o).0, o);
  }

  lemma {:induction false} SavedAndStarted(s: State, t: State, o: Oracle)
    requires s.operations <= t.operations
    ensures var started := Start(t, o);
            started.0.operations >= t.operations
            && (AllWorked(s, started.0, o) <==> AllWorked(s, t, o) && AllWorked(t, started.0, o))
            && (started.1 <==> t.host && AllWorked(t, started.0, o))
  {
    StartWorksIff(t, o);
    WorkedOn(s, t, Start(t, o).0, o);
  }

  lemma {:induction false} AllowLANIff(s: State, allow: bool, owner: string, o: Oracle)
    ensures var t := AllowLAN(s, allow, owner, o);
            t.0.operations >= s.operations && (t.1 <==> !Refused(s, SetAllowLAN(allow, owner)) && AllWorked(s, t.0, o))
  {
    var saved := Save(s.(config := s.config.(allowLAN := allow)), o);
    SaveWorksIff(s.(config := s.config.(allowLAN := allow)), o);
    SavedAndStarted(s, saved.0.(listener := None), o);
  }

  lemma {:induction false} RotateIff(s: State, password: nat, o: Oracle)
    ensures var t := Rotate(s, password, o);
            t.0.operations >= s.operations && (t.1 <==> !Refused(s, RotateCredentials(password)) && AllWorked(s, t.0, o))
  {
    var saved := Save(s.(config := s.config.(password := password)), o);
    SaveWorksIff(s.(config := s.config.(password := password)), o);
    SaveWorksIff(saved.0, o);
    WorkedOn(s, saved.0, Save(saved.0, o).0, o);
    var started := Start(saved.0.(listener := None), o);
    SavedAndStarted(s, saved.0.(listener := None), o);
    SaveWorksIff(started.0, o);
    WorkedOn(s, started.0, Save(started.0, o).0, o);
  }

  /** For every state, step and pattern of failures: a step succeeds if and only if it is
      not refused and every save and bind it makes works. */
  lemma {:induction false} SucceedsIff(s: State, e: Event, o: Oracle)
    ensures var t := Step(s, e, o);
            t.0.operations >= s.operations && (t.1 <==> !Refused(s, e) && AllWorked(s, t.0, o))
  {
    match e {
      case SetEnabledFor(enabled, owner, host) =>
        StartedAndSaved(s.(config := s.config.(enabled := true, owner := owner), host := true), o);
        SaveWorksIff(Disabled(s).(host := false), o);
      case SetEnabled(enabled) =>
        StartedAndSaved(s.(config := s.config.(enabled := true)), o);
        SaveWorksIff(Disabled(s), o);
      case SetAllowLAN(allow, owner) => AllowLANIff(s, allow, owner, o);
      case Reattach(owner, host) => StartWorksIff(s.(host := host), o);
      case RotateCredentials(password) => RotateIff(s, password, o);
      case Close =>
    }
  }

  /** The settings that a step may not change. */
  predicate Leaves(s: State, e: Event, t: State) {
    var c, d := s.config, t.config;
    && (!e.RotateCredentials? ==> d.password == c.password)
    && (c.port != 0 ==> d.port == c.port)
    && (!e.SetAllowLAN? && !Disables(e) ==> d.allowLAN == c.allowLAN)
    && (!e.SetEnabledFor? && !Disables(e) ==> d.owner == c.owner)
    && (!e.SetEnabledFor? && !e.SetEnabled? ==> d.enabled == c.enabled)
    && (!e.SetEnabledFor? && !e.Reattach? ==> t.host == s.host)
  }

  lemma {:induction false} EnableLeaves(s: State, e: Event, o: Oracle)
    requires e.SetEnabledFor? || e.SetEnabled?
    ensures Leaves(s, e, Step(s, e, o).0)
  {
    if e.SetEnabledFor? {
      StartLeaves(s.(config := s.config.(enabled := true, owner := e.owner), host := true), o);
    } else {
      StartLeaves(s.(config := s.config.(enabled := true)), o);
    }
  }

  lemma {:induction false} AllowLeaves(s: State, e: Event, o: Oracle)
    requires e.SetAllowLAN?
    ensures Leaves(s, e, Step(s, e, o).0)
  {
    StartLeaves(Save(s.(config := s.config.(allowLAN := e.allow)), o).0.(listener := None), o);
  }

  lemma {:induction false} RotateLeaves(s: State, e: Event, o: Oracle)
    requires e.RotateCredentials?
    ensures Leaves(s, e, Step(s, e, o).0)
  {
    StartLeaves(Save(s.(config := s.config.(password := e.password)), o).0.(listener := None), o);
  }

  lemma {:induction false} AttachLeaves(s: State, e: Event, o: Oracle)
    requires e.Reattach? || e.Close?
    ensures Leaves(s, e, Step(s, e, o).0)
  {
    if e.Reattach? {
      StartLeaves(s.(host := e.host), o);
    }
  }

  /** Which step may change which setting, whatever fails: the password only a rotation,
      the port only once, the LAN setting and the owner only those who ask for them. */
  lemma {:induction false} StepLeaves(s: State, e: Event, o: Oracle)
    ensures var c, d := s.config, Step(s, e, o).0.config;
            && (!e.RotateCredentials? ==> d.password == c.password)
            && (c.port != 0 ==> d.port == c.port)
            && (!e.SetAllowLAN? && !Disables(e) ==> d.allowLAN == c.allowLAN)
            && (!e.SetEnabledFor? && !Disables(e) ==> d.owner == c.owner)
            && (!e.SetEnabledFor? && !e.SetEnabled? ==> d.enabled == c.enabled)
            && (!e.SetEnabledFor? && !e.Reattach? ==> Step(s, e, o).0.host == s.host)
  {
    assert Leaves(s, e, Step(s, e, o).0) by {
      match e {
        case SetEnabledFor(_, _, _) => EnableLeaves(s, e, o);
        case SetEnabled(_) => EnableLeaves(s, e, o);
        case SetAllowLAN(_, _) => AllowLeaves(s, e, o);
        case RotateCredentials(_) => RotateLeaves(s, e, o);
        case _ => AttachLeaves(s, e, o);
      }
    }
  }

  lemma {:induction false} StartLeaves(s: State, o: Oracle)
    ensures var t := Start(s, o).0;
            t.config == s.config.(port := t.config.port) && (s.config.port != 0 ==> t.config.port == s.config.port) && t.host == s.host
  {
  }

  /** Disabling works in memory and on the network even when its save fails. */
  lemma {:induction false} DisablingStops(s: State, e: Event, o: Oracle)
    requires Disables(e)
    ensures var t := Step(s, e, o).0;
            t.listener.None? && !t.config.enabled && !t.config.allowLAN && t.config.owner == "" && (t.file == t.config || t.file == s.file)
  {
  }

  /** The port the listener is bound to is the one in memory. */
  predicate SamePort(s: State) { s.listener.Some? ==> s.listener.value.port == s.config.port }

  lemma {:induction false} StepKeepsPort(s: State, e: Event, o: Oracle)
    requires SamePort(s)
    ensures SamePort(Step(s, e, o).0)
  {
  }

  /** Over any run with any failures, a live listener is bound to the port in memory, and
      a port once chosen stays. */
  lemma {:induction false} PortIsKept(config: Config, host: bool, events: seq<Event>, o: Oracle)
    requires Created(config, host, o).Some?
    ensures var s := Run(Created(config, host, o).value, events, o);
            && (s.listener.Some? ==> s.listener.value.port == s.config.port)
            && (config.port != 0 ==> s.config.port == config.port)
  {
    if events != [] {
      var front := events[..|events| - 1];
      PortIsKept(config, host, front, o);
      StepKeepsPort(Run(Created(config, host, o).value, front, o), events[|events| - 1], o);
      StepLeaves(Run(Created(config, host, o).value, front, o), events[|events| - 1], o);
    }
  }

  /** The proxy comes up listening if and only if it is enabled, a helper is attached and
      every save and bind works; a failed bind does not keep it from being created. */
  lemma {:induction false} CreatedIff(config: Config, host: bool, o: Oracle)
    ensures Created(config, host, o).Some? <==> config.port <= 65535 && o(0).works
    ensures Created(config, host, o).Some? ==>
              var s := Created(config, host, o).value;
              && (s.listener.Some? <==> config.enabled && host && AllWorked(State(config, config, None, host, 0), s, o))
              && s.config == config.(port := s.config.port) && s.host == host
  {
    var first := State(config, config, None, host, 0);
    SaveWorksIff(first, o);
    var saved := Save(first, o).0;
    StartWorksIff(saved, o);
    WorkedOn(first, saved, Start(saved, o).0, o);
  }

  // ---------- the object ----------

  class Proxy {
    var config: Config
    var file: Config
    var listener: Option<Listener>
    var host: bool
    var operations: nat
    const oracle: Oracle

    function View(): State
      reads this
    {
      State(config, file, listener, host, operations)
    }

    constructor (config: Config, file: Config, host: bool, oracle: Oracle)
      ensures View() == State(config, file, None, host, 0) && this.oracle == oracle
    {
      this.config, this.file, this.listener, this.host, this.operations, this.oracle := config, file, None, host, 0, oracle;
    }

    method SaveLocked() returns (ok: bool)
      modifies this
      ensures (View(), ok) == Save(old(View()), oracle)
    {
      ok := oracle(operations).works;
      operations := operations + 1;
      if ok {
        file := config;
      }
    }

    method StartLocked() returns (ok: bool)
      modifies this
      ensures (View(), ok) == Start(old(View()), oracle)
    {
      if !host {
        return false;
      }
      var bound := oracle(operations);
      operations := operations + 1;
      if !bound.works {
        return false;
      }
      if config.port == 0 {
        config := config.(port := bound.port);
        var saved := SaveLocked();
        if !saved {
          return false;
        }
      }
      listener := Some(Listener(config.allowLAN, config.port, config.password));
      return true;
    }

    method SetEnabledFor(enabled: bool, owner: string, from: bool) returns (ok: bool)
      modifies this
      ensures (View(), ok) == Step(old(View()), Event.SetEnabledFor(enabled, owner, from), oracle)
      ensures Inv(old(View())) ==> Inv(View())
    {
      KeepsInv(View(), Event.SetEnabledFor(enabled, owner, from), oracle);
      if enabled {
        if !OwnerOk(owner) || !from {
          return false;
        }
        if config.enabled && config.owner != "" && config.owner != owner {
          return false;
        }
        config := config.(enabled := true, owner := owner);
        host := true;
        if listener.None? {
          var started := StartLocked();
          if !started {
            ok := SaveLocked();
            return false;
          }
        }
      } else {
        config := config.(enabled := false, allowLAN := false, owner := "");
        host := false;
        listener := None;
      }
      ok := SaveLocked();
    }

    method SetEnabled(enabled: bool) returns (ok: bool)
      modifies this
      ensures (View(), ok) == Step(old(View()), Event.SetEnabled(enabled), oracle)
      ensures Inv(old(View())) ==> Inv(View())
    {
      KeepsInv(View(), Event.SetEnabled(enabled), oracle);
      if enabled {
        if !host {
          return false;
        }
        config := config.(enabled := true);
        if listener.None? {
          var started := StartLocked();
          if !started {
            ok := SaveLocked();
            return false;
          }
        }
      } else {
        config := config.(enabled := false, allowLAN := false, owner := "");
        listener := None;
      }
      ok := SaveLocked();
    }

    /** Saves before it rebinds. */
    method SetAllowLAN(allow: bool, owner: string) returns (ok: bool)
      modifies this
      ensures (View(), ok) == Step(old(View()), Event.SetAllowLAN(allow, owner), oracle)
      ensures Inv(old(View())) ==> Inv(View())
    {
      KeepsInv(View(), Event.SetAllowLAN(allow, owner), oracle);
      if !config.enabled || config.owner != owner {
        return false;
      }
      if config.allowLAN == allow && listener.Some? {
        return true;
      }
      var previous := config.allowLAN;
      config := config.(allowLAN := allow);
      var saved := SaveLocked();
      if !saved {
        config := config.(allowLAN := previous);
        return false;
      }
      listener := None;
      ok := StartLocked();
    }

    method AttachTo(owner: string, from: bool) returns (ok: bool)
      modifies this
      ensures (View(), ok) == Step(old(View()), Event.Reattach(owner, from), oracle)
      ensures Inv(old(View())) ==> Inv(View())
    {
      KeepsInv(View(), Event.Reattach(owner, from), oracle);
      if config.owner != owner {
        return false;
      }
      host := from;
      if config.enabled && listener.None? {
        ok := StartLocked();
        return;
      }
      return true;
    }

    method RotateCredentials(password: nat) returns (ok: bool)
      modifies this
      ensures (View(), ok) == Step(old(View()), Event.RotateCredentials(password), oracle)
      ensures Inv(old(View())) ==> Inv(View())
    {
      KeepsInv(View(), Event.RotateCredentials(password), oracle);
      config := config.(password := password);
      ok := SaveLocked();
      if !ok {
        return;
      }
      if listener.Some? {
        listener := None;
        ok := StartLocked();
        if !ok {
          return;
        }
      }
      ok := SaveLocked();
    }

    method CloseListener()
      modifies this
      ensures View() == Step(old(View()), Event.Close, oracle).0
      ensures Inv(old(View())) ==> Inv(View())
    {
      KeepsInv(View(), Event.Close, oracle);
      listener := None;
    }
  }
}

/** The listener that closes the connections it handed out. */
module TrackingListener {
  datatype Phase = Open | Collected | BaseClosed | Returned

  /** `accepted`: taken from the base listener and not yet registered. `live`: sockets
      that are open. `handed`: every connection ever returned by `Accept`. `left`: the
      connections the first `Close` has still to close. */
  datatype State = State(
    closed: bool, conns: set<nat>, accepted: set<nat>, live: set<nat>, handed: set<nat>, phase: Phase, left: set<nat>)

  const LISTENING := State(false, {}, {}, {}, {}, Open, {})

  datatype Action =
    | BaseAccept(conn: nat)
    | Register(conn: nat)
    | CloseConn(conn: nat)
    | Remove(conn: nat)
    | BeginClose
    | CloseBase
    | CloseOne(conn: nat)
    | CloseReturns

  function Step(s: State, a: Action): State {
    match a
    case BaseAccept(c) =>
      if s.phase == Open || s.phase == Collected then
        if c in s.live + s.accepted + s.handed then s else s.(accepted := s.accepted + {c}, live := s.live + {c})
      else s
    case Register(c) =>
      if c !in s.accepted then s
      else if s.closed then s.(accepted := s.accepted - {c}, live := s.live - {c})
      else s.(accepted := s.accepted - {c}, conns := s.conns + {c}, handed := s.handed + {c})
    case CloseConn(c) => if c in s.handed then s.(live := s.live - {c}) else s
    case Remove(c) => if c in s.handed && c !in s.live then s.(conns := s.conns - {c}) else s
    case BeginClose => if s.closed then s else s.(closed := true, left := s.conns, phase := Collected)
    case CloseBase => if s.phase == Collected then s.(phase := BaseClosed) else s
    case CloseOne(c) => if s.phase == BaseClosed && c in s.left then s.(left := s.left - {c}, live := s.live - {c}) else s
    case CloseReturns => if s.phase == BaseClosed && s.left == {} then s.(phase := Returned) else s
  }

  function Run(s: State, actions: seq<Action>): State {
    if actions == [] then s else Step(Run(s, actions[..|actions| - 1]), actions[|actions| - 1])
  }

  predicate Inv(s: State) {
    && s.accepted !! s.handed && s.conns <= s.handed && s.left <= s.handed
    && (s.closed == !s.phase.Open?)
    && (forall c | c in s.handed && c in s.live :: c in (if s.closed then s.left else s.conns))
    && (s.phase == Returned ==> s.left == {})
  }

  lemma {:induction false} RunKeeps(actions: seq<Action>)
    ensures Inv(Run(LISTENING, actions))
  {
    if actions != [] {
      RunKeeps(actions[..|actions| - 1]);
      StepKeeps(Run(LISTENING, actions[..|actions| - 1]), actions[|actions| - 1]);
    }
  }

  lemma {:induction false} StepKeeps(s: State, a: Action)
    ensures Inv(s) ==> Inv(Step(s, a))
  {
  }

  lemma {:induction false} StaysReturned(s: State, a: Action)
    requires Inv(s) && s.phase == Returned
    ensures Step(s, a).phase == Returned
  {
  }

  lemma {:induction false} ReturnedForever(actions: seq<Action>, n: nat)
    requires n <= |actions| && Run(LISTENING, actions[..n]).phase == Returned
    ensures Run(LISTENING, actions).phase == Returned
  {
    if n == |actions| {
      assert actions[..n] == actions;
    } else {
      var front := actions[..|actions| - 1];
      assert front[..n] == actions[..n];
      ReturnedForever(front, n);
      RunKeeps(front);
      StaysReturned(Run(LISTENING, front), actions[|actions| - 1]);
    }
  }

  /** In every interleaving, once the first `Close` has returned, every connection the
      listener ever handed out is closed, then and at all later times. */
  lemma {:induction false} ClosedAfterClose(actions: seq<Action>, n: nat)
    requires n <= |actions| && Run(LISTENING, actions[..n]).phase == Returned
    ensures var s := Run(LISTENING, actions); s.handed !! s.live
  {
    ReturnedForever(actions, n);
    RunKeeps(actions);
  }

  /** Once every connection handed out by a closed listener is closed, that is for good. */
  lemma {:induction false} ClosedForever(actions: seq<Action>, n: nat)
    requires n <= |actions|
    requires var s := Run(LISTENING, actions[..n]); s.closed && s.handed !! s.live
    ensures var s := Run(LISTENING, actions); s.closed && s.handed !! s.live
  {
    if n == |actions| {
      assert actions[..n] == actions;
    } else {
      var front := actions[..|actions| - 1];
      assert front[..n] == actions[..n];
      ClosedForever(front, n);
    }
  }

  /** A second `Close` returns at once, at any moment after the flag was set. The connections
      are closed then, and from then on, if and only if those that the first one has still
      to close were closed by their users. */
  lemma {:induction false} SecondCloseIff(actions: seq<Action>, n: nat)
    requires n <= |actions| && Run(LISTENING, actions[..n]).closed
    ensures var s := Run(LISTENING, actions[..n]); Step(s, BeginClose) == s && (s.handed !! s.live <==> s.left !! s.live)
    ensures var s, t := Run(LISTENING, actions[..n]), Run(LISTENING, actions); s.left !! s.live ==> t.handed !! t.live
  {
    RunKeeps(actions[..n]);
    var s := Run(LISTENING, actions[..n]);
    if s.left !! s.live {
      ClosedForever(actions, n);
    }
  }

  /** While the first is still at work, a second `Close` can return too early. */
  lemma {:induction false} SecondCloseIsEarly()
    ensures var s := Run(LISTENING, [BaseAccept(1), Register(1), BeginClose]);
            s.closed && Step(s, BeginClose) == s && 1 in s.handed && 1 in s.live
  {
    assert [BaseAccept(1)][..0] == [];
    assert Run(LISTENING, [BaseAccept(1)]) == Step(LISTENING, BaseAccept(1));
    assert [BaseAccept(1), Register(1)][..1] == [BaseAccept(1)];
    assert Run(LISTENING, [BaseAccept(1), Register(1)]) == Step(Step(LISTENING, BaseAccept(1)), Register(1));
    assert [BaseAccept(1), Register(1), BeginClose][..2] == [BaseAccept(1), Register(1)];
  }

  /** The fields under the listener's mutex; the sockets themselves are ghost. */
  class Tracker {
    var closed: bool
    var conns: set<nat>
    ghost var accepted: set<nat>
    ghost var live: set<nat>
    ghost var handed: set<nat>
    ghost var phase: Phase
    ghost var left: set<nat>

    ghost function View(): State
      reads this
    {
      State(closed, conns, accepted, live, handed, phase, left)
    }

    constructor ()
      ensures View() == LISTENING
    {
      closed, conns, accepted, live, handed, phase, left := false, {}, {}, {}, {}, Open, {};
    }

    method RegisterConn(c: nat) returns (ok: bool)
      requires c in accepted
      modifies this
      ensures View() == Step(old(View()), Register(c))
      ensures Inv(old(View())) ==> Inv(View())
      ensures ok == !old(closed)
    {
      StepKeeps(View(), Register(c));
      accepted := accepted - {c};
      if closed {
        live := live - {c};
        return false;
      }
      conns := conns + {c};
      handed := handed + {c};
      return true;
    }

    method RemoveConn(c: nat)
      requires c in handed && c !in live
      modifies this
      ensures View() == Step(old(View()), Action.Remove(c))
      ensures Inv(old(View())) ==> Inv(View())
    {
      StepKeeps(View(), Action.Remove(c));
      conns := conns - {c};
    }

    /** Sets the flag and collects the connections in one critical section. */
    method Collect() returns (collected: set<nat>)
      modifies this
      ensures View() == Step(old(View()), BeginClose)
      ensures Inv(old(View())) ==> Inv(View())
      ensures collected == if old(closed) then {} else old(conns)
    {
      StepKeeps(View(), BeginClose);
      if closed {
        return {};
      }
      closed := true;
      collected := conns;
      left := conns;
      phase := Collected;
    }
  }
}
