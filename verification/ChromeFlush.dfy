/** Chrome's settings-update protocol: read, write, verify, optionally authenticate,
    and write again, with requests and browser events arriving between any two
    callbacks. */
module ChromeFlush {
  import opened Text
  import opened Policies
  import opened PacScript

  datatype Credentials = Credentials(port: nat, secret: string)
  type Login = c: Credentials | c.port >= 1 witness Credentials(1, "")

  function SessionOf(login: Option<Login>): Session {
    if login.None? then None else Some(login.value.port)
  }

  /** Proxy authentication: the session, the port it is ready for and the probe that
      is running, identified by its abort controller. */
  datatype Auth = Auth(login: Option<Login>, readyPort: Option<nat>, probe: Option<nat>, controllers: nat) {
    predicate HasSessionFor(port: nat) { login.Some? && login.value.port == port }
    predicate IsReadyFor(port: nat) { readyPort == Some(port) && HasSessionFor(port) }
  }

  /** `JSON.stringify` of the requested configuration, or the word for a release. */
  datatype Key = NoKey | ClearKey | ProgramKey(program: Program)

  /** A warm-up program: the closed port for everything but the probe. */
  predicate WarmsUp(p: Program) { p.probe.Some? && p.port == BLOCKED_PORT }

  datatype Installed = Untouched | Cleared | Wrote(program: Program) {
    predicate IsWarmup() { Wrote? && WarmsUp(program) }
  }

  datatype Status = Inactive | ActiveStatus | BlockedStatus
  datatype Report =
    | Requested(status: Status)
    | Preparing
    | Conflicted
    | Unavailable
    | ProxyFailed(fatal: bool)
  {
    predicate IsFailure() { Conflicted? || Unavailable? || ProxyFailed? }
  }

  /** What one call of `flush` captured for its callbacks. */
  datatype Flight = Flight(key: Key, sessionEpoch: nat, port: nat, warming: bool, value: Option<Program>)

  datatype ProbeKind = NoSession | AlreadyReady | Fetching(controller: nat)

  datatype Callback =
    | AwaitRead(flight: Flight)
    | AwaitWrite(flight: Flight)
    | AwaitVerify(flight: Flight, epoch: nat)
    | AwaitProbe(flight: Flight, kind: ProbeKind)

  /** The manager's fields, the callbacks the browser still owes it, and two history
      values: what was last given to the browser and what was last reported. */
  datatype State = State(
    auth: Auth,
    desired: Option<Program>,
    authPending: Option<Program>,
    desiredKey: Key,
    appliedKey: Key,
    errorKey: Key,
    inFlight: bool,
    authRoutingPending: bool,
    changeEpoch: nat,
    sessionEpoch: nat,
    activePort: nat,
    desiredHealth: Status,
    pending: seq<Callback>,
    lastWritten: Installed,
    lastReport: Option<Report>)

  const INITIAL := State(Auth(None, None, None, 0), None, None, NoKey, NoKey, NoKey, false, false, 0, 0, 0,
                         Inactive, [], Untouched, None)

  datatype Request = Apply(policy: Policy) | Clear
  datatype Control = ThisExtension | OtherExtension | NotControllable | Controllable

  predicate Foreign(c: Control) { c == OtherExtension || c == NotControllable }

  datatype NetError = ConnectionFailed | TunnelFailed | OtherError

  /** Everything that can happen. Callback events carry the browser's answer and the
      requests that the health listener makes while the callback reports. */
  datatype Event =
    | SetSession(login: Option<Login>)
    | Ask(request: Request)
    | Changed(control: Control, value: Installed)
    | ProxyError(fatal: bool, error: NetError)
    | ReadDone(i: nat, failed: bool, control: Control, again: seq<Request>)
    | WriteDone(i: nat, failed: bool, again: seq<Request>)
    | VerifyDone(i: nat, failed: bool, control: Control, value: Installed, again: seq<Request>)
    | ProbeDone(i: nat, ok: bool, again: seq<Request>)

  function InstalledBy(value: Option<Program>): Installed {
    if value.None? then Cleared else Wrote(value.value)
  }

  function KeyOf(value: Option<Program>): Key {
    if value.None? then ClearKey else ProgramKey(value.value)
  }

  // ---------- the protocol ----------

  function Flush(s: State): State {
    if s.desiredKey == NoKey || s.inFlight || s.errorKey == s.desiredKey then s
    else if s.appliedKey == s.desiredKey then s.(lastReport := Some(Requested(s.desiredHealth)))
    else
      var warming := s.desiredHealth == ActiveStatus && !s.auth.IsReadyFor(s.activePort);
      var flight := Flight(s.desiredKey, s.sessionEpoch, s.activePort, warming, if warming then s.authPending else s.desired);
      s.(inFlight := true, authRoutingPending := s.authRoutingPending || warming, pending := s.pending + [AwaitRead(flight)])
  }

  /** The request for a program; a warm-up program comes with active routing only. */
  function Wanted(s: State, program: Program, warmup: Option<Program>, port: nat): State {
    s.(desired := Some(program), authPending := warmup,
       errorKey := if s.desiredKey != ProgramKey(program) then NoKey else s.errorKey,
       desiredKey := ProgramKey(program), activePort := port,
       desiredHealth := if warmup.None? then BlockedStatus else ActiveStatus)
  }

  /** `apply` and `clear` up to their call of `flush`. */
  function Want(s: State, request: Request): State {
    if request.Clear? || request.policy.mode == Direct then
      s.(desired := None, authPending := None, errorKey := if s.desiredKey != ClearKey then NoKey else s.errorKey,
         desiredKey := ClearKey, desiredHealth := Inactive)
    else if IsBlocked(request.policy, SessionOf(s.auth.login)) then
      Wanted(s, Generate(request.policy, BLOCKED_PORT, None), None, 0)
    else
      var port := s.auth.login.value.port;
      Wanted(s, Generate(request.policy, port, None), Some(Generate(request.policy, BLOCKED_PORT, Some(port))), port)
  }

  function WantAll(s: State, requests: seq<Request>): State {
    if requests == [] then s else Flush(Want(WantAll(s, requests[..|requests| - 1]), requests[|requests| - 1]))
  }

  /** Ends the flight and starts the next one if the request moved on. */
  function Finish(s: State, flight: Flight): State {
    var t := s.(inFlight := false);
    if flight.key != t.desiredKey then Flush(t) else t
  }

  function Fail(s: State, flight: Flight, report: Report, again: seq<Request>): State {
    Finish(WantAll(s.(appliedKey := NoKey, lastReport := Some(report)), again), flight)
  }

  /** The chosen callback is delivered, so the browser owes it no more. */
  function Deliver(s: State, i: nat): State
    requires i < |s.pending|
  {
    s.(pending := s.pending[..i] + s.pending[i + 1..])
  }

  function Owe(s: State, c: Callback): State {
    s.(pending := s.pending + [c])
  }

  function OnRead(s: State, f: Flight, failed: bool, control: Control, again: seq<Request>): State {
    if f.key != s.desiredKey then Flush(s.(inFlight := false))
    else if failed then Fail(s, f, Unavailable, again)
    else if f.value.Some? && Foreign(control) then Fail(s, f, Conflicted, again)
    else Owe(s.(lastWritten := InstalledBy(f.value)), AwaitWrite(f))
  }

  function OnWrite(s: State, f: Flight, failed: bool, again: seq<Request>): State {
    if failed then Fail(s, f, Unavailable, again) else Owe(s, AwaitVerify(f, s.changeEpoch))
  }

  /** `auth.prepare(port)` up to its first suspension. */
  function Prepare(s: State, f: Flight): State {
    if !s.auth.HasSessionFor(f.port) then Owe(s, AwaitProbe(f, NoSession))
    else if s.auth.IsReadyFor(f.port) then Owe(s, AwaitProbe(f, AlreadyReady))
    else
      var id := s.auth.controllers;
      Owe(s.(auth := s.auth.(probe := Some(id), controllers := id + 1)), AwaitProbe(f, Fetching(id)))
  }

  function OnVerify(s: State, f: Flight, epoch: nat, failed: bool, control: Control, value: Installed, again: seq<Request>): State {
    if epoch != s.changeEpoch then Owe(s, AwaitVerify(f, s.changeEpoch))
    else if failed then Fail(s, f, Unavailable, again)
    else if f.value.Some? && (control != ThisExtension || value != Wrote(f.value.value)) then Fail(s, f, Conflicted, again)
    else if f.warming then
      Prepare(if f.key == s.desiredKey then s.(lastReport := Some(Preparing)) else s, f)
    else Confirm(s, f, again)
  }

  /** Verified and not warming up: the key is applied. */
  function Confirm(s: State, f: Flight, again: seq<Request>): State {
    var t := s.(authRoutingPending := false, appliedKey := f.key);
    Finish(if f.key == t.desiredKey then WantAll(t.(lastReport := Some(Requested(t.desiredHealth))), again) else t, f)
  }

  function OnProbe(s: State, f: Flight, kind: ProbeKind, ok: bool, again: seq<Request>): State {
    var mine := kind.Fetching? && s.auth.probe == Some(kind.controller);
    var resolved := kind.AlreadyReady? || (mine && ok);
    var t := if mine then s.(auth := s.auth.(probe := None, readyPort := if ok then Some(f.port) else s.auth.readyPort)) else s;
    if resolved || f.key != t.desiredKey || f.sessionEpoch != t.sessionEpoch then Flush(t.(inFlight := false))
    else Fail(t.(errorKey := f.key), f, Unavailable, again)
  }

  function OnSession(s: State, login: Option<Login>): State {
    if login.Some? && s.auth.login == login then s
    else s.(auth := s.auth.(login := login, readyPort := None, probe := None), sessionEpoch := s.sessionEpoch + 1,
            appliedKey := NoKey, errorKey := NoKey)
  }

  function OnChanged(s: State, control: Control, value: Installed): State {
    var t := s.(changeEpoch := s.changeEpoch + 1);
    if s.inFlight || s.desired.None? then t
    else if Foreign(control) then t.(appliedKey := NoKey, lastReport := Some(Conflicted))
    else if value != Wrote(s.desired.value) then Flush(t.(appliedKey := NoKey))
    else Flush(t)
  }

  predicate IgnoresError(s: State, fatal: bool, error: NetError) {
    s.desired.None? || (s.authRoutingPending && fatal && error == ConnectionFailed) || (fatal && error == TunnelFailed)
  }

  function OnProxyError(s: State, fatal: bool, error: NetError): State {
    if IgnoresError(s, fatal, error) then s
    else s.(errorKey := s.desiredKey, appliedKey := NoKey, lastReport := Some(ProxyFailed(fatal)))
  }

  /** One event. A callback event whose kind the browser does not owe does nothing. */
  function Step(s: State, e: Event): State {
    match e
    case SetSession(login) => OnSession(s, login)
    case Ask(request) => Flush(Want(s, request))
    case Changed(control, value) => OnChanged(s, control, value)
    case ProxyError(fatal, error) => OnProxyError(s, fatal, error)
    case ReadDone(i, failed, control, again) =>
      if i < |s.pending| && s.pending[i].AwaitRead? then OnRead(Deliver(s, i), s.pending[i].flight, failed, control, again) else s
    case WriteDone(i, failed, again) =>
      if i < |s.pending| && s.pending[i].AwaitWrite? then OnWrite(Deliver(s, i), s.pending[i].flight, failed, again) else s
    case VerifyDone(i, failed, control, value, again) =>
      if i < |s.pending| && s.pending[i].AwaitVerify? then
        OnVerify(Deliver(s, i), s.pending[i].flight, s.pending[i].epoch, failed, control, value, again) else s
    case ProbeDone(i, ok, again) =>
      if i < |s.pending| && s.pending[i].AwaitProbe? then OnProbe(Deliver(s, i), s.pending[i].flight, s.pending[i].kind, ok, again) else s
  }

  function Run(events: seq<Event>): State {
    if events == [] then INITIAL else Step(Run(events[..|events| - 1]), events[|events| - 1])
  }

  // ---------- what every step keeps ----------

  /** The browser holds what was asked for, or a warm-up program. */
  predicate HoldsRequest(s: State) {
    s.lastWritten == InstalledBy(s.desired) || s.lastWritten.IsWarmup()
  }

  predicate Failed(s: State) {
    s.lastReport.Some? && s.lastReport.value.IsFailure()
  }

  /** The fields describe one request. */
  predicate Coherent(s: State) {
    && (s.desiredKey == NoKey || s.desiredKey == KeyOf(s.desired))
    && (s.desiredKey == NoKey ==> s.desired.None?)
    && (s.desired.Some? ==> s.desired.value.probe.None?)
    && (s.desiredHealth == ActiveStatus ==> s.authPending.Some? && WarmsUp(s.authPending.value))
  }

  predicate FlightOk(f: Flight) {
    if f.warming then f.value.Some? && WarmsUp(f.value.value)
    else f.key == KeyOf(f.value) && (f.value.Some? ==> f.value.value.probe.None?)
  }

  predicate Writing(c: Callback) { c.AwaitWrite? || c.AwaitVerify? }

  predicate CallbackOk(s: State, c: Callback) {
    && FlightOk(c.flight)
    && (!c.AwaitRead? ==> s.lastWritten == InstalledBy(c.flight.value))
    && (c.AwaitProbe? ==> c.flight.warming)
  }

  /** A key is recorded as applied only if its configuration was written last, unless a
      later flight has written since. */
  predicate AppliedOk(s: State) {
    s.appliedKey == NoKey
    || (s.appliedKey.ClearKey? && s.lastWritten == Cleared)
    || (s.appliedKey.ProgramKey? && s.lastWritten == Wrote(s.appliedKey.program))
    || s.lastWritten.IsWarmup()
  }

  /** What holds at every point, including between `inFlight = false` and the next flush. */
  predicate Base(s: State) {
    && Coherent(s)
    && (s.desiredKey != NoKey && s.errorKey == s.desiredKey ==> HoldsRequest(s) || Failed(s))
  }

  predicate Settled(s: State) {
    s.desiredKey != NoKey ==> HoldsRequest(s) || Failed(s)
  }

  predicate Inv(s: State) {
    && Base(s)
    && |s.pending| == (if s.inFlight then 1 else 0)
    && (s.inFlight ==> CallbackOk(s, s.pending[0]) && (Writing(s.pending[0]) || AppliedOk(s)))
    && (!s.inFlight ==> AppliedOk(s) && Settled(s))
  }

  /** `flush` from any point where no update is running and the last one is accounted for. */
  lemma {:induction false} FlushKeeps(s: State)
    requires Base(s) && AppliedOk(s) && s.pending == [] && !s.inFlight
    ensures Inv(Flush(s))
  {
  }

  /** What a request leaves as it was. */
  predicate SameFlight(s: State, t: State) {
    && t.pending == s.pending && t.inFlight == s.inFlight && t.lastWritten == s.lastWritten
    && t.lastReport == s.lastReport && t.appliedKey == s.appliedKey
  }

  /** A request keeps the error of its own key only. */
  predicate NewRequest(s: State, t: State) {
    && Coherent(t) && t.desiredKey != NoKey
    && (t.errorKey == t.desiredKey ==> s.errorKey == s.desiredKey && s.desiredKey != NoKey && t.desired == s.desired)
  }

  lemma {:induction false} WantedKeeps(s: State, program: Program, warmup: Option<Program>, port: nat)
    requires Coherent(s) && program.probe.None? && (warmup.Some? ==> WarmsUp(warmup.value))
    ensures NewRequest(s, Wanted(s, program, warmup, port)) && SameFlight(s, Wanted(s, program, warmup, port))
  {
  }

  lemma {:induction false} WantKeeps(s: State, request: Request)
    requires Coherent(s)
    ensures NewRequest(s, Want(s, request)) && SameFlight(s, Want(s, request))
  {
    if request.Apply? && request.policy.mode != Direct {
      var policy := request.policy;
      if IsBlocked(policy, SessionOf(s.auth.login)) {
        WantedKeeps(s, Generate(policy, BLOCKED_PORT, None), None, 0);
      } else {
        var port := s.auth.login.value.port;
        WantedKeeps(s, Generate(policy, port, None), Some(Generate(policy, BLOCKED_PORT, Some(port))), port);
      }
    }
  }

  /** Requests made while an update runs only change what is wanted. */
  lemma {:induction false} WantAllKeeps(s: State, requests: seq<Request>)
    requires Base(s) && s.inFlight
    ensures var t := WantAll(s, requests);
            && Base(t) && t.inFlight && t.pending == s.pending && t.lastWritten == s.lastWritten
            && t.lastReport == s.lastReport && t.appliedKey == s.appliedKey
            && (s.desiredKey != NoKey ==> t.desiredKey != NoKey)
  {
    if requests != [] {
      WantAllKeeps(s, requests[..|requests| - 1]);
      WantKeeps(WantAll(s, requests[..|requests| - 1]), requests[|requests| - 1]);
    }
  }

  /** Ending a flight, with what it wrote accounted for. */
  lemma {:induction false} FinishKeeps(s: State, f: Flight)
    requires Base(s) && s.inFlight && s.pending == [] && AppliedOk(s)
    requires f.key == s.desiredKey ==> Settled(s)
    ensures Inv(Finish(s, f))
  {
    if f.key != s.desiredKey {
      FlushKeeps(s.(inFlight := false));
    }
  }

  lemma {:induction false} FailKeeps(s: State, f: Flight, report: Report, again: seq<Request>)
    requires Coherent(s) && s.inFlight && s.pending == [] && report.IsFailure()
    ensures Inv(Fail(s, f, report, again))
  {
    var t := s.(appliedKey := NoKey, lastReport := Some(report));
    WantAllKeeps(t, again);
    FinishKeeps(WantAll(t, again), f);
  }

  lemma {:induction false} ReadKeeps(s: State, f: Flight, failed: bool, control: Control, again: seq<Request>)
    requires Base(s) && s.inFlight && s.pending == [] && FlightOk(f) && AppliedOk(s)
    ensures Inv(OnRead(s, f, failed, control, again))
  {
    if f.key != s.desiredKey {
      FlushKeeps(s.(inFlight := false));
    } else if failed {
      FailKeeps(s, f, Unavailable, again);
    } else if f.value.Some? && Foreign(control) {
      FailKeeps(s, f, Conflicted, again);
    }
  }

  lemma {:induction false} WriteKeeps(s: State, f: Flight, failed: bool, again: seq<Request>)
    requires Base(s) && s.inFlight && s.pending == [] && FlightOk(f) && s.lastWritten == InstalledBy(f.value)
    ensures Inv(OnWrite(s, f, failed, again))
  {
    if failed {
      FailKeeps(s, f, Unavailable, again);
    }
  }

  lemma {:induction false} ConfirmKeeps(s: State, f: Flight, again: seq<Request>)
    requires Base(s) && s.inFlight && s.pending == [] && FlightOk(f) && !f.warming && s.lastWritten == InstalledBy(f.value)
    ensures Inv(Confirm(s, f, again))
  {
    var t := s.(authRoutingPending := false, appliedKey := f.key);
    if f.key == t.desiredKey {
      var u := t.(lastReport := Some(Requested(t.desiredHealth)));
      WantAllKeeps(u, again);
      FinishKeeps(WantAll(u, again), f);
    } else {
      FinishKeeps(t, f);
    }
  }

  lemma {:induction false} PrepareKeeps(s: State, f: Flight)
    requires Base(s) && s.inFlight && s.pending == [] && FlightOk(f) && f.warming && s.lastWritten == InstalledBy(f.value)
    ensures Inv(Prepare(s, f))
  {
  }

  lemma {:induction false} VerifyKeeps(s: State, f: Flight, epoch: nat, failed: bool, control: Control, value: Installed, again: seq<Request>)
    requires Base(s) && s.inFlight && s.pending == [] && FlightOk(f) && s.lastWritten == InstalledBy(f.value)
    ensures Inv(OnVerify(s, f, epoch, failed, control, value, again))
  {
    if epoch != s.changeEpoch {
    } else if failed {
      FailKeeps(s, f, Unavailable, again);
    } else if f.value.Some? && (control != ThisExtension || value != Wrote(f.value.value)) {
      FailKeeps(s, f, Conflicted, again);
    } else if f.warming {
      PrepareKeeps(if f.key == s.desiredKey then s.(lastReport := Some(Preparing)) else s, f);
    } else {
      ConfirmKeeps(s, f, again);
    }
  }

  lemma {:induction false} ProbeKeeps(s: State, f: Flight, kind: ProbeKind, ok: bool, again: seq<Request>)
    requires Base(s) && s.inFlight && s.pending == [] && FlightOk(f) && f.warming && s.lastWritten == InstalledBy(f.value)
    ensures Inv(OnProbe(s, f, kind, ok, again))
  {
    var mine := kind.Fetching? && s.auth.probe == Some(kind.controller);
    var t := if mine then s.(auth := s.auth.(probe := None, readyPort := if ok then Some(f.port) else s.auth.readyPort)) else s;
    if kind.AlreadyReady? || (mine && ok) || f.key != t.desiredKey || f.sessionEpoch != t.sessionEpoch {
      FlushKeeps(t.(inFlight := false));
    } else {
      FailKeeps(t.(errorKey := f.key), f, Unavailable, again);
    }
  }

  lemma {:induction false} AskKeeps(s: State, request: Request)
    requires Inv(s)
    ensures Inv(Flush(Want(s, request)))
  {
    WantKeeps(s, request);
    if !s.inFlight {
      FlushKeeps(Want(s, request));
    }
  }

  lemma {:induction false} ReflushKeeps(s: State, key: Key)
    requires Inv(s) && !s.inFlight && (key == s.appliedKey || key == NoKey)
    ensures Inv(Flush(s.(changeEpoch := s.changeEpoch + 1, appliedKey := key)))
  {
    FlushKeeps(s.(changeEpoch := s.changeEpoch + 1, appliedKey := key));
  }

  lemma {:induction false} ChangedKeeps(s: State, control: Control, value: Installed)
    requires Inv(s)
    ensures Inv(OnChanged(s, control, value))
  {
    if !s.inFlight && s.desired.Some? && !Foreign(control) {
      var key := if value != Wrote(s.desired.value) then NoKey else s.appliedKey;
      ReflushKeeps(s, key);
      assert OnChanged(s, control, value) == Flush(s.(changeEpoch := s.changeEpoch + 1, appliedKey := key));
    }
  }

  lemma {:induction false} ErrorKeeps(s: State, fatal: bool, error: NetError)
    requires Inv(s)
    ensures Inv(OnProxyError(s, fatal, error))
  {
  }

  lemma {:induction false} SessionKeeps(s: State, login: Option<Login>)
    requires Inv(s)
    ensures Inv(OnSession(s, login))
  {
  }

  /** Delivering the one pending callback. */
  lemma {:induction false} CallbackKeeps(s: State, e: Event)
    requires Inv(s) && (e.ReadDone? || e.WriteDone? || e.VerifyDone? || e.ProbeDone?)
    ensures Inv(Step(s, e))
  {
    if e.i < |s.pending| {
      var f, d := s.pending[0].flight, Deliver(s, 0);
      match e {
        case ReadDone(_, failed, control, again) =>
          if s.pending[0].AwaitRead? {
            ReadKeeps(d, f, failed, control, again);
          }
        case WriteDone(_, failed, again) =>
          if s.pending[0].AwaitWrite? {
            WriteKeeps(d, f, failed, again);
          }
        case VerifyDone(_, failed, control, value, again) =>
          if s.pending[0].AwaitVerify? {
            VerifyKeeps(d, f, s.pending[0].epoch, failed, control, value, again);
          }
        case ProbeDone(_, ok, again) =>
          if s.pending[0].AwaitProbe? {
            ProbeKeeps(d, f, s.pending[0].kind, ok, again);
          }
      }
    }
  }

  /** Every event keeps the invariant. */
  lemma {:induction false} StepKeeps(s: State, e: Event)
    ensures Inv(s) ==> Inv(Step(s, e))
  {
    if Inv(s) {
      match e {
        case SetSession(login) => SessionKeeps(s, login);
        case Ask(request) => AskKeeps(s, request);
        case Changed(control, value) => ChangedKeeps(s, control, value);
        case ProxyError(fatal, error) => ErrorKeeps(s, fatal, error);
        case _ => CallbackKeeps(s, e);
      }
    }
  }

  lemma {:induction false} RunKeeps(events: seq<Event>)
    ensures Inv(Run(events))
  {
    if events != [] {
      RunKeeps(events[..|events| - 1]);
      StepKeeps(Run(events[..|events| - 1]), events[|events| - 1]);
    }
  }

  // ---------- the guarantees, over every interleaving ----------

  /** At most one browser update is ever running, and `inFlight` says whether it is. */
  lemma {:induction false} AtMostOneUpdate(events: seq<Event>)
    ensures |Run(events).pending| <= 1
    ensures Run(events).inFlight <==> |Run(events).pending| == 1
  {
    RunKeeps(events);
  }

  /** Whenever no update is running and something was requested, the browser was last
      given exactly that, or a warm-up program, or the last report is a failure. */
  lemma {:induction false} SettledIsHonest(events: seq<Event>)
    ensures var s := Run(events);
            !s.inFlight && s.desiredKey != NoKey ==>
              || s.lastWritten == InstalledBy(s.desired)
              || s.lastWritten.IsWarmup()
              || (s.lastReport.Some? && s.lastReport.value.IsFailure())
  {
    RunKeeps(events);
  }

  /** So a program for a helper port that is no longer wanted never stays installed
      without a failure having been reported. */
  lemma {:induction false} SupersededIsReported(events: seq<Event>, old_: Program)
    requires old_.probe.None? && old_.port != BLOCKED_PORT
    requires var s := Run(events);
             !s.inFlight && s.desiredKey != NoKey && s.lastWritten == Wrote(old_) && s.desired != Some(old_)
    ensures Run(events).lastReport.Some? && Run(events).lastReport.value.IsFailure()
  {
    RunKeeps(events);
  }

  /** Where the browser sends a host under what was last given to it. */
  function BrowserDecision(installed: Installed, raw: string): Decision {
    if installed.Wrote? then Eval(installed.program, raw) else GoDirect
  }

  /** Over every run, whenever no update is running, something was requested and no failure
      is reported, the browser routes every host as was asked, or it is warming up: then
      no host but the probe reaches any port other than the closed one. */
  lemma {:induction false} SettledRoutes(events: seq<Event>, raw: string)
    requires var s := Run(events); !s.inFlight && s.desiredKey != NoKey && !Failed(s)
    ensures var s := Run(events);
            var decision := BrowserDecision(s.lastWritten, raw);
            || decision == BrowserDecision(InstalledBy(s.desired), raw)
            || (s.lastWritten.IsWarmup() && (raw != PROBE_HOST ==> decision == GoDirect || decision == Via(BLOCKED_PORT)))
  {
    RunKeeps(events);
    if Run(events).lastWritten.IsWarmup() {
      WarmupRoutesNothing(Run(events).lastWritten.program, ReadHost(raw));
    }
  }

  lemma {:induction false} WarmupRoutesNothing(p: Program, host: Host)
    requires WarmsUp(p) && host.Valid()
    ensures Route(p, host) == GoDirect || Route(p, host) == Via(BLOCKED_PORT)
  {
  }

  lemma {:induction false} After(events: seq<Event>, e: Event) returns (more: seq<Event>)
    ensures more == events + [e] && Run(more) == Step(Run(events), e)
  {
    more := events + [e];
    assert more[..|events|] == events;
  }

  // ---------- when a warm-up program stays ----------

  /** Nothing is running, no failure is reported, and the browser holds a warm-up program. */
  predicate StaysWarm(s: State) {
    !s.inFlight && s.desiredKey != NoKey && s.lastWritten.IsWarmup() && !Failed(s)
  }

  /** With a warm-up program written last, a flush for `key` has nothing to do and no failure
      to show: the key failed and that report was replaced, or it was applied before. */
  predicate NothingToDo(s: State, key: Key) {
    && key != NoKey && s.lastWritten.IsWarmup()
    && if s.errorKey == key && s.desiredKey == key then !Failed(s) else s.appliedKey == key
  }

  /** The event answers a callback of its own kind. */
  predicate Answers(s: State, e: Event) {
    match e
    case ReadDone(i, _, _, _) => i < |s.pending| && s.pending[i].AwaitRead?
    case WriteDone(i, _, _) => i < |s.pending| && s.pending[i].AwaitWrite?
    case VerifyDone(i, _, _, _, _) => i < |s.pending| && s.pending[i].AwaitVerify?
    case ProbeDone(i, _, _) => i < |s.pending| && s.pending[i].AwaitProbe?
    case _ => false
  }

  /** The flight goes on after its probe: authentication was ready, its own probe succeeded,
      or the request or the session moved on. */
  predicate GoesOn(s: State, f: Flight, kind: ProbeKind, ok: bool) {
    || kind.AlreadyReady?
    || (kind.Fetching? && s.auth.probe == Some(kind.controller) && ok)
    || f.key != s.desiredKey || f.sessionEpoch != s.sessionEpoch
  }

  /** By the state before the event: it leaves a warm-up program installed. */
  predicate LeavesWarm(s: State, e: Event) {
    match e
    case SetSession(_) => StaysWarm(s)
    case Ask(request) => !s.inFlight && NothingToDo(s, Want(s, request).desiredKey)
    case Changed(control, value) =>
      if s.inFlight || s.desired.None? then StaysWarm(s)
      else !Foreign(control)
           && NothingToDo(if value != Wrote(s.desired.value) then s.(appliedKey := NoKey) else s, s.desiredKey)
    case ProxyError(fatal, error) => IgnoresError(s, fatal, error) && StaysWarm(s)
    case ReadDone(i, _, _, _) =>
      if Answers(s, e) then s.pending[i].flight.key != s.desiredKey && NothingToDo(s, s.desiredKey) else StaysWarm(s)
    case ProbeDone(i, ok, _) =>
      if Answers(s, e) then GoesOn(s, s.pending[i].flight, s.pending[i].kind, ok) && NothingToDo(s, s.desiredKey)
      else StaysWarm(s)
    case _ => !Answers(s, e) && StaysWarm(s)
  }

  lemma {:induction false} FlushStaysIff(s: State)
    requires !s.inFlight
    ensures StaysWarm(Flush(s)) <==> NothingToDo(s, s.desiredKey)
  {
  }

  lemma {:induction false} FailNeverStays(s: State, f: Flight, report: Report, again: seq<Request>)
    requires Coherent(s) && s.inFlight && s.pending == [] && report.IsFailure()
    ensures !StaysWarm(Fail(s, f, report, again))
  {
    var t := s.(appliedKey := NoKey, lastReport := Some(report));
    WantAllKeeps(t, again);
    FlushStaysIff(WantAll(t, again).(inFlight := false));
  }

  lemma {:induction false} ReadStaysIff(s: State, f: Flight, failed: bool, control: Control, again: seq<Request>)
    requires Coherent(s) && s.inFlight && s.pending == []
    ensures StaysWarm(OnRead(s, f, failed, control, again)) <==> f.key != s.desiredKey && NothingToDo(s, s.desiredKey)
  {
    if f.key != s.desiredKey {
      FlushStaysIff(s.(inFlight := false));
    } else {
      FailNeverStays(s, f, if failed then Unavailable else Conflicted, again);
    }
  }

  lemma {:induction false} WriteNeverStays(s: State, f: Flight, failed: bool, again: seq<Request>)
    requires Coherent(s) && s.inFlight && s.pending == []
    ensures !StaysWarm(OnWrite(s, f, failed, again))
  {
    FailNeverStays(s, f, Unavailable, again);
  }

  lemma {:induction false} ConfirmNeverStays(s: State, f: Flight, again: seq<Request>)
    requires Base(s) && s.inFlight && FlightOk(f) && !f.warming && s.lastWritten == InstalledBy(f.value)
    ensures !StaysWarm(Confirm(s, f, again))
  {
    var t := s.(authRoutingPending := false, appliedKey := f.key);
    var u := t.(lastReport := Some(Requested(t.desiredHealth)));
    if f.key == s.desiredKey {
      WantAllKeeps(u, again);
      FlushStaysIff(WantAll(u, again).(inFlight := false));
    } else {
      FlushStaysIff(t.(inFlight := false));
    }
  }

  lemma {:induction false} VerifyNeverStays(s: State, f: Flight, epoch: nat, failed: bool, control: Control, value: Installed,
                                            again: seq<Request>)
    requires Base(s) && s.inFlight && s.pending == [] && FlightOk(f) && s.lastWritten == InstalledBy(f.value)
    ensures !StaysWarm(OnVerify(s, f, epoch, failed, control, value, again))
  {
    FailNeverStays(s, f, if failed then Unavailable else Conflicted, again);
    if !f.warming {
      ConfirmNeverStays(s, f, again);
    }
  }

  lemma {:induction false} ProbeStaysIff(s: State, f: Flight, kind: ProbeKind, ok: bool, again: seq<Request>)
    requires Coherent(s) && s.inFlight && s.pending == []
    ensures StaysWarm(OnProbe(s, f, kind, ok, again)) <==> GoesOn(s, f, kind, ok) && NothingToDo(s, s.desiredKey)
  {
    var mine := kind.Fetching? && s.auth.probe == Some(kind.controller);
    var t := if mine then s.(auth := s.auth.(probe := None, readyPort := if ok then Some(f.port) else s.auth.readyPort)) else s;
    if GoesOn(s, f, kind, ok) {
      FlushStaysIff(t.(inFlight := false));
    } else {
      FailNeverStays(t.(errorKey := f.key), f, Unavailable, again);
    }
  }

  lemma {:induction false} AnswerStaysIff(s: State, e: Event)
    requires Inv(s) && Answers(s, e)
    ensures StaysWarm(Step(s, e)) <==> LeavesWarm(s, e)
  {
    var f, d := s.pending[0].flight, Deliver(s, 0);
    match e {
      case ReadDone(_, failed, control, again) => ReadStaysIff(d, f, failed, control, again);
      case WriteDone(_, failed, again) => WriteNeverStays(d, f, failed, again);
      case VerifyDone(_, failed, control, value, again) =>
        VerifyNeverStays(d, f, s.pending[0].epoch, failed, control, value, again);
      case ProbeDone(_, ok, again) => ProbeStaysIff(d, f, s.pending[0].kind, ok, again);
    }
  }

  lemma {:induction false} AskStaysIff(s: State, request: Request)
    requires Inv(s)
    ensures StaysWarm(Flush(Want(s, request))) <==> !s.inFlight && NothingToDo(s, Want(s, request).desiredKey)
  {
    WantKeeps(s, request);
    if !s.inFlight {
      FlushStaysIff(Want(s, request));
    }
  }

  lemma {:induction false} ChangedStaysIff(s: State, control: Control, value: Installed)
    requires Inv(s)
    ensures StaysWarm(OnChanged(s, control, value)) <==> LeavesWarm(s, Changed(control, value))
  {
    if !s.inFlight && s.desired.Some? && !Foreign(control) {
      var key := if value != Wrote(s.desired.value) then NoKey else s.appliedKey;
      FlushStaysIff(s.(changeEpoch := s.changeEpoch + 1, appliedKey := key));
      assert OnChanged(s, control, value) == Flush(s.(changeEpoch := s.changeEpoch + 1, appliedKey := key));
    }
  }

  lemma {:induction false} StepStaysIff(s: State, e: Event)
    requires Inv(s)
    ensures StaysWarm(Step(s, e)) <==> LeavesWarm(s, e)
  {
    if Answers(s, e) {
      AnswerStaysIff(s, e);
    } else if e.Ask? {
      AskStaysIff(s, e.request);
    } else if e.Changed? {
      ChangedStaysIff(s, e.control, e.value);
    }
  }

  /** Over every run, exactly when its last event leaves a warm-up program installed without
      a failure report. */
  lemma {:induction false} WarmStaysIff(events: seq<Event>, e: Event)
    ensures StaysWarm(Run(events + [e])) <==> LeavesWarm(Run(events), e)
  {
    RunKeeps(events);
    StepStaysIff(Run(events), e);
    var more := After(events, e);
  }

  /** A settled manager without a failure report holds exactly what was asked, except where
      a warm-up program stays. */
  lemma {:induction false} HoldsUnlessWarm(events: seq<Event>, e: Event)
    requires var s := Run(events + [e]); !s.inFlight && s.desiredKey != NoKey && !Failed(s)
    ensures Run(events + [e]).lastWritten == InstalledBy(Run(events + [e]).desired) <==> !LeavesWarm(Run(events), e)
  {
    RunKeeps(events + [e]);
    WarmStaysIff(events, e);
  }

  /** The warm-up case does occur. Releasing routing while the probe runs leaves the
      warm-up program installed and reports that routing is inactive, because writing
      it did not forget the release applied before. */
  lemma {:induction false} WarmupOutlivesRelease(policy: Policy, login: Login) returns (events: seq<Event>)
    requires policy.mode == Active && policy.proxyPort == Some(login.port)
    ensures var s := Run(events);
            !s.inFlight && s.desired.None? && s.lastReport == Some(Requested(Inactive)) && s.lastWritten.IsWarmup()
  {
    events := WarmupInstalled(policy, login);
    ReleasedWhileProbing(Run(events));
    events := After(events, Ask(Clear));
    events := After(events, ProbeDone(0, true, []));
  }

  /** A second way: a proxy error while the warm-up program is being verified. Its report is
      replaced by that of the warm-up, and the latched error keeps the routing program
      from being written once the probe has succeeded. */
  lemma {:induction false} WarmupOutlivesError(policy: Policy, login: Login) returns (events: seq<Event>)
    requires policy.mode == Active && policy.proxyPort == Some(login.port)
    ensures var s := Run(events);
            !s.inFlight && s.desired.Some? && s.lastReport == Some(Preparing) && s.lastWritten.IsWarmup()
  {
    events := ReleaseApplied(login);
    WarmupStarts(Run(events), policy, login);
    events := After(events, Ask(Apply(policy)));
    var f := Run(events).pending[0].flight;
    events := VerifyReached(events);
    events := After(events, ProxyError(false, OtherError));
    WarmupVerified(Run(events), f);
    events := After(events, VerifyDone(0, false, ThisExtension, Wrote(f.value.value), []));
    LatchedErrorRests(Run(events), f);
    events := After(events, ProbeDone(0, true, []));
  }

  /** A warm-up was verified after an error was latched for its key. */
  predicate LatchedError(s: State, f: Flight) {
    && s.desired.Some? && s.desiredKey.ProgramKey? && s.errorKey == s.desiredKey
    && s.lastReport == Some(Preparing) && s.lastWritten.IsWarmup()
    && s.pending == [AwaitProbe(f, Fetching(0))] && s.auth.probe == Some(0)
  }

  lemma {:induction false} WarmupVerified(s: State, f: Flight)
    requires s.desired.Some? && s.desiredKey.ProgramKey? && s.errorKey == s.desiredKey && s.lastWritten.IsWarmup()
    requires s.pending == [AwaitVerify(f, s.changeEpoch)] && f.warming && f.key == s.desiredKey && f.value.Some?
    requires s.auth.HasSessionFor(f.port) && s.auth.readyPort.None? && s.auth.controllers == 0
    ensures LatchedError(Step(s, VerifyDone(0, false, ThisExtension, Wrote(f.value.value), [])), f)
  {
  }

  lemma {:induction false} LatchedErrorRests(s: State, f: Flight)
    requires LatchedError(s, f)
    ensures var t := Step(s, ProbeDone(0, true, []));
            !t.inFlight && t.desired.Some? && t.lastReport == Some(Preparing) && t.lastWritten.IsWarmup()
  {
  }

  // An update that nothing disturbs, callback by callback.

  lemma {:induction false} ReadOn(s: State, f: Flight)
    requires s.pending == [AwaitRead(f)] && f.key == s.desiredKey
    ensures Step(s, ReadDone(0, false, Controllable, [])) == s.(lastWritten := InstalledBy(f.value), pending := [AwaitWrite(f)])
  {
    assert Deliver(s, 0).pending == [];
  }

  lemma {:induction false} WriteOn(s: State, f: Flight)
    requires s.pending == [AwaitWrite(f)]
    ensures Step(s, WriteDone(0, false, [])) == s.(pending := [AwaitVerify(f, s.changeEpoch)])
  {
    assert Deliver(s, 0).pending == [];
  }

  lemma {:induction false} VerifyOn(s: State, f: Flight)
    requires s.pending == [AwaitVerify(f, s.changeEpoch)] && f.key == s.desiredKey && !f.warming
    ensures Step(s, VerifyDone(0, false, ThisExtension, InstalledBy(f.value), []))
            == s.(authRoutingPending := false, appliedKey := f.key, lastReport := Some(Requested(s.desiredHealth)), inFlight := false, pending := [])
  {
    assert Deliver(s, 0).pending == [];
  }

  lemma {:induction false} ReleaseApplied(login: Login) returns (events: seq<Event>)
    ensures var s := Run(events);
            && s.appliedKey == ClearKey && s.desiredKey == ClearKey && s.pending == [] && !s.inFlight
            && s.auth == Auth(Some(login), None, None, 0)
  {
    events := After([], SetSession(Some(login)));
    events := After(events, Ask(Clear));
    var f := Flight(ClearKey, 1, 0, false, None);
    assert Run(events).pending == [AwaitRead(f)];
    ReadOn(Run(events), f);
    events := After(events, ReadDone(0, false, Controllable, []));
    WriteOn(Run(events), f);
    events := After(events, WriteDone(0, false, []));
    VerifyOn(Run(events), f);
    events := After(events, VerifyDone(0, false, ThisExtension, Cleared, []));
  }

  lemma {:induction false} ReleasedWhileProbing(s: State)
    requires Probing(s)
    ensures var t := Step(Step(s, Ask(Clear)), ProbeDone(0, true, []));
            !t.inFlight && t.desired.None? && t.lastReport == Some(Requested(Inactive)) && t.lastWritten.IsWarmup()
  {
    var t := Step(s, Ask(Clear));
    assert t.pending == s.pending && t.desiredKey == ClearKey && t.errorKey == NoKey && t.auth == s.auth;
  }

  lemma {:induction false} WarmupInstalled(policy: Policy, login: Login) returns (events: seq<Event>)
    requires policy.mode == Active && policy.proxyPort == Some(login.port)
    ensures Probing(Run(events))
  {
    events := ReleaseApplied(login);
    WarmupStarts(Run(events), policy, login);
    events := After(events, Ask(Apply(policy)));
    events := ProbeReached(events);
  }

  /** After a release was applied: active routing is asked for and an update is running. */
  predicate ActiveAsked(s: State) {
    && s.inFlight && s.appliedKey == ClearKey && s.errorKey == NoKey
    && s.desired.Some? && s.desiredKey == ProgramKey(s.desired.value) && s.desiredHealth == ActiveStatus
    && s.auth.login.Some? && s.activePort == s.auth.login.value.port
  }

  predicate Probing(s: State) {
    && ActiveAsked(s) && s.lastWritten.IsWarmup() && s.auth.probe == Some(0)
    && |s.pending| == 1 && s.pending[0].AwaitProbe? && s.pending[0].kind == Fetching(0)
    && s.pending[0].flight.port == s.activePort
  }

  lemma {:induction false} VerifyReached(events: seq<Event>) returns (more: seq<Event>)
    requires WarmupReading(Run(events))
    ensures var s, t := Run(events), Run(more);
            t == s.(pending := [AwaitVerify(s.pending[0].flight, s.changeEpoch)], lastWritten := InstalledBy(s.pending[0].flight.value))
  {
    var f := Run(events).pending[0].flight;
    more := After(events, ReadDone(0, false, Controllable, []));
    assert Run(more).pending == [AwaitWrite(f)];
    more := After(more, WriteDone(0, false, []));
  }

  lemma {:induction false} ProbeReached(events: seq<Event>) returns (more: seq<Event>)
    requires WarmupReading(Run(events))
    ensures Probing(Run(more))
  {
    var f := Run(events).pending[0].flight;
    more := VerifyReached(events);
    more := After(more, VerifyDone(0, false, ThisExtension, Wrote(f.value.value), []));
  }

  predicate WarmupReading(s: State) {
    && ActiveAsked(s) && s.auth.readyPort.None? && s.auth.controllers == 0
    && |s.pending| == 1 && s.pending[0].AwaitRead?
    && var f := s.pending[0].flight;
       f.warming && f.key == s.desiredKey && f.port == s.activePort && f.value.Some? && WarmsUp(f.value.value)
  }

  lemma {:induction false} WarmupFlush(s: State, program: Program, warmup: Program, login: Login)
    requires s.appliedKey == ClearKey && s.desiredKey == ClearKey && s.pending == [] && !s.inFlight
    requires s.auth == Auth(Some(login), None, None, 0) && WarmsUp(warmup)
    ensures WarmupReading(Flush(Wanted(s, program, Some(warmup), login.port)))
  {
  }

  lemma {:induction false} WarmupStarts(s: State, policy: Policy, login: Login)
    requires policy.mode == Active && policy.proxyPort == Some(login.port)
    requires s.appliedKey == ClearKey && s.desiredKey == ClearKey && s.pending == [] && !s.inFlight
    requires s.auth == Auth(Some(login), None, None, 0)
    ensures WarmupReading(Step(s, Ask(Apply(policy))))
  {
    WarmupFlush(s, Generate(policy, login.port, None), Generate(policy, BLOCKED_PORT, Some(login.port)), login);
  }

  // ---------- authentication behind an active report ----------

  /** A flight that writes a program for the helper's port without a warm-up. */
  predicate Routes(f: Flight) { !f.warming && f.key.ProgramKey? && f.port > 0 }

  /** Authentication is ready for such a flight exactly while its session lasts; the flight
      began in a session not older than `since`. */
  predicate FlightAuth(auth: Auth, epoch: nat, f: Flight, since: nat) {
    f.sessionEpoch <= epoch
    && (Routes(f) ==> since <= f.sessionEpoch && (auth.IsReadyFor(f.port) <==> f.sessionEpoch == epoch))
  }

  /** A key for the port of a routing program, or for the closed port. */
  predicate KeyPort(key: Key, port: nat) {
    key.ProgramKey? ==> key.program.port == if port > 0 then port else BLOCKED_PORT
  }

  predicate PortOk(s: State) {
    && KeyPort(s.desiredKey, s.activePort)
    && (s.desiredHealth == ActiveStatus <==> s.desiredKey.ProgramKey? && s.activePort > 0)
  }

  /** A probe that has not been replaced belongs to the current session. */
  predicate ProbeOk(auth: Auth, c: Callback) {
    KeyPort(c.flight.key, c.flight.port)
    && (c.AwaitProbe? && c.kind.Fetching? && auth.probe == Some(c.kind.controller) ==> auth.HasSessionFor(c.flight.port))
  }

  predicate AuthInv(s: State, since: nat) {
    PortOk(s) && since <= s.sessionEpoch && forall i | 0 <= i < |s.pending| ::
      FlightAuth(s.auth, s.sessionEpoch, s.pending[i].flight, since) && ProbeOk(s.auth, s.pending[i])
  }

  predicate SameAuth(s: State, t: State) {
    t.auth == s.auth && t.sessionEpoch == s.sessionEpoch && t.pending == s.pending && t.inFlight == s.inFlight
  }

  lemma {:induction false} FlushAuth(s: State, since: nat)
    requires AuthInv(s, since)
    ensures AuthInv(Flush(s), since)
  {
  }

  lemma {:induction false} WantAuth(s: State, request: Request)
    requires PortOk(s)
    ensures PortOk(Want(s, request)) && SameAuth(s, Want(s, request))
  {
  }

  lemma {:induction false} WantAllAuth(s: State, requests: seq<Request>, since: nat)
    requires AuthInv(s, since)
    ensures AuthInv(WantAll(s, requests), since)
    ensures WantAll(s, requests).auth == s.auth
  {
    if requests != [] {
      var t := WantAll(s, requests[..|requests| - 1]);
      WantAllAuth(s, requests[..|requests| - 1], since);
      WantAuth(t, requests[|requests| - 1]);
      FlushAuth(Want(t, requests[|requests| - 1]), since);
    }
  }

  lemma {:induction false} FinishAuth(s: State, f: Flight, since: nat)
    requires AuthInv(s, since)
    ensures AuthInv(Finish(s, f), since)
  {
    FlushAuth(s.(inFlight := false), since);
  }

  lemma {:induction false} FailAuth(s: State, f: Flight, report: Report, again: seq<Request>, since: nat)
    requires AuthInv(s, since)
    ensures AuthInv(Fail(s, f, report, again), since)
  {
    var t := s.(appliedKey := NoKey, lastReport := Some(report));
    WantAllAuth(t, again, since);
    FinishAuth(WantAll(t, again), f, since);
  }

  lemma {:induction false} ConfirmAuth(s: State, f: Flight, again: seq<Request>, since: nat)
    requires AuthInv(s, since)
    ensures AuthInv(Confirm(s, f, again), since) && Confirm(s, f, again).auth == s.auth
  {
    var t := s.(authRoutingPending := false, appliedKey := f.key);
    var u := t.(lastReport := Some(Requested(t.desiredHealth)));
    WantAllAuth(u, again, since);
    FinishAuth(WantAll(u, again), f, since);
    FinishAuth(t, f, since);
  }

  lemma {:induction false} ReadAuth(s: State, f: Flight, failed: bool, control: Control, again: seq<Request>, since: nat)
    requires AuthInv(s, since) && FlightAuth(s.auth, s.sessionEpoch, f, since) && KeyPort(f.key, f.port)
    ensures AuthInv(OnRead(s, f, failed, control, again), since)
  {
    FlushAuth(s.(inFlight := false), since);
    FailAuth(s, f, Unavailable, again, since);
    FailAuth(s, f, Conflicted, again, since);
  }

  lemma {:induction false} PrepareAuthKept(s: State, f: Flight, since: nat)
    requires AuthInv(s, since) && s.pending == [] && FlightAuth(s.auth, s.sessionEpoch, f, since) && KeyPort(f.key, f.port) && f.warming
    ensures AuthInv(Prepare(s, f), since)
  {
  }

  lemma {:induction false} VerifyAuth(s: State, f: Flight, epoch: nat, failed: bool, control: Control, value: Installed,
                                      again: seq<Request>, since: nat)
    requires AuthInv(s, since) && s.pending == [] && FlightAuth(s.auth, s.sessionEpoch, f, since) && KeyPort(f.key, f.port)
    ensures AuthInv(OnVerify(s, f, epoch, failed, control, value, again), since)
  {
    if epoch != s.changeEpoch {
    } else if failed {
      FailAuth(s, f, Unavailable, again, since);
    } else if f.value.Some? && (control != ThisExtension || value != Wrote(f.value.value)) {
      FailAuth(s, f, Conflicted, again, since);
    } else if f.warming {
      PrepareAuthKept(if f.key == s.desiredKey then s.(lastReport := Some(Preparing)) else s, f, since);
    } else {
      ConfirmAuth(s, f, again, since);
    }
  }

  lemma {:induction false} ProbeAuth(s: State, f: Flight, kind: ProbeKind, ok: bool, again: seq<Request>, since: nat)
    requires PortOk(s) && since <= s.sessionEpoch && s.pending == []
    ensures AuthInv(OnProbe(s, f, kind, ok, again), since)
  {
    var mine := kind.Fetching? && s.auth.probe == Some(kind.controller);
    var t := if mine then s.(auth := s.auth.(probe := None, readyPort := if ok then Some(f.port) else s.auth.readyPort)) else s;
    if GoesOn(s, f, kind, ok) {
      FlushAuth(t.(inFlight := false), since);
    } else {
      FailAuth(t.(errorKey := f.key), f, Unavailable, again, since);
    }
  }

  lemma {:induction false} AnswerAuth(s: State, e: Event, since: nat)
    requires Inv(s) && AuthInv(s, since) && Answers(s, e)
    ensures AuthInv(Step(s, e), since)
  {
    var f, d := s.pending[0].flight, Deliver(s, 0);
    match e {
      case ReadDone(_, failed, control, again) => ReadAuth(d, f, failed, control, again, since);
      case WriteDone(_, failed, again) => FailAuth(d, f, Unavailable, again, since);
      case VerifyDone(_, failed, control, value, again) => VerifyAuth(d, f, s.pending[0].epoch, failed, control, value, again, since);
      case ProbeDone(_, ok, again) => ProbeAuth(d, f, s.pending[0].kind, ok, again, since);
    }
  }

  lemma {:induction false} ChangedAuth(s: State, control: Control, value: Installed, since: nat)
    requires AuthInv(s, since)
    ensures AuthInv(OnChanged(s, control, value), since)
  {
    if !s.inFlight && s.desired.Some? && !Foreign(control) {
      var key := if value != Wrote(s.desired.value) then NoKey else s.appliedKey;
      FlushAuth(s.(changeEpoch := s.changeEpoch + 1, appliedKey := key), since);
      assert OnChanged(s, control, value) == Flush(s.(changeEpoch := s.changeEpoch + 1, appliedKey := key));
    }
  }

  lemma {:induction false} StepAuth(s: State, e: Event, since: nat)
    requires Inv(s) && AuthInv(s, since)
    ensures AuthInv(Step(s, e), since)
  {
    if Answers(s, e) {
      AnswerAuth(s, e, since);
    } else if e.Ask? {
      WantAuth(s, e.request);
      FlushAuth(Want(s, e.request), since);
    } else if e.Changed? {
      ChangedAuth(s, e.control, e.value, since);
    }
  }

  lemma {:induction false} RunAuth(events: seq<Event>)
    ensures AuthInv(Run(events), 0)
  {
    if events != [] {
      var s := Run(events[..|events| - 1]);
      RunAuth(events[..|events| - 1]);
      RunKeeps(events[..|events| - 1]);
      StepAuth(s, events[|events| - 1], 0);
    }
  }

  /** A routing flight waits for its verification and is still what is wanted. */
  predicate AboutToConfirm(s: State, f: Flight) {
    RoutingWanted(s, f) && s.pending == [AwaitVerify(f, s.changeEpoch)]
  }

  /** The answer that the browser holds the flight's program. */
  function Verification(f: Flight): Event
    requires f.value.Some?
  {
    VerifyDone(0, false, ThisExtension, Wrote(f.value.value), [])
  }

  lemma {:induction false} Confirms(s: State, f: Flight)
    requires AboutToConfirm(s, f) && PortOk(s)
    ensures var t := Step(s, Verification(f));
            && !t.inFlight && t.appliedKey == t.desiredKey && t.lastReport == Some(Requested(ActiveStatus))
            && t.auth == s.auth
  {
  }

  /** Over every run, a verified routing program is reported active, and authentication is
      then ready if and only if the session has not changed since the flight began. */
  lemma {:induction false} ActiveIsReadyIff(events: seq<Event>, f: Flight)
    requires AboutToConfirm(Run(events), f)
    ensures var s, t := Run(events), Run(events + [Verification(f)]);
            && !t.inFlight && t.appliedKey == t.desiredKey && t.lastReport == Some(Requested(ActiveStatus))
            && (t.auth.IsReadyFor(f.port) <==> f.sessionEpoch == s.sessionEpoch)
  {
    RunAuth(events);
    Confirms(Run(events), f);
    assert Run(events).pending[0].flight == f;
    var more := After(events, Verification(f));
  }

  /** Authentication is ready for a routing program recorded as applied. */
  predicate AppliedReady(s: State) {
    s.appliedKey.ProgramKey? && s.appliedKey.program.port != BLOCKED_PORT ==> s.auth.IsReadyFor(s.appliedKey.program.port)
  }

  /** Nothing new is recorded as applied, and authentication is as ready as before. */
  predicate NothingApplied(s: State, t: State) {
    && (t.appliedKey == s.appliedKey || t.appliedKey == NoKey)
    && t.auth.login == s.auth.login && t.auth.readyPort == s.auth.readyPort && t.sessionEpoch == s.sessionEpoch
  }

  lemma {:induction false} WantAllApplies(s: State, requests: seq<Request>)
    ensures NothingApplied(s, WantAll(s, requests))
  {
    if requests != [] {
      WantAllApplies(s, requests[..|requests| - 1]);
      FlushApplies(Want(WantAll(s, requests[..|requests| - 1]), requests[|requests| - 1]));
    }
  }

  lemma {:induction false} FailApplies(s: State, f: Flight, report: Report, again: seq<Request>)
    ensures NothingApplied(s, Fail(s, f, report, again))
  {
    WantAllApplies(s.(appliedKey := NoKey, lastReport := Some(report)), again);
  }

  lemma {:induction false} ReadApplies(s: State, f: Flight, failed: bool, control: Control, again: seq<Request>)
    ensures NothingApplied(s, OnRead(s, f, failed, control, again))
  {
    FailApplies(s, f, if failed then Unavailable else Conflicted, again);
  }

  lemma {:induction false} ConfirmApplies(s: State, f: Flight, again: seq<Request>)
    requires KeyPort(f.key, f.port) && !f.warming && (Routes(f) ==> s.auth.IsReadyFor(f.port))
    ensures AppliedReady(Confirm(s, f, again)) && Confirm(s, f, again).sessionEpoch == s.sessionEpoch
  {
    var t := s.(authRoutingPending := false, appliedKey := f.key);
    WantAllApplies(t.(lastReport := Some(Requested(t.desiredHealth))), again);
  }

  lemma {:induction false} PrepareApplies(s: State, f: Flight)
    ensures NothingApplied(s, Prepare(s, f))
  {
  }

  /** The browser holds what the flight wrote, and that was no warm-up. */
  predicate Confirmed(s: State, f: Flight, epoch: nat, failed: bool, control: Control, value: Installed) {
    epoch == s.changeEpoch && !failed && !f.warming && (f.value.Some? ==> control == ThisExtension && value == Wrote(f.value.value))
  }

  lemma {:induction false} UnconfirmedApplies(s: State, f: Flight, epoch: nat, failed: bool, control: Control, value: Installed,
                                              again: seq<Request>)
    requires !Confirmed(s, f, epoch, failed, control, value)
    ensures NothingApplied(s, OnVerify(s, f, epoch, failed, control, value, again))
  {
    FailApplies(s, f, if failed then Unavailable else Conflicted, again);
    PrepareApplies(if f.key == s.desiredKey then s.(lastReport := Some(Preparing)) else s, f);
  }

  lemma {:induction false} VerifyApplies(s: State, f: Flight, epoch: nat, failed: bool, control: Control, value: Installed,
                                         again: seq<Request>)
    requires AppliedReady(s) && KeyPort(f.key, f.port) && (Routes(f) ==> s.auth.IsReadyFor(f.port))
    ensures var t := OnVerify(s, f, epoch, failed, control, value, again); AppliedReady(t) && t.sessionEpoch == s.sessionEpoch
  {
    if Confirmed(s, f, epoch, failed, control, value) {
      ConfirmApplies(s, f, again);
      assert OnVerify(s, f, epoch, failed, control, value, again) == Confirm(s, f, again);
    } else {
      UnconfirmedApplies(s, f, epoch, failed, control, value, again);
    }
  }

  lemma {:induction false} FlushApplies(s: State)
    ensures NothingApplied(s, Flush(s))
  {
  }

  lemma {:induction false} ProbeApplies(s: State, f: Flight, kind: ProbeKind, ok: bool, again: seq<Request>)
    requires AppliedReady(s) && ProbeOk(s.auth, AwaitProbe(f, kind))
    ensures AppliedReady(OnProbe(s, f, kind, ok, again)) && OnProbe(s, f, kind, ok, again).sessionEpoch == s.sessionEpoch
  {
    var mine := kind.Fetching? && s.auth.probe == Some(kind.controller);
    var t := if mine then s.(auth := s.auth.(probe := None, readyPort := if ok then Some(f.port) else s.auth.readyPort)) else s;
    assert AppliedReady(t);
    if GoesOn(s, f, kind, ok) {
      FlushApplies(t.(inFlight := false));
    } else {
      FailApplies(t.(errorKey := f.key), f, Unavailable, again);
    }
  }

  lemma {:induction false} AnswerApplies(s: State, e: Event)
    requires Inv(s) && AuthInv(s, s.sessionEpoch) && AppliedReady(s) && Answers(s, e)
    ensures AppliedReady(Step(s, e)) && Step(s, e).sessionEpoch == s.sessionEpoch
  {
    var c, d := s.pending[0], Deliver(s, 0);
    match e {
      case ReadDone(_, failed, control, again) => ReadApplies(d, c.flight, failed, control, again);
      case WriteDone(_, failed, again) => FailApplies(d, c.flight, Unavailable, again);
      case VerifyDone(_, failed, control, value, again) => VerifyApplies(d, c.flight, c.epoch, failed, control, value, again);
      case ProbeDone(_, ok, again) => ProbeApplies(d, c.flight, c.kind, ok, again);
    }
  }

  /** The session changes. */
  predicate Renews(s: State, e: Event) { e.SetSession? && (e.login.None? || s.auth.login != e.login) }

  predicate RoutingInFlight(s: State) { exists i :: 0 <= i < |s.pending| && Routes(s.pending[i].flight) }

  lemma {:induction false} RenewalApplies(s: State, login: Option<Login>)
    requires AuthInv(s, s.sessionEpoch) && Renews(s, SetSession(login)) && !RoutingInFlight(s)
    ensures var t := OnSession(s, login); AuthInv(t, t.sessionEpoch) && AppliedReady(t)
  {
  }

  lemma {:induction false} ChangedApplies(s: State, control: Control, value: Installed)
    ensures NothingApplied(s, OnChanged(s, control, value))
  {
    if !s.inFlight && s.desired.Some? && !Foreign(control) {
      var key := if value != Wrote(s.desired.value) then NoKey else s.appliedKey;
      FlushApplies(s.(changeEpoch := s.changeEpoch + 1, appliedKey := key));
      assert OnChanged(s, control, value) == Flush(s.(changeEpoch := s.changeEpoch + 1, appliedKey := key));
    }
  }

  lemma {:induction false} UnansweredApplies(s: State, e: Event)
    requires !Renews(s, e) && !Answers(s, e)
    ensures NothingApplied(s, Step(s, e))
  {
    if e.Ask? {
      FlushApplies(Want(s, e.request));
    } else if e.Changed? {
      ChangedApplies(s, e.control, e.value);
    }
  }

  lemma {:induction false} StepApplies(s: State, e: Event)
    requires Inv(s) && AuthInv(s, s.sessionEpoch) && AppliedReady(s) && !(Renews(s, e) && RoutingInFlight(s))
    ensures AuthInv(Step(s, e), Step(s, e).sessionEpoch) && AppliedReady(Step(s, e))
  {
    if Renews(s, e) {
      RenewalApplies(s, e.login);
    } else {
      StepAuth(s, e, s.sessionEpoch);
      if Answers(s, e) {
        AnswerApplies(s, e);
      } else {
        UnansweredApplies(s, e);
      }
    }
  }

  /** No session changes while a routing program is being installed. */
  predicate NeverRenewsInFlight(events: seq<Event>) {
    forall i | 0 <= i < |events| :: !(Renews(Run(events[..i]), events[i]) && RoutingInFlight(Run(events[..i])))
  }

  lemma {:induction false} RunApplies(events: seq<Event>)
    requires NeverRenewsInFlight(events)
    ensures var s := Run(events); AuthInv(s, s.sessionEpoch) && AppliedReady(s)
  {
    if events != [] {
      var n, front := |events| - 1, events[..|events| - 1];
      assert forall i | 0 <= i < n :: front[..i] == events[..i];
      RunApplies(front);
      RunKeeps(front);
      StepApplies(Run(front), events[n]);
    }
  }

  /** Over every run in which no session changes while a routing program is being installed,
      active routing that is recorded as applied is authenticated. */
  lemma {:induction false} AppliedIsReady(events: seq<Event>)
    requires NeverRenewsInFlight(events)
    requires var s := Run(events); s.desiredHealth == ActiveStatus && s.appliedKey == s.desiredKey && s.activePort != BLOCKED_PORT
    ensures Run(events).auth.IsReadyFor(Run(events).activePort)
  {
    RunApplies(events);
  }

  /** The other case does occur: a session lost while the program is being verified. */
  lemma {:induction false} ActiveWithoutSession(policy: Policy, login: Login) returns (events: seq<Event>)
    requires policy.mode == Active && policy.proxyPort == Some(login.port)
    ensures var s := Run(events);
            !s.inFlight && s.appliedKey == s.desiredKey && s.lastReport == Some(Requested(ActiveStatus)) && s.auth.login.None?
  {
    events := WarmupInstalled(policy, login);
    var f := RoutingFlight(Run(events));
    RoutingStarts(Run(events), f);
    events := After(events, ProbeDone(0, true, []));
    RoutingWritten(Run(events), f);
    events := After(events, ReadDone(0, false, Controllable, []));
    events := After(events, WriteDone(0, false, []));
    SessionLost(Run(events), f);
    events := After(events, SetSession(None));
    RunAuth(events);
    Confirms(Run(events), f);
    events := After(events, Verification(f));
  }

  function RoutingFlight(s: State): Flight { Flight(s.desiredKey, s.sessionEpoch, s.activePort, false, s.desired) }

  predicate RoutingWanted(s: State, f: Flight) {
    Routes(f) && f.value.Some? && f.key == s.desiredKey && f.port == s.activePort
  }

  lemma {:induction false} RoutingStarts(s: State, f: Flight)
    requires Probing(s) && f == RoutingFlight(s)
    ensures var t := Step(s, ProbeDone(0, true, []));
            RoutingWanted(t, f) && t.pending == [AwaitRead(f)]
  {
  }

  lemma {:induction false} RoutingWritten(s: State, f: Flight)
    requires RoutingWanted(s, f) && s.pending == [AwaitRead(f)]
    ensures var t := Step(Step(s, ReadDone(0, false, Controllable, [])), WriteDone(0, false, []));
            RoutingWanted(t, f) && t.pending == [AwaitVerify(f, t.changeEpoch)]
  {
    assert Step(s, ReadDone(0, false, Controllable, [])).pending == [AwaitWrite(f)];
  }

  lemma {:induction false} SessionLost(s: State, f: Flight)
    requires RoutingWanted(s, f) && s.pending == [AwaitVerify(f, s.changeEpoch)]
    ensures var t := Step(s, SetSession(None)); AboutToConfirm(t, f) && t.auth.login.None?
  {
  }

  // ---------- the manager, field by field ----------

  /** The manager as written: fields updated step by step, each entry point proved
      against the protocol above. The callbacks it hands to the browser are kept in
      `pending`. */
  class ChromeProxyManager {
    var auth: Auth
    var desired: Option<Program>
    var authPending: Option<Program>
    var desiredKey: Key
    var appliedKey: Key
    var errorKey: Key
    var inFlight: bool
    var authRoutingPending: bool
    var changeEpoch: nat
    var sessionEpoch: nat
    var activePort: nat
    var desiredHealth: Status
    var pending: seq<Callback>
    var lastWritten: Installed
    var lastReport: Option<Report>

    ghost function View(): State
      reads this
    {
      State(auth, desired, authPending, desiredKey, appliedKey, errorKey, inFlight, authRoutingPending, changeEpoch,
            sessionEpoch, activePort, desiredHealth, pending, lastWritten, lastReport)
    }

    constructor ()
      ensures View() == INITIAL && Inv(View())
    {
      auth := Auth(None, None, None, 0);
      desired, authPending := None, None;
      desiredKey, appliedKey, errorKey := NoKey, NoKey, NoKey;
      inFlight, authRoutingPending := false, false;
      changeEpoch, sessionEpoch, activePort := 0, 0, 0;
      desiredHealth, pending, lastWritten, lastReport := Inactive, [], Untouched, None;
    }

    method FlushNow()
      modifies this
      ensures View() == Flush(old(View()))
    {
      if desiredKey == NoKey || inFlight || errorKey == desiredKey {
        return;
      }
      if appliedKey == desiredKey {
        lastReport := Some(Requested(desiredHealth));
        return;
      }
      inFlight := true;
      var warming := desiredHealth == ActiveStatus && !auth.IsReadyFor(activePort);
      if warming {
        authRoutingPending := true;
      }
      var value := if warming then authPending else desired;
      pending := pending + [AwaitRead(Flight(desiredKey, sessionEpoch, activePort, warming, value))];
    }

    method SetProxySession(login: Option<Login>)
      modifies this
      ensures View() == Step(old(View()), SetSession(login))
      ensures Inv(old(View())) ==> Inv(View())
    {
      StepKeeps(View(), SetSession(login));
      if login.Some? && auth.login == login {
        return;
      }
      auth := auth.(probe := None, readyPort := None, login := login);
      sessionEpoch := sessionEpoch + 1;
      appliedKey, errorKey := NoKey, NoKey;
    }

    method ApplyPolicy(policy: Policy)
      modifies this
      ensures View() == Step(old(View()), Ask(Apply(policy)))
      ensures Inv(old(View())) ==> Inv(View())
    {
      StepKeeps(View(), Ask(Apply(policy)));
      WantPolicy(policy);
      FlushNow();
    }

    /** `apply` up to its call of `flush`. */
    method WantPolicy(policy: Policy)
      modifies this
      ensures View() == Want(old(View()), Apply(policy))
    {
      if policy.mode == Direct {
        WantNothing();
      } else if IsBlocked(policy, SessionOf(auth.login)) {
        WantProgram(Generate(policy, BLOCKED_PORT, None), None, 0);
      } else {
        var port := auth.login.value.port;
        WantProgram(Generate(policy, port, None), Some(Generate(policy, BLOCKED_PORT, Some(port))), port);
      }
    }

    method SetDesired(program: Option<Program>, warmup: Option<Program>, key: Key, health: Status)
      modifies this`desired, this`authPending, this`errorKey, this`desiredKey, this`desiredHealth
      ensures desired == program && authPending == warmup && desiredKey == key && desiredHealth == health
      ensures errorKey == if old(desiredKey) != key then NoKey else old(errorKey)
    {
      desiredHealth := health;
      desired, authPending := program, warmup;
      if key != desiredKey {
        errorKey := NoKey;
      }
      desiredKey := key;
    }

    method WantProgram(program: Program, warmup: Option<Program>, port: nat)
      modifies this
      ensures View() == Wanted(old(View()), program, warmup, port)
    {
      activePort := port;
      SetDesired(Some(program), warmup, ProgramKey(program), if warmup.None? then BlockedStatus else ActiveStatus);
    }

    /** `clear` up to its call of `flush`. */
    method WantNothing()
      modifies this
      ensures View() == Want(old(View()), Clear)
    {
      SetDesired(None, None, ClearKey, Inactive);
    }

    method ClearSettings()
      modifies this
      ensures View() == Step(old(View()), Ask(Clear))
      ensures Inv(old(View())) ==> Inv(View())
    {
      StepKeeps(View(), Ask(Clear));
      WantNothing();
      FlushNow();
    }

    /** Requests made by the health listener while a report is delivered. */
    method Reenter(requests: seq<Request>)
      modifies this
      ensures View() == WantAll(old(View()), requests)
    {
      for i := 0 to |requests|
        invariant View() == WantAll(old(View()), requests[..i])
      {
        assert requests[..i + 1][..i] == requests[..i];
        match requests[i] {
          case Apply(policy) => WantPolicy(policy);
          case Clear => WantNothing();
        }
        FlushNow();
      }
      assert requests[..|requests|] == requests;
    }

    /** Ends the flight and flushes. */
    method Reflush()
      modifies this
      ensures View() == Flush(old(View()).(inFlight := false))
    {
      inFlight := false;
      FlushNow();
    }

    method FinishFlight(flight: Flight)
      modifies this
      ensures View() == Finish(old(View()), flight)
    {
      inFlight := false;
      if flight.key != desiredKey {
        FlushNow();
      }
    }

    method FailFlight(flight: Flight, report: Report, again: seq<Request>)
      modifies this
      ensures View() == Fail(old(View()), flight, report, again)
    {
      appliedKey := NoKey;
      lastReport := Some(report);
      Reenter(again);
      FinishFlight(flight);
    }

    method HandleChange(control: Control, value: Installed)
      modifies this
      ensures View() == OnChanged(old(View()), control, value)
    {
      changeEpoch := changeEpoch + 1;
      if inFlight || desired.None? {
        return;
      }
      if Foreign(control) {
        appliedKey := NoKey;
        lastReport := Some(Conflicted);
      } else {
        if value != Wrote(desired.value) {
          appliedKey := NoKey;
        }
        FlushNow();
      }
    }

    method SettingsChanged(control: Control, value: Installed)
      modifies this
      ensures View() == Step(old(View()), Changed(control, value))
      ensures Inv(old(View())) ==> Inv(View())
    {
      StepKeeps(View(), Changed(control, value));
      HandleChange(control, value);
    }

    method ProxyErrorSeen(fatal: bool, error: NetError)
      modifies this
      ensures View() == Step(old(View()), ProxyError(fatal, error))
      ensures Inv(old(View())) ==> Inv(View())
    {
      StepKeeps(View(), ProxyError(fatal, error));
      if desired.None? || (authRoutingPending && fatal && error == ConnectionFailed) || (fatal && error == TunnelFailed) {
        return;
      }
      errorKey := desiredKey;
      appliedKey := NoKey;
      lastReport := Some(ProxyFailed(fatal));
    }

    method Take(i: nat) returns (c: Callback)
      requires i < |pending|
      modifies this`pending
      ensures c == old(pending)[i] && View() == Deliver(old(View()), i)
    {
      c := pending[i];
      pending := pending[..i] + pending[i + 1..];
    }

    method HandleRead(flight: Flight, failed: bool, control: Control, again: seq<Request>)
      modifies this
      ensures View() == OnRead(old(View()), flight, failed, control, again)
    {
      if flight.key != desiredKey {
        Reflush();
      } else if failed {
        FailFlight(flight, Unavailable, again);
      } else if flight.value.Some? && Foreign(control) {
        FailFlight(flight, Conflicted, again);
      } else {
        lastWritten := InstalledBy(flight.value);
        pending := pending + [AwaitWrite(flight)];
      }
    }

    method Read(i: nat, failed: bool, control: Control, again: seq<Request>)
      requires i < |pending| && pending[i].AwaitRead?
      modifies this
      ensures View() == Step(old(View()), ReadDone(i, failed, control, again))
      ensures Inv(old(View())) ==> Inv(View())
    {
      StepKeeps(View(), ReadDone(i, failed, control, again));
      var c := Take(i);
      HandleRead(c.flight, failed, control, again);
    }

    method HandleWrite(flight: Flight, failed: bool, again: seq<Request>)
      modifies this
      ensures View() == OnWrite(old(View()), flight, failed, again)
    {
      if failed {
        FailFlight(flight, Unavailable, again);
      } else {
        pending := pending + [AwaitVerify(flight, changeEpoch)];
      }
    }

    method Written(i: nat, failed: bool, again: seq<Request>)
      requires i < |pending| && pending[i].AwaitWrite?
      modifies this
      ensures View() == Step(old(View()), WriteDone(i, failed, again))
      ensures Inv(old(View())) ==> Inv(View())
    {
      StepKeeps(View(), WriteDone(i, failed, again));
      var c := Take(i);
      HandleWrite(c.flight, failed, again);
    }

    method HandleVerify(flight: Flight, epoch: nat, failed: bool, control: Control, value: Installed, again: seq<Request>)
      modifies this
      ensures View() == OnVerify(old(View()), flight, epoch, failed, control, value, again)
    {
      if epoch != changeEpoch {
        pending := pending + [AwaitVerify(flight, changeEpoch)];
      } else if failed {
        FailFlight(flight, Unavailable, again);
      } else if flight.value.Some? && (control != ThisExtension || value != Wrote(flight.value.value)) {
        FailFlight(flight, Conflicted, again);
      } else if flight.warming {
        if flight.key == desiredKey {
          lastReport := Some(Preparing);
        }
        PrepareAuth(flight);
      } else {
        ConfirmFlight(flight, again);
      }
    }

    method Verified(i: nat, failed: bool, control: Control, value: Installed, again: seq<Request>)
      requires i < |pending| && pending[i].AwaitVerify?
      modifies this
      ensures View() == Step(old(View()), VerifyDone(i, failed, control, value, again))
      ensures Inv(old(View())) ==> Inv(View())
    {
      StepKeeps(View(), VerifyDone(i, failed, control, value, again));
      var c := Take(i);
      HandleVerify(c.flight, c.epoch, failed, control, value, again);
    }

    method ConfirmFlight(flight: Flight, again: seq<Request>)
      modifies this
      ensures View() == Confirm(old(View()), flight, again)
    {
      authRoutingPending := false;
      appliedKey := flight.key;
      if flight.key == desiredKey {
        lastReport := Some(Requested(desiredHealth));
        Reenter(again);
      }
      FinishFlight(flight);
    }

    method PrepareAuth(flight: Flight)
      modifies this
      ensures View() == Prepare(old(View()), flight)
    {
      if !auth.HasSessionFor(flight.port) {
        pending := pending + [AwaitProbe(flight, NoSession)];
      } else if auth.IsReadyFor(flight.port) {
        pending := pending + [AwaitProbe(flight, AlreadyReady)];
      } else {
        var id := auth.controllers;
        auth := auth.(probe := Some(id), controllers := id + 1);
        pending := pending + [AwaitProbe(flight, Fetching(id))];
      }
    }

    /** The probe's own record of its outcome, if it was not replaced. */
    method RecordProbe(port: nat, ok: bool)
      modifies this`auth
      ensures auth == old(auth).(probe := None, readyPort := if ok then Some(port) else old(auth).readyPort)
    {
      if ok {
        auth := auth.(readyPort := Some(port));
      }
      auth := auth.(probe := None);
    }

    method HandleProbe(flight: Flight, kind: ProbeKind, ok: bool, again: seq<Request>)
      modifies this
      ensures View() == OnProbe(old(View()), flight, kind, ok, again)
    {
      var mine := kind.Fetching? && auth.probe == Some(kind.controller);
      if mine {
        RecordProbe(flight.port, ok);
      }
      if kind.AlreadyReady? || (mine && ok) || flight.key != desiredKey || flight.sessionEpoch != sessionEpoch {
        Reflush();
      } else {
        errorKey := flight.key;
        FailFlight(flight, Unavailable, again);
      }
    }

    method Probed(i: nat, ok: bool, again: seq<Request>)
      requires i < |pending| && pending[i].AwaitProbe?
      modifies this
      ensures View() == Step(old(View()), ProbeDone(i, ok, again))
      ensures Inv(old(View())) ==> Inv(View())
    {
      StepKeeps(View(), ProbeDone(i, ok, again));
      var c := Take(i);
      HandleProbe(c.flight, c.kind, ok, again);
    }
  }
}
