/** From the requests made of Chrome's manager to what the browser does with a host. */
module ChromeRequests {
  import opened Text
  import opened Policies
  import opened PacScript
  import opened ChromeFlush
  import Destinations

  /** A request with the session under which it was made. */
  datatype Asking = Asking(request: Request, session: Session) {
    predicate Releases() { request.Clear? || request.policy.mode == Direct }
    predicate Routes() { !Releases() && Destinations.Credentialed(request.policy, session) }
  }

  /** Where a request asks the browser to send a host: a release sends everything direct. */
  ghost function AskedDecision(a: Asking, raw: string): Decision {
    Destinations.ReadHostReadable(raw);
    if a.Releases() then GoDirect
    else
      var port := if a.Routes() then a.session.value else 1;
      Destinations.Wanted(a.request.policy, port, port != 1, Destinations.AsQuad(ReadHost(raw)))
  }

  /** What the browser does while the helper's authentication is being prepared. */
  ghost function WarmupDecision(a: Asking, raw: string): Decision
    requires a.Routes()
  {
    Destinations.ReadHostReadable(raw);
    if raw == "tailchrome-proxy-auth.invalid" then Via(a.session.value)
    else Destinations.Wanted(a.request.policy, 1, false, Destinations.AsQuad(ReadHost(raw)))
  }

  function AskedHealth(a: Asking): Status {
    if a.Releases() then Inactive else if a.Routes() then ActiveStatus else BlockedStatus
  }

  /** The program decides as the warm-up of the request. */
  ghost predicate WarmsUpFor(p: Program, a: Asking) { a.Routes() && forall raw :: Eval(p, raw) == WarmupDecision(a, raw) }

  /** The manager wants what was asked: the configuration routes every host so, the health
      is the one to be reported for it, and active routing comes with its warm-up. */
  ghost predicate Wants(s: State, a: Asking) {
    && s.desiredKey == KeyOf(s.desired) && s.desiredHealth == AskedHealth(a)
    && (forall raw :: BrowserDecision(InstalledBy(s.desired), raw) == AskedDecision(a, raw))
    && (s.authPending.Some? <==> a.Routes())
    && (a.Routes() ==> s.activePort == a.session.value && WarmsUpFor(s.authPending.value, a))
  }

  lemma {:induction false} ProgramRoutes(policy: Policy, session: Session, raw: string)
    requires policy.mode != Direct
    ensures Eval(Generate(policy, if IsBlocked(policy, session) then BLOCKED_PORT else session.value, None), raw)
            == AskedDecision(Asking(Apply(policy), session), raw)
  {
    Destinations.ChromeDecides(policy, session, raw);
  }

  lemma {:induction false} WarmupRoutesFor(policy: Policy, session: Session)
    requires policy.mode != Direct && !IsBlocked(policy, session)
    ensures WarmsUpFor(Generate(policy, BLOCKED_PORT, Some(session.value)), Asking(Apply(policy), session))
  {
    forall raw ensures Eval(Generate(policy, BLOCKED_PORT, Some(session.value)), raw) == WarmupDecision(Asking(Apply(policy), session), raw) {
      Destinations.WarmupDecides(policy, session.value, raw);
    }
  }

  /** Whatever the state, after a request the manager wants what it asks under the session
      it is made in. */
  lemma {:induction false} WantWants(s: State, request: Request)
    ensures Wants(Want(s, request), Asking(request, SessionOf(s.auth.login)))
  {
    var a := Asking(request, SessionOf(s.auth.login));
    if !a.Releases() {
      forall raw ensures BrowserDecision(InstalledBy(Want(s, request).desired), raw) == AskedDecision(a, raw) {
        ProgramRoutes(request.policy, a.session, raw);
      }
      if !IsBlocked(request.policy, a.session) {
        WarmupRoutesFor(request.policy, a.session);
      }
    }
  }

  // ---------- the newest request of a run ----------

  /** The requests an event makes, in order. The health listener is heard when an update
      ends with a report: a failure, or the confirmation of what is still wanted. */
  function Heard(s: State, e: Event): seq<Request> {
    match e
    case Ask(request) => [request]
    case ReadDone(i, failed, control, again) =>
      if Answers(s, e) && s.pending[i].flight.key == s.desiredKey && (failed || (s.pending[i].flight.value.Some? && Foreign(control)))
      then again else []
    case WriteDone(i, failed, again) => if Answers(s, e) && failed then again else []
    case VerifyDone(i, failed, control, value, again) =>
      if Answers(s, e) && s.pending[i].epoch == s.changeEpoch && EndsWithReport(s, s.pending[i].flight, failed, control, value) then again else []
    case ProbeDone(i, ok, again) =>
      if Answers(s, e) && !GoesOn(s, s.pending[i].flight, s.pending[i].kind, ok) then again else []
    case _ => []
  }

  predicate EndsWithReport(s: State, f: Flight, failed: bool, control: Control, value: Installed) {
    failed || (f.value.Some? && (control != ThisExtension || value != Wrote(f.value.value))) || (!f.warming && f.key == s.desiredKey)
  }

  /** The newest request of a run, with the session it was made under. */
  function Asked(events: seq<Event>): Option<Asking> {
    if events == [] then None
    else
      var front, e := events[..|events| - 1], events[|events| - 1];
      var s := Run(front);
      var heard := Heard(s, e);
      if heard == [] then Asked(front) else Some(Asking(heard[|heard| - 1], SessionOf(s.auth.login)))
  }

  predicate SameWant(s: State, t: State) {
    && t.desired == s.desired && t.authPending == s.authPending && t.desiredKey == s.desiredKey
    && t.desiredHealth == s.desiredHealth && t.activePort == s.activePort
  }

  /** What a step leaves wanted, given the requests it heard. */
  ghost predicate Follows(s: State, heard: seq<Request>, t: State) {
    if heard == [] then SameWant(s, t) else Wants(t, Asking(heard[|heard| - 1], SessionOf(s.auth.login)))
  }

  lemma {:induction false} FlushWant(s: State)
    ensures SameWant(s, Flush(s)) && Flush(s).auth == s.auth
  {
  }

  lemma {:induction false} WantSameAuth(s: State, request: Request)
    ensures Want(s, request).auth == s.auth
  {
  }

  lemma {:induction false} SameWants(s: State, t: State, a: Asking)
    requires Wants(s, a) && SameWant(s, t)
    ensures Wants(t, a)
  {
  }

  lemma {:induction false} FlushWants(s: State, request: Request)
    ensures Wants(Flush(Want(s, request)), Asking(request, SessionOf(s.auth.login)))
    ensures Flush(Want(s, request)).auth == s.auth
  {
    WantWants(s, request);
    WantSameAuth(s, request);
    FlushWant(Want(s, request));
    SameWants(Want(s, request), Flush(Want(s, request)), Asking(request, SessionOf(s.auth.login)));
  }

  lemma {:induction false} WantAllFollows(s: State, requests: seq<Request>)
    ensures Follows(s, requests, WantAll(s, requests)) && WantAll(s, requests).auth == s.auth
  {
    if requests != [] {
      var n := |requests| - 1;
      WantAllFollows(s, requests[..n]);
      FlushWants(WantAll(s, requests[..n]), requests[n]);
    }
  }

  lemma {:induction false} FinishWant(s: State, f: Flight)
    ensures SameWant(s, Finish(s, f))
  {
    FlushWant(s.(inFlight := false));
  }

  /** Following is kept by whatever leaves the wants alone, before or after. */
  lemma {:induction false} FollowsThrough(s: State, s': State, heard: seq<Request>, t: State, t': State)
    requires SameWant(s, s') && s'.auth.login == s.auth.login && Follows(s', heard, t) && SameWant(t, t')
    ensures Follows(s, heard, t')
  {
    if heard != [] {
      SameWants(t, t', Asking(heard[|heard| - 1], SessionOf(s.auth.login)));
    }
  }

  lemma {:induction false} EndFollows(s: State, s': State, f: Flight, again: seq<Request>)
    requires SameWant(s, s') && s'.auth.login == s.auth.login
    ensures Follows(s, again, Finish(WantAll(s', again), f))
  {
    WantAllFollows(s', again);
    FinishWant(WantAll(s', again), f);
    FollowsThrough(s, s', again, WantAll(s', again), Finish(WantAll(s', again), f));
  }

  lemma {:induction false} FailFollows(s: State, s': State, f: Flight, report: Report, again: seq<Request>)
    requires SameWant(s, s') && s'.auth.login == s.auth.login
    ensures Follows(s, again, Fail(s', f, report, again))
  {
    EndFollows(s, s'.(appliedKey := NoKey, lastReport := Some(report)), f, again);
  }

  lemma {:induction false} ReadFollows(s: State, i: nat, failed: bool, control: Control, again: seq<Request>)
    requires i < |s.pending| && s.pending[i].AwaitRead?
    ensures var e := ReadDone(i, failed, control, again); Follows(s, Heard(s, e), Step(s, e))
  {
    var f, d := s.pending[i].flight, Deliver(s, i);
    if f.key != s.desiredKey {
      FlushWant(d.(inFlight := false));
    } else if failed {
      FailFollows(s, d, f, Unavailable, again);
    } else if f.value.Some? && Foreign(control) {
      FailFollows(s, d, f, Conflicted, again);
    }
  }

  lemma {:induction false} WriteFollows(s: State, i: nat, failed: bool, again: seq<Request>)
    requires i < |s.pending| && s.pending[i].AwaitWrite?
    ensures var e := WriteDone(i, failed, again); Follows(s, Heard(s, e), Step(s, e))
  {
    FailFollows(s, Deliver(s, i), s.pending[i].flight, Unavailable, again);
  }

  lemma {:induction false} ConfirmFollows(s: State, d: State, f: Flight, again: seq<Request>)
    requires SameWant(s, d) && d.auth.login == s.auth.login
    ensures Follows(s, if f.key == s.desiredKey then again else [], Confirm(d, f, again))
  {
    var t := d.(authRoutingPending := false, appliedKey := f.key);
    EndFollows(s, t.(lastReport := Some(Requested(t.desiredHealth))), f, again);
    FinishWant(t, f);
  }

  lemma {:induction false} VerifyFailFollows(s: State, i: nat, failed: bool, control: Control, value: Installed, again: seq<Request>)
    requires i < |s.pending| && s.pending[i].AwaitVerify? && s.pending[i].epoch == s.changeEpoch
    requires var f := s.pending[i].flight; failed || (f.value.Some? && (control != ThisExtension || value != Wrote(f.value.value)))
    ensures var e := VerifyDone(i, failed, control, value, again); Follows(s, Heard(s, e), Step(s, e))
  {
    FailFollows(s, Deliver(s, i), s.pending[i].flight, if failed then Unavailable else Conflicted, again);
  }

  lemma {:induction false} VerifyFollows(s: State, i: nat, failed: bool, control: Control, value: Installed, again: seq<Request>)
    requires i < |s.pending| && s.pending[i].AwaitVerify?
    ensures var e := VerifyDone(i, failed, control, value, again); Follows(s, Heard(s, e), Step(s, e))
  {
    var c, d := s.pending[i], Deliver(s, i);
    if c.epoch != s.changeEpoch {
    } else if failed || (c.flight.value.Some? && (control != ThisExtension || value != Wrote(c.flight.value.value))) {
      VerifyFailFollows(s, i, failed, control, value, again);
    } else if !c.flight.warming {
      ConfirmFollows(s, d, c.flight, again);
    }
  }

  lemma {:induction false} ProbeFollows(s: State, i: nat, ok: bool, again: seq<Request>)
    requires i < |s.pending| && s.pending[i].AwaitProbe?
    ensures var e := ProbeDone(i, ok, again); Follows(s, Heard(s, e), Step(s, e))
  {
    var c, d := s.pending[i], Deliver(s, i);
    var mine := c.kind.Fetching? && d.auth.probe == Some(c.kind.controller);
    var t := if mine then d.(auth := d.auth.(probe := None, readyPort := if ok then Some(c.flight.port) else d.auth.readyPort)) else d;
    if GoesOn(s, c.flight, c.kind, ok) {
      FlushWant(t.(inFlight := false));
    } else {
      FailFollows(s, t.(errorKey := c.flight.key), c.flight, Unavailable, again);
    }
  }

  /** Every event leaves wanted what its last request asks, or what was wanted before. */
  lemma {:induction false} StepFollows(s: State, e: Event)
    ensures Follows(s, Heard(s, e), Step(s, e))
  {
    match e {
      case Ask(request) => FlushWants(s, request);
      case ReadDone(i, failed, control, again) =>
        if Answers(s, e) {
          ReadFollows(s, i, failed, control, again);
        }
      case WriteDone(i, failed, again) =>
        if Answers(s, e) {
          WriteFollows(s, i, failed, again);
        }
      case VerifyDone(i, failed, control, value, again) =>
        if Answers(s, e) {
          VerifyFollows(s, i, failed, control, value, again);
        }
      case ProbeDone(i, ok, again) =>
        if Answers(s, e) {
          ProbeFollows(s, i, ok, again);
        }
      case _ =>
    }
  }

  /** Over every run the manager wants what the newest request asked under its session, and
      nothing before the first. */
  lemma {:induction false} NewestIsWanted(events: seq<Event>)
    ensures match Asked(events) case None => SameWant(INITIAL, Run(events)) case Some(a) => Wants(Run(events), a)
  {
    if events != [] {
      var front, e := events[..|events| - 1], events[|events| - 1];
      NewestIsWanted(front);
      StepFollows(Run(front), e);
      if Heard(Run(front), e) == [] && Asked(front).Some? {
        SameWants(Run(front), Run(events), Asked(front).value);
      }
    }
  }

  /** Over every run, whenever no update is running, something was asked and no failure is
      reported, the browser sends every host where the newest request asks, or it holds a
      warm-up program. */
  lemma {:induction false} SettledFollowsNewest(events: seq<Event>, raw: string)
    requires Asked(events).Some? && !Run(events).inFlight && !Failed(Run(events))
    ensures var s := Run(events);
            s.lastWritten.IsWarmup() || BrowserDecision(s.lastWritten, raw) == AskedDecision(Asked(events).value, raw)
  {
    RunKeeps(events);
    NewestIsWanted(events);
  }

  // ---------- which warm-up is installed ----------

  ghost predicate WarmsAt(events: seq<Event>, i: nat, p: Program)
    requires i <= |events|
  {
    Asked(events[..i]).Some? && WarmsUpFor(p, Asked(events[..i]).value)
  }

  /** The program is the warm-up of a request made in this run. */
  ghost predicate WarmsFor(events: seq<Event>, p: Program) { exists i :: 0 <= i <= |events| && WarmsAt(events, i, p) }

  ghost predicate WarmInv(events: seq<Event>, s: State) {
    && (s.authPending.Some? ==> WarmsFor(events, s.authPending.value))
    && (forall c | c in s.pending :: c.flight.warming && c.flight.value.Some? ==> WarmsFor(events, c.flight.value.value))
    && (s.lastWritten.IsWarmup() ==> WarmsFor(events, s.lastWritten.program))
  }

  lemma {:induction false} WarmsLater(events: seq<Event>, e: Event, p: Program)
    requires WarmsFor(events, p)
    ensures WarmsFor(events + [e], p)
  {
    var i :| 0 <= i <= |events| && WarmsAt(events, i, p);
    assert (events + [e])[..i] == events[..i];
    assert WarmsAt(events + [e], i, p);
  }

  /** The flights after a step are those before, or one begun with what is now wanted; and
      only a flight's value is written. */
  predicate Flights(s: State, t: State) {
    && (forall c | c in t.pending :: OldFlight(s, c.flight) || (c.flight.warming ==> c.flight.value == t.authPending))
    && (t.lastWritten == s.lastWritten || exists c :: c in s.pending && t.lastWritten == InstalledBy(c.flight.value))
  }

  predicate OldFlight(s: State, f: Flight) { exists c :: c in s.pending && c.flight == f }

  /** Nothing is written, and a new flight is begun with what is now wanted. */
  predicate Begins(s: State, t: State) {
    t.lastWritten == s.lastWritten
    && forall c | c in t.pending :: c in s.pending || (c.flight.warming ==> c.flight.value == t.authPending)
  }

  lemma {:induction false} FlushFlights(s: State)
    ensures Begins(s, Flush(s))
  {
  }

  /** While an update runs, requests start no other. */
  lemma {:induction false} WantAllFlights(s: State, requests: seq<Request>)
    requires s.inFlight
    ensures var t := WantAll(s, requests); t.inFlight && t.pending == s.pending && t.lastWritten == s.lastWritten
  {
    if requests != [] {
      WantAllFlights(s, requests[..|requests| - 1]);
    }
  }

  lemma {:induction false} EndFlights(s: State, f: Flight, again: seq<Request>)
    requires s.inFlight
    ensures Begins(s, Finish(WantAll(s, again), f))
  {
    WantAllFlights(s, again);
    FlushFlights(WantAll(s, again).(inFlight := false));
  }

  lemma {:induction false} FailFlights(s: State, f: Flight, report: Report, again: seq<Request>)
    requires s.inFlight
    ensures Begins(s, Fail(s, f, report, again))
  {
    EndFlights(s.(appliedKey := NoKey, lastReport := Some(report)), f, again);
  }

  lemma {:induction false} ConfirmFlights(s: State, f: Flight, again: seq<Request>)
    requires s.inFlight
    ensures Begins(s, Confirm(s, f, again))
  {
    var t := s.(authRoutingPending := false, appliedKey := f.key);
    EndFlights(t.(lastReport := Some(Requested(t.desiredHealth))), f, again);
    FlushFlights(t.(inFlight := false));
  }

  /** Only the delivered flight goes on. */
  predicate GoesOnWith(s: State, t: State, f: Flight) {
    t.lastWritten == s.lastWritten && forall c | c in t.pending :: c in s.pending || c.flight == f
  }

  lemma {:induction false} VerifyFlights(s: State, f: Flight, epoch: nat, failed: bool, control: Control, value: Installed,
                                         again: seq<Request>)
    requires s.inFlight
    ensures var t := OnVerify(s, f, epoch, failed, control, value, again); Begins(s, t) || GoesOnWith(s, t, f)
  {
    if epoch != s.changeEpoch {
    } else if failed {
      FailFlights(s, f, Unavailable, again);
    } else if f.value.Some? && (control != ThisExtension || value != Wrote(f.value.value)) {
      FailFlights(s, f, Conflicted, again);
    } else if !f.warming {
      ConfirmFlights(s, f, again);
    }
  }

  lemma {:induction false} ReadFlights(s: State, f: Flight, failed: bool, control: Control, again: seq<Request>)
    requires s.inFlight
    ensures var t := OnRead(s, f, failed, control, again);
            Begins(s, t) || GoesOnWith(s.(lastWritten := InstalledBy(f.value)), t, f)
  {
    FlushFlights(s.(inFlight := false));
    FailFlights(s, f, if failed then Unavailable else Conflicted, again);
  }

  lemma {:induction false} WriteFlights(s: State, f: Flight, failed: bool, again: seq<Request>)
    requires s.inFlight
    ensures var t := OnWrite(s, f, failed, again); Begins(s, t) || GoesOnWith(s, t, f)
  {
    FailFlights(s, f, Unavailable, again);
  }

  lemma {:induction false} ProbeFlights(s: State, f: Flight, kind: ProbeKind, ok: bool, again: seq<Request>)
    requires s.inFlight
    ensures Begins(s, OnProbe(s, f, kind, ok, again))
  {
    var mine := kind.Fetching? && s.auth.probe == Some(kind.controller);
    var t := if mine then s.(auth := s.auth.(probe := None, readyPort := if ok then Some(f.port) else s.auth.readyPort)) else s;
    FlushFlights(t.(inFlight := false));
    FailFlights(t.(errorKey := f.key), f, Unavailable, again);
  }

  /** A step that delivers the flight of `c`. */
  lemma {:induction false} Delivered(s: State, c: Callback, d: State, t: State)
    requires c in s.pending && d.pending == [] && d.lastWritten == s.lastWritten
    requires Begins(d, t) || GoesOnWith(d, t, c.flight) || GoesOnWith(d.(lastWritten := InstalledBy(c.flight.value)), t, c.flight)
    ensures Flights(s, t)
  {
  }

  lemma {:induction false} AnswerFlights(s: State, e: Event)
    requires Inv(s) && Answers(s, e)
    ensures Flights(s, Step(s, e))
  {
    var c, d := s.pending[0], Deliver(s, 0);
    match e {
      case ReadDone(_, failed, control, again) => ReadFlights(d, c.flight, failed, control, again);
      case WriteDone(_, failed, again) => WriteFlights(d, c.flight, failed, again);
      case VerifyDone(_, failed, control, value, again) => VerifyFlights(d, c.flight, c.epoch, failed, control, value, again);
      case ProbeDone(_, ok, again) => ProbeFlights(d, c.flight, c.kind, ok, again);
    }
    Delivered(s, c, d, Step(s, e));
  }

  lemma {:induction false} BeginsFlights(s: State, t: State)
    requires Begins(s, t)
    ensures Flights(s, t)
  {
  }

  lemma {:induction false} AskFlights(s: State, request: Request)
    ensures Begins(s, Flush(Want(s, request)))
  {
    FlushFlights(Want(s, request));
  }

  lemma {:induction false} ChangedFlights(s: State, control: Control, value: Installed)
    ensures Begins(s, OnChanged(s, control, value))
  {
    FlushFlights(s.(changeEpoch := s.changeEpoch + 1));
    FlushFlights(s.(changeEpoch := s.changeEpoch + 1, appliedKey := NoKey));
  }

  lemma {:induction false} OtherFlights(s: State, e: Event)
    requires !Answers(s, e)
    ensures Begins(s, Step(s, e))
  {
    match e {
      case Ask(request) => AskFlights(s, request);
      case Changed(control, value) => ChangedFlights(s, control, value);
      case _ =>
    }
  }

  lemma {:induction false} StepFlights(s: State, e: Event)
    requires Inv(s)
    ensures Flights(s, Step(s, e))
  {
    if Answers(s, e) {
      AnswerFlights(s, e);
    } else {
      OtherFlights(s, e);
      BeginsFlights(s, Step(s, e));
    }
  }

  lemma {:induction false} PendingWarm(events: seq<Event>, e: Event, s: State, t: State)
    requires WarmInv(events, s) && (t.authPending.Some? ==> WarmsFor(events + [e], t.authPending.value))
    requires forall c | c in t.pending :: OldFlight(s, c.flight) || (c.flight.warming ==> c.flight.value == t.authPending)
    ensures forall c | c in t.pending :: c.flight.warming && c.flight.value.Some? ==> WarmsFor(events + [e], c.flight.value.value)
  {
    forall c | c in t.pending && c.flight.warming && c.flight.value.Some? ensures WarmsFor(events + [e], c.flight.value.value) {
      if OldFlight(s, c.flight) {
        WarmsLater(events, e, c.flight.value.value);
      }
    }
  }

  lemma {:induction false} WantedWarm(events: seq<Event>, e: Event, s: State, t: State)
    requires s == Run(events) && t == Step(s, e) && WarmInv(events, s) && t.authPending.Some?
    ensures WarmsFor(events + [e], t.authPending.value)
  {
    var more := events + [e];
    assert more[..|events|] == events && more[..|more|] == more;
    StepFollows(s, e);
    if Heard(s, e) == [] {
      WarmsLater(events, e, t.authPending.value);
    } else {
      assert WarmsAt(more, |more|, t.authPending.value);
    }
  }

  /** What is written is a flight's value, so a warm-up is that of a warming flight. */
  lemma {:induction false} WrittenWarm(events: seq<Event>, e: Event, s: State, t: State)
    requires Inv(s) && WarmInv(events, s) && Flights(s, t) && t.lastWritten.IsWarmup()
    ensures WarmsFor(events + [e], t.lastWritten.program)
  {
    WarmsLater(events, e, t.lastWritten.program);
  }

  lemma {:induction false} StepWarm(events: seq<Event>, e: Event)
    requires WarmInv(events, Run(events))
    ensures WarmInv(events + [e], Run(events + [e]))
  {
    var s, t := Run(events), Step(Run(events), e);
    assert (events + [e])[..|events|] == events;
    RunKeeps(events);
    StepFlights(s, e);
    if t.authPending.Some? {
      WantedWarm(events, e, s, t);
    }
    PendingWarm(events, e, s, t);
    if t.lastWritten.IsWarmup() {
      WrittenWarm(events, e, s, t);
    }
  }

  lemma {:induction false} RunWarm(events: seq<Event>)
    ensures WarmInv(events, Run(events))
  {
    if events != [] {
      RunWarm(events[..|events| - 1]);
      StepWarm(events[..|events| - 1], events[|events| - 1]);
      assert events == events[..|events| - 1] + [events[|events| - 1]];
    }
  }

  /** Over every run, a warm-up program that the browser holds is that of some request of the
      run for active routing: the probe reaches the helper, and every other host that this
      request covers or sends through its exit node goes to the closed port. */
  lemma {:induction false} WarmupProtects(events: seq<Event>) returns (i: nat)
    requires Run(events).lastWritten.IsWarmup()
    ensures i <= |events| && Asked(events[..i]).Some? && Asked(events[..i]).value.Routes()
    ensures var a := Asked(events[..i]).value;
            forall raw :: BrowserDecision(Run(events).lastWritten, raw) == WarmupDecision(a, raw)
  {
    RunWarm(events);
    i :| 0 <= i <= |events| && WarmsAt(events, i, Run(events).lastWritten.program);
  }
}
