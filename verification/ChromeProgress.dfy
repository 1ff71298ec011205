/** When Chrome's manager gets what it wants: what a run without disturbance reaches, when
    the browser is written to, and when an error is left behind. */
module ChromeProgress {
  import opened Text
  import opened Policies
  import opened PacScript
  import opened ChromeFlush
  import opened ChromeRequests

  lemma {:induction false} RunMore(events: seq<Event>, e: Event)
    ensures Run(events + [e]) == Step(Run(events), e)
  {
    assert (events + [e])[..|events|] == events;
  }

  /** An answer of the browser that reports no failure and no other extension. */
  predicate Smooth(e: Event) {
    match e
    case ReadDone(_, failed, control, again) => !failed && !Foreign(control) && again == []
    case WriteDone(_, failed, again) => !failed && again == []
    case VerifyDone(_, failed, control, _, again) => !failed && control == ThisExtension && again == []
    case ProbeDone(_, ok, again) => ok && again == []
    case _ => false
  }

  ghost predicate AllSmooth(events: seq<Event>) { forall e | e in events :: Smooth(e) }

  /** The configuration asked for is in the browser, verified and reported. */
  predicate Applied(s: State) {
    && !s.inFlight && s.pending == [] && s.appliedKey == s.desiredKey && s.lastWritten == InstalledBy(s.desired)
    && s.lastReport == Some(Requested(s.desiredHealth))
  }

  /** What an update leaves as it was. */
  predicate SameAsking(s: State, t: State) {
    SameWant(s, t) && t.auth.login == s.auth.login && t.sessionEpoch == s.sessionEpoch && t.errorKey == s.errorKey
  }

  /** An update that is not a warm-up is about to be read for. */
  predicate Routing(s: State, f: Flight) {
    s.pending == [AwaitRead(f)] && f.key == s.desiredKey && !f.warming && f.value == s.desired
  }

  lemma {:induction false} DirectUpdate(events: seq<Event>, f: Flight) returns (more: seq<Event>)
    requires Routing(Run(events), f)
    ensures AllSmooth(more) && Applied(Run(events + more)) && SameAsking(Run(events), Run(events + more))
  {
    var s := Run(events);
    var a, b, c := ReadDone(0, false, Controllable, []), WriteDone(0, false, []), VerifyDone(0, false, ThisExtension, InstalledBy(f.value), []);
    ReadOn(s, f);
    RunMore(events, a);
    WriteOn(Run(events + [a]), f);
    RunMore(events + [a], b);
    VerifyOn(Run(events + [a] + [b]), f);
    RunMore(events + [a] + [b], c);
    more := [a, b, c];
    assert events + more == events + [a] + [b] + [c];
  }

  /** A warm-up that has a session: the helper is authenticated, and the routing program
      is next. */
  predicate Warmed(s: State, f: Flight) {
    && s.pending == [AwaitVerify(f, s.changeEpoch)] && s.inFlight && f.warming && f.value.Some? && f.key == s.desiredKey
    && s.desiredKey != NoKey && s.errorKey != s.desiredKey && s.appliedKey != s.desiredKey && s.desiredHealth == ActiveStatus
    && f.port == s.activePort && s.auth.HasSessionFor(f.port) && !s.auth.IsReadyFor(f.port)
  }

  lemma {:induction false} ProbeFollows(s: State, f: Flight)
    requires Warmed(s, f)
    ensures var t := Step(s, VerifyDone(0, false, ThisExtension, InstalledBy(f.value), []));
            t == s.(lastReport := Some(Preparing), auth := t.auth, pending := [AwaitProbe(f, Fetching(s.auth.controllers))])
            && t.auth == s.auth.(probe := Some(s.auth.controllers), controllers := s.auth.controllers + 1)
  {
    assert Deliver(s, 0).pending == [];
  }

  lemma {:induction false} RoutingFollows(s: State, f: Flight, id: nat)
    requires s.pending == [AwaitProbe(f, Fetching(id))] && s.auth.probe == Some(id) && s.inFlight
    requires s.desiredKey != NoKey && s.errorKey != s.desiredKey && s.appliedKey != s.desiredKey && f.port == s.activePort && s.auth.HasSessionFor(f.port)
    ensures var t := Step(s, ProbeDone(0, true, []));
            var next := Flight(s.desiredKey, s.sessionEpoch, s.activePort, false, s.desired);
            t.pending == [AwaitRead(next)] && SameAsking(s, t)
  {
    assert Deliver(s, 0).pending == [];
  }

  /** A warm-up is about to be read for. */
  predicate Warming(s: State, f: Flight) {
    && s.pending == [AwaitRead(f)] && s.inFlight && f.warming && f.value.Some? && f.key == s.desiredKey
    && s.desiredKey != NoKey && s.errorKey != s.desiredKey && s.appliedKey != s.desiredKey && s.desiredHealth == ActiveStatus
    && f.port == s.activePort && s.auth.HasSessionFor(f.port) && !s.auth.IsReadyFor(f.port)
  }

  /** The warm-up is written. */
  lemma {:induction false} WarmupWritten(events: seq<Event>, f: Flight) returns (upto: seq<Event>)
    requires Warming(Run(events), f)
    ensures AllSmooth(upto) && Warmed(Run(events + upto), f) && SameAsking(Run(events), Run(events + upto))
  {
    var a, b := ReadDone(0, false, Controllable, []), WriteDone(0, false, []);
    ReadOn(Run(events), f);
    RunMore(events, a);
    WriteOn(Run(events + [a]), f);
    RunMore(events + [a], b);
    upto := [a, b];
    assert events + upto == events + [a] + [b];
  }

  /** The probe succeeds, and the routing program is next. */
  lemma {:induction false} ProbeSucceeds(events: seq<Event>, f: Flight) returns (upto: seq<Event>, next: Flight)
    requires Warmed(Run(events), f)
    ensures AllSmooth(upto) && SameAsking(Run(events), Run(events + upto)) && Routing(Run(events + upto), next)
  {
    var s := Run(events);
    var c, d := VerifyDone(0, false, ThisExtension, InstalledBy(f.value), []), ProbeDone(0, true, []);
    ProbeFollows(s, f);
    RunMore(events, c);
    RoutingFollows(Step(s, c), f, s.auth.controllers);
    RunMore(events + [c], d);
    upto := [c, d];
    assert events + upto == events + [c] + [d];
    next := Flight(s.desiredKey, s.sessionEpoch, s.activePort, false, s.desired);
  }

  lemma {:induction false} WarmUpdate(events: seq<Event>, f: Flight) returns (more: seq<Event>)
    requires Warming(Run(events), f)
    ensures AllSmooth(more) && Applied(Run(events + more)) && SameAsking(Run(events), Run(events + more))
  {
    var first := WarmupWritten(events, f);
    var second := Routed(events + first, f);
    more := first + second;
    assert events + more == events + first + second;
    SmoothJoins(first, second);
  }

  lemma {:induction false} Routed(events: seq<Event>, f: Flight) returns (more: seq<Event>)
    requires Warmed(Run(events), f)
    ensures AllSmooth(more) && Applied(Run(events + more)) && SameAsking(Run(events), Run(events + more))
  {
    var first, next := ProbeSucceeds(events, f);
    var second := DirectUpdate(events + first, next);
    more := first + second;
    assert events + more == events + first + second;
    SmoothJoins(first, second);
  }

  lemma {:induction false} SmoothJoins(first: seq<Event>, second: seq<Event>)
    requires AllSmooth(first) && AllSmooth(second)
    ensures AllSmooth(first + second)
  {
  }

  /** From every reachable point at which no update runs: a request that is new, and whose
      configuration was not given up after an error, is in the browser, verified and
      reported, after a few answers without failures; and it is what was asked. */
  lemma {:induction false} RequestSucceeds(events: seq<Event>, request: Request) returns (more: seq<Event>)
    requires !Run(events).inFlight
    requires var s := Run(events); Want(s, request).errorKey != Want(s, request).desiredKey && s.appliedKey != Want(s, request).desiredKey
    ensures AllSmooth(more)
    ensures var s, t := Run(events), Run(events + [Ask(request)] + more);
            && Applied(t) && Wants(t, Asking(request, SessionOf(s.auth.login)))
            && (forall raw :: BrowserDecision(t.lastWritten, raw) == AskedDecision(Asking(request, SessionOf(s.auth.login)), raw))
            && t.lastReport == Some(Requested(AskedHealth(Asking(request, SessionOf(s.auth.login)))))
  {
    var s := Run(events);
    var asked, a := Want(s, request), Asking(request, SessionOf(s.auth.login));
    var upto := events + [Ask(request)];
    RunKeeps(events);
    WantWants(s, request);
    RunMore(events, Ask(request));
    WantSameAuth(s, request);
    var t := Run(upto);
    UpdateStarts(s, request);
    var f := t.pending[0].flight;
    if f.warming {
      RoutesPort(s, request);
      more := WarmUpdate(upto, f);
    } else {
      more := DirectUpdate(upto, f);
    }
    SameWants(t, Run(upto + more), a);
  }

  lemma {:induction false} UpdateStarts(s: State, request: Request)
    requires Inv(s) && !s.inFlight
    requires Want(s, request).errorKey != Want(s, request).desiredKey && s.appliedKey != Want(s, request).desiredKey
    ensures var t := Step(s, Ask(request)); var warming := t.desiredHealth == ActiveStatus && !t.auth.IsReadyFor(t.activePort);
            && t.pending == [AwaitRead(Flight(t.desiredKey, t.sessionEpoch, t.activePort, warming, if warming then t.authPending else t.desired))]
            && t.inFlight && SameWant(Want(s, request), t) && t.auth == s.auth && t.appliedKey == s.appliedKey
            && t.errorKey == Want(s, request).errorKey && t.desiredKey != NoKey && Coherent(t)
  {
    WantKeeps(s, request);
    WantSameAuth(s, request);
  }

  lemma {:induction false} RoutesPort(s: State, request: Request)
    requires Want(s, request).desiredHealth == ActiveStatus
    ensures s.auth.HasSessionFor(Want(s, request).activePort)
  {
  }

  // ---------- errors that are left behind ----------

  /** A changed session gives every configuration a fresh start. */
  lemma {:induction false} NewSessionIsFresh(s: State, login: Option<Login>, request: Request)
    requires login.None? || s.auth.login != login
    ensures var t := Want(Step(s, SetSession(login)), request); t.errorKey != t.desiredKey && t.appliedKey == NoKey
  {
    var u := Step(s, SetSession(login));
    assert u.errorKey == NoKey && u.appliedKey == NoKey;
    assert Want(u, request).desiredKey != NoKey;
  }

  /** Without one, a configuration stays given up exactly while it is asked for again. */
  lemma {:induction false} OtherRequestIsFresh(s: State, request: Request)
    ensures var t := Want(s, request); t.errorKey == t.desiredKey <==> s.errorKey == t.desiredKey && s.desiredKey == t.desiredKey
  {
    assert Want(s, request).desiredKey != NoKey;
  }

  /** While a configuration is given up, asking for it again does nothing. */
  lemma {:induction false} GivenUpRests(s: State, request: Request)
    requires !s.inFlight && Want(s, request).errorKey == Want(s, request).desiredKey
    ensures var t := Step(s, Ask(request)); t.pending == s.pending && t.lastWritten == s.lastWritten && t.lastReport == s.lastReport
  {
  }

  // ---------- when the browser is written to ----------

  /** Over every run, the answer to the first read is followed by a write if and only if the
      configuration is still wanted, the read worked, and no other extension and no policy
      of the computer controls the setting, unless routing is released. What is then written
      is the configuration or its warm-up; and else nothing is. */
  lemma {:induction false} WritesIff(events: seq<Event>, failed: bool, control: Control)
    requires var s := Run(events); s.pending != [] && s.pending[0].AwaitRead?
    ensures var s := Run(events); var f, t := s.pending[0].flight, Step(s, ReadDone(0, failed, control, []));
            if f.key == s.desiredKey && !failed && (f.value.None? || control == ThisExtension || control == Controllable)
            then t.pending == [AwaitWrite(f)] && t.lastWritten == InstalledBy(f.value)
            else t.lastWritten == s.lastWritten && (f.key == s.desiredKey ==> !t.inFlight && Failed(t))
  {
    RunKeeps(events);
    assert Deliver(Run(events), 0).pending == [];
  }

  /** Over every run, the answer to the second read confirms a configuration only if the
      browser holds it under this extension's control; while the setting changed since, it
      is read again. */
  lemma {:induction false} ConfirmsOnlyHeld(events: seq<Event>, failed: bool, control: Control, value: Installed)
    requires var s := Run(events); s.pending != [] && s.pending[0].AwaitVerify? && s.pending[0].flight.key == s.desiredKey
    ensures var s := Run(events); var f, t := s.pending[0].flight, Step(s, VerifyDone(0, failed, control, value, []));
            if s.pending[0].epoch != s.changeEpoch then t == s.(pending := [AwaitVerify(f, s.changeEpoch)])
            else if !failed && (f.value.None? || (control == ThisExtension && value == Wrote(f.value.value))) then !Failed(t)
            else !t.inFlight && Failed(t) && t.appliedKey == NoKey
  {
    RunKeeps(events);
    assert Deliver(Run(events), 0).pending == [];
  }

  // ---------- which errors count ----------

  /** A proxy error is reported, and the configuration given up, unless nothing is wanted of
      the proxy, or it is one that a warm-up or an unreachable destination explains. */
  lemma {:induction false} ErrorCountsIff(s: State, fatal: bool, error: NetError)
    ensures var t := Step(s, ProxyError(fatal, error));
            if s.desired.Some? && (!fatal || error == OtherError || (error == ConnectionFailed && !s.authRoutingPending))
            then t.errorKey == s.desiredKey && t.appliedKey == NoKey && t.lastReport == Some(ProxyFailed(fatal))
            else t == s
  {
  }
}
