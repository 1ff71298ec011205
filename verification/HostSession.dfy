/** The helper's session protocol: web requests, account transitions, cache-writing
    watchers and proxy dials, interleaved at the level of their critical sections. */
module HostSession {
  import opened Text

  type Address = seq<nat>

  /** Preferences, by identity. */
  type Prefs = nat

  /** A network map: the addresses it permits under each preferences. */
  datatype Rules = Rules(permitted: set<(Prefs, Address)>)

  predicate Permits(rules: Rules, prefs: Prefs, ips: seq<Address>) {
    forall i | 0 <= i < |ips| :: (prefs, ips[i]) in rules.permitted
  }

  /** The identity a session has: the local client and the session generation. */
  datatype Session = Session(lc: Option<nat>, generation: nat)

  /** `lastNetMap` as a pointer into `made`, with the generation of the watcher that
      stored it, the number of stores so far and the pointers ever stored. */
  datatype Cache = Cache(netMap: Option<nat>, author: nat, stores: nat, stored: set<nat>)

  /** `webChanging`, `webActive`, and the requests the WaitGroup counts, each with the
      identity it was admitted under. */
  datatype Web = Web(changing: bool, active: set<nat>, counted: map<nat, Session>)

  datatype Kind = Init | Profile(lc: nat) | Logout(lc: nat) | Shutdown

  /** Where the holder of `commandMu` is in its transition. */
  datatype Phase =
    | Closing
    | Drained
    | Detached
    | Cleared(generation: nat)
    | Published(lc: nat, generation: nat)
    | Invalidated(generation: nat)
    | Finished
    | Reopened

  datatype Command = Command(kind: Kind, phase: Phase)

  /** A bus watcher, with the map it fetched and has not stored yet. */
  datatype Watcher = Watcher(lc: nat, generation: nat, fetched: Option<nat>)

  /** A proxy dial: session snapshot, then preferences and map, then the checked addresses. */
  datatype Dial =
    | Snapped(lc: nat, generation: nat)
    | HasMap(lc: nat, generation: nat, prefs: Prefs, chart: nat)
    | Checked(lc: nat, generation: nat, prefs: Prefs, chart: nat, ips: seq<Address>)

  /** A connection attempt that passed the last check and holds `sessionMu` for reading. */
  datatype Attempt = Attempt(dial: Dial, ip: Address, stores: nat)

  datatype State = State(
    session: Session, cache: Cache, made: seq<Rules>, web: Web, command: Option<Command>,
    watchers: map<nat, Watcher>, dials: map<nat, Dial>, attempts: map<nat, Attempt>)

  const STARTED := State(Session(None, 0), Cache(None, 0, 0, {}), [], Web(false, {}, map[]), None, map[], map[], map[])

  /** The critical sections, by who enters them: web requests, the holder of
      `commandMu`, bus watchers and proxy dials. */
  datatype Request = Admit(request: nat) | Leave(request: nat) | Done(request: nat)
  datatype Change =
    | Begin(kind: Kind)
    | Drain
    | Detach
    | ClearCache
    | Publish(lc: nat)
    | Invalidate
    | Watch(watcher: nat)
    | GiveUp
    | Reopen
    | EndCommand
  datatype Watching = Fetch(watcher: nat, rules: Rules) | Store(watcher: nat, reset: bool)
  datatype Dialling =
    | Snap(dial: nat)
    | ReadMap(dial: nat, prefs: Prefs)
    | Check(dial: nat, ips: seq<Address>)
    | Authorize(dial: nat, ip: Address, attempt: nat)
    | Connect(attempt: nat)

  datatype Action = OfWeb(request: Request) | OfCommand(change: Change) | OfWatcher(watching: Watching) | OfDial(dialling: Dialling)

  // ---------- web requests ----------

  function AdmitRequest(s: State, r: nat): State {
    if s.web.changing || r in s.web.counted then s
    else s.(web := s.web.(active := s.web.active + {r}, counted := s.web.counted[r := s.session]))
  }

  function LeaveRequest(s: State, r: nat): State {
    if r !in s.web.active then s else s.(web := s.web.(active := s.web.active - {r}))
  }

  function DoneRequest(s: State, r: nat): State {
    if r in s.web.active || r !in s.web.counted then s
    else s.(web := s.web.(counted := s.web.counted - {r}))
  }

  // ---------- transitions ----------

  predicate In(s: State, phase: Phase) { s.command.Some? && s.command.value.phase == phase }

  function Goto(s: State, phase: Phase): State
    requires s.command.Some?
  {
    s.(command := Some(s.command.value.(phase := phase)))
  }

  /** `sessionMu` can be taken for writing. */
  predicate NoReaders(s: State) { s.attempts == map[] }

  function BeginChange(s: State, kind: Kind): State {
    if s.command.Some? then s
    else s.(web := s.web.(changing := true), command := Some(Command(kind, Closing)))
  }

  /** `webRequests.Wait` returns. */
  function DrainRequests(s: State): State {
    if In(s, Closing) && s.web.counted == map[] then Goto(s, Drained) else s
  }

  function DetachSession(s: State): State {
    if In(s, Drained) && (s.command.value.kind.Init? || s.command.value.kind.Shutdown?) && NoReaders(s)
    then Goto(s.(session := Session(None, s.session.generation + 1)),
              if s.command.value.kind.Init? then Detached else Finished)
    else s
  }

  function ClearCached(s: State): State {
    if In(s, Detached) then Goto(s.(cache := s.cache.(netMap := None)), Cleared(s.session.generation)) else s
  }

  function PublishSession(s: State, lc: nat): State {
    if s.command.Some? && s.command.value.phase.Cleared? && NoReaders(s) then
      if s.session.generation != s.command.value.phase.generation then Goto(s, Finished)
      else Goto(s.(session := s.session.(lc := Some(lc))), Published(lc, s.session.generation))
    else s
  }

  predicate Invalidates(kind: Kind) { kind.Profile? || kind.Logout? }

  /** `beginProxyProfileChangeLocked`. */
  function InvalidateProfile(s: State): State {
    if In(s, Drained) && Invalidates(s.command.value.kind) && NoReaders(s) then
      if s.session.lc != Some(s.command.value.kind.lc)
      then Goto(s.(web := s.web.(changing := false)), Reopened)
      else
        Goto(s.(session := s.session.(generation := s.session.generation + 1), cache := s.cache.(netMap := None)),
             Invalidated(s.session.generation + 1))
    else s
  }

  /** Starting the watcher of the new session. */
  function StartWatch(s: State, w: nat): State {
    if s.command.None? || w in s.watchers then s
    else
      var c := s.command.value;
      if c.phase.Published? then Goto(s.(watchers := s.watchers[w := Watcher(c.phase.lc, c.phase.generation, None)]), Finished)
      else if c.phase.Invalidated? && Invalidates(c.kind) && NoReaders(s) then
        if s.session == Session(Some(c.kind.lc), c.phase.generation)
        then Goto(s.(watchers := s.watchers[w := Watcher(c.kind.lc, c.phase.generation, None)]), Finished)
        else Goto(s, Finished)
      else s
  }

  /** An init that fails after detaching, and a web logout that is refused before it
      reaches the local API. */
  function GiveUpChange(s: State): State {
    if s.command.Some? && (s.command.value.phase.Cleared? || (s.command.value.kind.Logout? && In(s, Drained)))
    then Goto(s, Finished) else s
  }

  function ReopenAdmission(s: State): State {
    if In(s, Finished) then Goto(s.(web := s.web.(changing := false)), Reopened) else s
  }

  function End(s: State): State {
    if In(s, Reopened) then s.(command := None) else s
  }

  // ---------- watchers ----------

  function FetchMap(s: State, w: nat, rules: Rules): State {
    if w !in s.watchers then s
    else s.(made := s.made + [rules], watchers := s.watchers[w := s.watchers[w].(fetched := Some(|s.made|))])
  }

  function Stored(c: Cache, netMap: Option<nat>, generation: nat): Cache {
    Cache(netMap, generation, c.stores + 1, c.stored + (if netMap.Some? then {netMap.value} else {}))
  }

  /** A watcher stores what it fetched, or clears the map on a reset or a failed fetch. */
  function StoreMap(s: State, w: nat, reset: bool): State {
    if w !in s.watchers then s
    else
      var x := s.watchers[w];
      if s.session != Session(Some(x.lc), x.generation) then s.(watchers := s.watchers - {w})
      else
        s.(watchers := s.watchers[w := x.(fetched := None)],
           cache := Stored(s.cache, if reset then None else x.fetched, x.generation))
  }

  // ---------- dials ----------

  function SnapSession(s: State, d: nat): State {
    if d in s.dials || s.session.lc.None? then s
    else s.(dials := s.dials[d := Snapped(s.session.lc.value, s.session.generation)])
  }

  function ReadNetMap(s: State, d: nat, prefs: Prefs): State {
    if d !in s.dials || !s.dials[d].Snapped? then s
    else if s.cache.netMap.None? then s.(dials := s.dials - {d})
    else s.(dials := s.dials[d := HasMap(s.dials[d].lc, s.dials[d].generation, prefs, s.cache.netMap.value)])
  }

  function CheckAddresses(s: State, d: nat, ips: seq<Address>): State {
    if d !in s.dials || !s.dials[d].HasMap? then s
    else
      var x := s.dials[d];
      if x.chart < |s.made| && ips != [] && Permits(s.made[x.chart], x.prefs, ips)
      then s.(dials := s.dials[d := Checked(x.lc, x.generation, x.prefs, x.chart, ips)])
      else s.(dials := s.dials - {d})
  }

  /** The last check, made with `sessionMu` held for reading. */
  predicate StillCurrent(s: State, x: Dial)
    requires x.Checked?
  {
    s.cache.netMap == Some(x.chart) && s.session == Session(Some(x.lc), x.generation)
  }

  function AuthorizeAttempt(s: State, d: nat, ip: Address, a: nat): State {
    if d in s.dials && s.dials[d].Checked? && ip in s.dials[d].ips && a !in s.attempts && StillCurrent(s, s.dials[d])
    then s.(attempts := s.attempts[a := Attempt(s.dials[d], ip, s.cache.stores)]) else s
  }

  function ConnectAttempt(s: State, a: nat): State {
    s.(attempts := s.attempts - {a})
  }

  function WebStep(s: State, r: Request): State {
    match r
    case Admit(id) => AdmitRequest(s, id)
    case Leave(id) => LeaveRequest(s, id)
    case Done(id) => DoneRequest(s, id)
  }

  function CommandStep(s: State, c: Change): State {
    match c
    case Begin(kind) => BeginChange(s, kind)
    case Drain => DrainRequests(s)
    case Detach => DetachSession(s)
    case ClearCache => ClearCached(s)
    case Publish(lc) => PublishSession(s, lc)
    case Invalidate => InvalidateProfile(s)
    case Watch(w) => StartWatch(s, w)
    case GiveUp => GiveUpChange(s)
    case Reopen => ReopenAdmission(s)
    case EndCommand => End(s)
  }

  function WatcherStep(s: State, w: Watching): State {
    match w
    case Fetch(id, rules) => FetchMap(s, id, rules)
    case Store(id, reset) => StoreMap(s, id, reset)
  }

  function DialStep(s: State, d: Dialling): State {
    match d
    case Snap(id) => SnapSession(s, id)
    case ReadMap(id, prefs) => ReadNetMap(s, id, prefs)
    case Check(id, ips) => CheckAddresses(s, id, ips)
    case Authorize(id, ip, a) => AuthorizeAttempt(s, id, ip, a)
    case Connect(a) => ConnectAttempt(s, a)
  }

  function Step(s: State, a: Action): State {
    match a
    case OfWeb(r) => WebStep(s, r)
    case OfCommand(c) => CommandStep(s, c)
    case OfWatcher(w) => WatcherStep(s, w)
    case OfDial(d) => DialStep(s, d)
  }

  function Run(s: State, actions: seq<Action>): State {
    if actions == [] then s else Step(Run(s, actions[..|actions| - 1]), actions[|actions| - 1])
  }

  // ---------- what every step keeps ----------

  /** The transition is between its drain and its reopening of admission. */
  predicate Exclusive(c: Command) {
    !c.phase.Closing? && !c.phase.Reopened?
  }

  predicate WebInv(s: State) {
    && (forall r | r in s.web.counted :: s.web.counted[r] == s.session)
    && s.web.active <= s.web.counted.Keys
    && s.web.changing == (s.command.Some? && !s.command.value.phase.Reopened?)
    && (s.command.Some? && Exclusive(s.command.value) ==> s.web.counted == map[])
  }

  /** Only a watcher of the current generation can have stored a reachable map. */
  predicate CacheInv(s: State) {
    && (s.cache.netMap.Some? ==> s.cache.netMap.value in s.cache.stored)
    && (forall p | p in s.cache.stored :: p < |s.made|)
    && (s.session.lc.Some? && s.cache.netMap.Some? ==> s.cache.author == s.session.generation)
    && (In(s, Detached) ==> s.session.lc.None?)
    && (s.command.Some? && s.command.value.phase.Cleared? ==> s.session.lc.None? && s.cache.netMap.None?)
  }

  /** A fetched map that waits to be stored was never stored, and waits once. */
  predicate FetchedInv(s: State) {
    && (forall w | w in s.watchers && s.watchers[w].fetched.Some? ::
          s.watchers[w].fetched.value < |s.made| && s.watchers[w].fetched.value !in s.cache.stored)
    && (forall v, w | v in s.watchers && w in s.watchers && v != w && s.watchers[v].fetched.Some? ::
          s.watchers[v].fetched != s.watchers[w].fetched)
  }

  predicate DialOk(s: State, x: Dial) {
    && x.generation <= s.session.generation
    && (!x.Snapped? ==> x.chart < |s.made| && x.chart in s.cache.stored)
    && (x.Checked? ==> Permits(s.made[x.chart], x.prefs, x.ips))
  }

  predicate AttemptOk(s: State, x: Attempt) {
    && x.dial.Checked? && DialOk(s, x.dial) && x.ip in x.dial.ips
    && s.session == Session(Some(x.dial.lc), x.dial.generation)
    && x.stores <= s.cache.stores
    && (x.stores == s.cache.stores <==> s.cache.netMap == Some(x.dial.chart))
    && s.cache.author == s.session.generation
  }

  predicate DialInv(s: State) { forall d | d in s.dials :: DialOk(s, s.dials[d]) }

  /** A dial of the current generation has the current local client. */
  predicate LiveDialInv(s: State) {
    forall d | d in s.dials && s.dials[d].generation == s.session.generation :: s.session.lc == Some(s.dials[d].lc)
  }

  predicate AttemptInv(s: State) { forall a | a in s.attempts :: AttemptOk(s, s.attempts[a]) }

  predicate Inv(s: State) { WebInv(s) && CacheInv(s) && FetchedInv(s) && DialInv(s) && LiveDialInv(s) && AttemptInv(s) }

  /** Fetched maps never change, stored ones stay known, and generations never fall. */
  predicate Extends(s: State, t: State) {
    && |s.made| <= |t.made| && s.session.generation <= t.session.generation && s.cache.stored <= t.cache.stored
    && forall i | 0 <= i < |s.made| :: t.made[i] == s.made[i]
  }

  lemma {:induction false} DialExtends(s: State, t: State, x: Dial)
    requires Extends(s, t) && DialOk(s, x)
    ensures DialOk(t, x)
  {
  }

  // A web request changes nothing but the web's fields.

  lemma {:induction false} WebStepFrame(s: State, r: Request)
    ensures WebStep(s, r) == s.(web := WebStep(s, r).web) && WebStep(s, r).web.changing == s.web.changing
  {
  }

  lemma {:induction false} WebStepKeeps(s: State, r: Request)
    requires Inv(s)
    ensures Inv(WebStep(s, r))
  {
    WebStepFrame(s, r);
    assert (s.web.counted - {r.request}).Keys == s.web.counted.Keys - {r.request};
    var t := WebStep(s, r);
    assert CacheInv(t) && FetchedInv(t);
    assert DialInv(t) by {
      forall d | d in t.dials ensures DialOk(t, t.dials[d]) { DialExtends(s, t, s.dials[d]); }
    }
    assert AttemptInv(t) by {
      forall a | a in t.attempts ensures AttemptOk(t, t.attempts[a]) { DialExtends(s, t, s.attempts[a].dial); }
    }
  }

  // A dial changes nothing but the dials and attempts.

  lemma {:induction false} DialStepFrame(s: State, d: Dialling)
    ensures DialStep(s, d) == s.(dials := DialStep(s, d).dials, attempts := DialStep(s, d).attempts)
  {
  }

  lemma {:induction false} DialStepKeepsDials(s: State, d: Dialling, i: nat)
    requires CacheInv(s) && DialInv(s) && LiveDialInv(s) && i in DialStep(s, d).dials
    ensures var t := DialStep(s, d);
            DialOk(t, t.dials[i]) && (t.dials[i].generation == t.session.generation ==> t.session.lc == Some(t.dials[i].lc))
  {
    DialStepFrame(s, d);
    if i in s.dials && DialStep(s, d).dials[i] == s.dials[i] {
      DialExtends(s, DialStep(s, d), s.dials[i]);
    }
  }

  lemma {:induction false} DialStepKeepsAttempts(s: State, d: Dialling, a: nat)
    requires CacheInv(s) && DialInv(s) && AttemptInv(s) && a in DialStep(s, d).attempts
    ensures AttemptOk(DialStep(s, d), DialStep(s, d).attempts[a])
  {
    var t := DialStep(s, d);
    DialStepFrame(s, d);
    DialExtends(s, t, t.attempts[a].dial);
  }

  lemma {:induction false} DialStepKeeps(s: State, d: Dialling)
    requires Inv(s)
    ensures Inv(DialStep(s, d))
  {
    var t := DialStep(s, d);
    DialStepFrame(s, d);
    assert WebInv(t) && CacheInv(t) && FetchedInv(t);
    forall i | i in t.dials
      ensures DialOk(t, t.dials[i]) && (t.dials[i].generation == t.session.generation ==> t.session.lc == Some(t.dials[i].lc))
    {
      DialStepKeepsDials(s, d, i);
    }
    forall a | a in t.attempts ensures AttemptOk(t, t.attempts[a]) {
      DialStepKeepsAttempts(s, d, a);
    }
  }

  // A watcher changes the maps made, the cache and itself.

  lemma {:induction false} WatcherStepFrame(s: State, w: Watching)
    ensures var t := WatcherStep(s, w); t == s.(made := t.made, cache := t.cache, watchers := t.watchers) && Extends(s, t)
  {
  }

  lemma {:induction false} WatcherStepKeepsCache(s: State, w: Watching)
    requires CacheInv(s) && FetchedInv(s)
    ensures CacheInv(WatcherStep(s, w)) && FetchedInv(WatcherStep(s, w))
  {
    match w {
      case Fetch(id, rules) => FetchKeepsCache(s, id, rules);
      case Store(id, reset) => StoreKeepsCache(s, id, reset);
    }
  }

  lemma {:induction false} FetchKeepsCache(s: State, w: nat, rules: Rules)
    requires CacheInv(s) && FetchedInv(s)
    ensures CacheInv(FetchMap(s, w, rules)) && FetchedInv(FetchMap(s, w, rules))
  {
  }

  lemma {:induction false} StoreKeepsCache(s: State, w: nat, reset: bool)
    requires CacheInv(s) && FetchedInv(s)
    ensures CacheInv(StoreMap(s, w, reset)) && FetchedInv(StoreMap(s, w, reset))
  {
  }

  /** While an attempt holds the read lock, a watcher that touches the cache is of the
      session, and what it stores was never stored before. */
  lemma {:induction false} LockedStore(s: State, w: Watching)
    requires CacheInv(s) && FetchedInv(s)
    ensures var t := WatcherStep(s, w);
            t.cache == s.cache || (t.cache.stores > s.cache.stores && t.cache.author == s.session.generation
                                   && (t.cache.netMap.Some? ==> t.cache.netMap.value !in s.cache.stored))
  {
  }

  lemma {:induction false} WatcherStepKeeps(s: State, w: Watching)
    requires Inv(s)
    ensures Inv(WatcherStep(s, w))
  {
    var t := WatcherStep(s, w);
    WatcherStepFrame(s, w);
    WatcherStepKeepsCache(s, w);
    assert WebInv(t);
    forall i | i in t.dials ensures DialOk(t, t.dials[i]) {
      DialExtends(s, t, s.dials[i]);
    }
    assert LiveDialInv(t);
    forall a | a in t.attempts ensures AttemptOk(t, t.attempts[a]) {
      DialExtends(s, t, s.attempts[a].dial);
      LockedStore(s, w);
    }
  }

  // The holder of commandMu changes the session, and clears the cache.

  lemma {:induction false} ClosingKeepsWeb(s: State, kind: Kind)
    requires WebInv(s)
    ensures WebInv(BeginChange(s, kind)) && WebInv(DrainRequests(s)) && WebInv(ReopenAdmission(s)) && WebInv(End(s))
  {
  }

  lemma {:induction false} ChangingKeepsWeb(s: State, lc: nat)
    requires WebInv(s)
    ensures WebInv(DetachSession(s)) && WebInv(ClearCached(s)) && WebInv(PublishSession(s, lc)) && WebInv(InvalidateProfile(s))
  {
  }

  lemma {:induction false} FinishingKeepsWeb(s: State, w: nat)
    requires WebInv(s)
    ensures WebInv(StartWatch(s, w)) && WebInv(GiveUpChange(s))
  {
  }

  lemma {:induction false} CommandStepKeepsWeb(s: State, c: Change)
    requires WebInv(s)
    ensures WebInv(CommandStep(s, c))
  {
    match c {
      case Publish(lc) => ChangingKeepsWeb(s, lc);
      case Begin(kind) => ClosingKeepsWeb(s, kind);
      case Watch(w) => FinishingKeepsWeb(s, w);
      case _ =>
        ClosingKeepsWeb(s, Init);
        ChangingKeepsWeb(s, 0);
        FinishingKeepsWeb(s, 0);
    }
  }

  lemma {:induction false} CommandStepFrame(s: State, c: Change)
    ensures var t := CommandStep(s, c); t.made == s.made && t.dials == s.dials && t.attempts == s.attempts
    ensures !c.Watch? ==> CommandStep(s, c).watchers == s.watchers
  {
  }

  lemma {:induction false} CommandStepCache(s: State, c: Change)
    ensures var t := CommandStep(s, c); t.cache == s.cache || t.cache == s.cache.(netMap := None)
    ensures CommandStep(s, c).session.generation >= s.session.generation
  {
  }

  lemma {:induction false} CommandStepExtends(s: State, c: Change)
    ensures Extends(s, CommandStep(s, c)) && CommandStep(s, c).cache.stored == s.cache.stored
  {
    CommandStepFrame(s, c);
    CommandStepCache(s, c);
  }

  lemma {:induction false} CommandStepKeepsCache(s: State, c: Change)
    requires CacheInv(s)
    ensures CacheInv(CommandStep(s, c))
  {
  }

  lemma {:induction false} StartWatchKeepsFetched(s: State, w: nat)
    requires FetchedInv(s)
    ensures FetchedInv(StartWatch(s, w))
  {
  }

  lemma {:induction false} CommandStepKeepsFetched(s: State, c: Change)
    requires FetchedInv(s)
    ensures FetchedInv(CommandStep(s, c))
  {
    if c.Watch? {
      StartWatchKeepsFetched(s, c.watcher);
    } else {
      CommandStepFrame(s, c);
      CommandStepCache(s, c);
    }
  }

  /** A session change gives a new generation, or publishes a client where there was none. */
  lemma {:induction false} CommandStepSession(s: State, c: Change)
    requires CacheInv(s)
    ensures var t := CommandStep(s, c);
            t.session == s.session || t.session.generation > s.session.generation
            || (s.session.lc.None? && t.session.generation == s.session.generation)
    ensures s.attempts != map[] && s.session.lc.Some? ==> CommandStep(s, c).session == s.session && CommandStep(s, c).cache == s.cache
  {
  }

  lemma {:induction false} CommandStepKeeps(s: State, c: Change)
    requires Inv(s)
    ensures Inv(CommandStep(s, c))
  {
    var t := CommandStep(s, c);
    CommandStepKeepsWeb(s, c);
    CommandStepKeepsCache(s, c);
    CommandStepKeepsFetched(s, c);
    CommandStepFrame(s, c);
    CommandStepExtends(s, c);
    CommandStepSession(s, c);
    forall i | i in t.dials
      ensures DialOk(t, t.dials[i]) && (t.dials[i].generation == t.session.generation ==> t.session.lc == Some(t.dials[i].lc))
    {
      DialExtends(s, t, s.dials[i]);
      assert DialOk(s, s.dials[i]);
    }
    forall a | a in t.attempts ensures AttemptOk(t, t.attempts[a]) {
      assert AttemptOk(s, s.attempts[a]);
      DialExtends(s, t, s.attempts[a].dial);
    }
  }

  /** Every critical section keeps the invariant. */
  lemma {:induction false} StepKeeps(s: State, a: Action)
    ensures Inv(s) ==> Inv(Step(s, a))
  {
    if Inv(s) {
      match a {
        case OfWeb(r) => WebStepKeeps(s, r);
        case OfCommand(c) => CommandStepKeeps(s, c);
        case OfWatcher(w) => WatcherStepKeeps(s, w);
        case OfDial(d) => DialStepKeeps(s, d);
      }
    }
  }

  lemma {:induction false} StepExtends(s: State, a: Action)
    ensures Extends(s, Step(s, a))
  {
    match a {
      case OfWeb(r) => WebStepFrame(s, r);
      case OfCommand(c) => CommandStepExtends(s, c);
      case OfWatcher(w) => WatcherStepFrame(s, w);
      case OfDial(d) => DialStepFrame(s, d);
    }
  }

  lemma {:induction false} RunKeeps(actions: seq<Action>)
    ensures Inv(Run(STARTED, actions))
  {
    if actions != [] {
      RunKeeps(actions[..|actions| - 1]);
      StepKeeps(Run(STARTED, actions[..|actions| - 1]), actions[|actions| - 1]);
    }
  }

  // ---------- proxy dials ----------

  /** In every run, when a connection attempt passes its last check, the cached map is
      the very map all addresses of the dial were checked against, the session is the
      one read before that map, and a watcher of that session stored the map. */
  lemma {:induction false} AuthorizedAgainstCurrentMap(actions: seq<Action>, d: nat, ip: Address, a: nat)
    requires var s := Run(STARTED, actions); a !in s.attempts && a in Step(s, OfDial(Authorize(d, ip, a))).attempts
    ensures var s := Run(STARTED, actions);
            && d in s.dials && s.dials[d].Checked?
            && s.cache.netMap == Some(s.dials[d].chart)
            && s.session == Session(Some(s.dials[d].lc), s.dials[d].generation)
            && s.cache.author == s.dials[d].generation
            && s.dials[d].chart < |s.made| && Permits(s.made[s.dials[d].chart], s.dials[d].prefs, s.dials[d].ips) && ip in s.dials[d].ips
  {
    RunKeeps(actions);
  }

  /** When the connection is then made, session and generation are still those of the
      dial. The cached map is the checked one if and only if no watcher has stored since
      the check, and any that did is of the same session. */
  lemma {:induction false} ConnectsInOwnSession(actions: seq<Action>, a: nat)
    requires a in Run(STARTED, actions).attempts
    ensures var s := Run(STARTED, actions);
            var x := s.attempts[a];
            && x.dial.Checked? && x.ip in x.dial.ips && s.session == Session(Some(x.dial.lc), x.dial.generation)
            && x.dial.chart < |s.made| && Permits(s.made[x.dial.chart], x.dial.prefs, x.dial.ips)
            && x.stores <= s.cache.stores && (s.cache.netMap == Some(x.dial.chart) <==> s.cache.stores == x.stores)
            && s.cache.author == s.session.generation
  {
    RunKeeps(actions);
  }

  lemma {:induction false} RunAppends(actions: seq<Action>, a: Action)
    ensures Run(STARTED, actions + [a]) == Step(Run(STARTED, actions), a)
  {
    assert (actions + [a])[..|actions|] == actions;
  }

  lemma {:induction false} DialChecks(s: State, prefs: Prefs, ip: Address, d: nat)
    requires s.session.lc.Some? && s.cache.netMap.Some? && s.cache.netMap.value < |s.made|
    requires (prefs, ip) in s.made[s.cache.netMap.value].permitted && d !in s.dials
    ensures CheckAddresses(ReadNetMap(SnapSession(s, d), d, prefs), d, [ip])
            == s.(dials := s.dials[d := Checked(s.session.lc.value, s.session.generation, prefs, s.cache.netMap.value, [ip])])
  {
    var s1 := SnapSession(s, d);
    var s2 := ReadNetMap(s1, d, prefs);
    var x := HasMap(s.session.lc.value, s.session.generation, prefs, s.cache.netMap.value);
    assert s1.dials[d := x] == s.dials[d := x];
    assert s2 == s.(dials := s.dials[d := x]);
    var y := Checked(s.session.lc.value, s.session.generation, prefs, s.cache.netMap.value, [ip]);
    assert s2.dials[d := y] == s.dials[d := y];
  }

  /** A dial to permitted addresses that nothing disturbs is authorized. */
  lemma {:induction false} DialPasses(s: State, prefs: Prefs, ip: Address, d: nat, a: nat)
    requires s.session.lc.Some? && s.cache.netMap.Some? && s.cache.netMap.value < |s.made|
    requires (prefs, ip) in s.made[s.cache.netMap.value].permitted && d !in s.dials && a !in s.attempts
    ensures var t := AuthorizeAttempt(CheckAddresses(ReadNetMap(SnapSession(s, d), d, prefs), d, [ip]), d, ip, a);
            a in t.attempts && t.attempts[a].ip == ip
  {
    DialChecks(s, prefs, ip, d);
  }

  // ---------- a run in which a watcher interposes ----------

  lemma {:induction false} RunThree(s: State, actions: seq<Action>)
    requires |actions| == 3
    ensures Run(s, actions) == Step(Step(Step(s, actions[0]), actions[1]), actions[2])
  {
    assert actions[..2][..1] == actions[..1] && actions[..1][..0] == [];
    assert Run(s, actions[..1]) == Step(s, actions[0]);
    assert Run(s, actions[..2]) == Step(Step(s, actions[0]), actions[1]);
  }

  lemma {:induction false} RunJoins(s: State, first: seq<Action>, second: seq<Action>)
    ensures Run(s, first + second) == Run(Run(s, first), second)
  {
    if second == [] {
      assert first + second == first;
    } else {
      RunJoins(s, first, second[..|second| - 1]);
      assert (first + second)[..|first + second| - 1] == first + second[..|second| - 1];
    }
  }

  const DETACHED := STARTED.(session := Session(None, 1), web := Web(true, {}, map[]), command := Some(Command(Init, Detached)))

  const WATCHED :=
    DETACHED.(session := Session(Some(5), 1), command := Some(Command(Init, Finished)), watchers := map[0 := Watcher(5, 1, None)])

  function Snapped1(rules: Rules): State {
    WATCHED.(made := [rules], cache := Cache(Some(0), 1, 1, {0}), dials := map[0 := Snapped(5, 1)])
  }

  function Authorized1(rules: Rules, prefs: Prefs, ip: Address): State {
    var x := Checked(5, 1, prefs, 0, [ip]);
    Snapped1(rules).(dials := map[0 := x], attempts := map[0 := Attempt(x, ip, 1)])
  }

  lemma {:induction false} InitDetaches()
    ensures CommandStep(CommandStep(CommandStep(STARTED, Begin(Init)), Drain), Detach) == DETACHED
  {
  }

  lemma {:induction false} InitPublishes()
    ensures CommandStep(CommandStep(CommandStep(DETACHED, ClearCache), Publish(5)), Watch(0)) == WATCHED
  {
  }

  lemma {:induction false} MapIsStored(rules: Rules)
    ensures DialStep(WatcherStep(WatcherStep(WATCHED, Fetch(0, rules)), Store(0, false)), Snap(0)) == Snapped1(rules)
  {
    var s := FetchMap(WATCHED, 0, rules);
    assert s.watchers == map[0 := Watcher(5, 1, Some(0))] && s.made == [rules];
    var t := StoreMap(s, 0, false);
    assert t.watchers == map[0 := Watcher(5, 1, None)] && t.cache == Cache(Some(0), 1, 1, {0});
  }

  lemma {:induction false} AddressIsAuthorized(rules: Rules, prefs: Prefs, ip: Address)
    requires (prefs, ip) in rules.permitted
    ensures DialStep(DialStep(DialStep(Snapped1(rules), ReadMap(0, prefs)), Check(0, [ip])), Authorize(0, ip, 0)) == Authorized1(rules, prefs, ip)
  {
    var s := ReadNetMap(Snapped1(rules), 0, prefs);
    assert s.dials == map[0 := HasMap(5, 1, prefs, 0)];
    var t := CheckAddresses(s, 0, [ip]);
    assert t.dials == map[0 := Checked(5, 1, prefs, 0, [ip])];
  }

  lemma {:induction false} Then(s: State, actions: seq<Action>, more: seq<Action>) returns (r: seq<Action>)
    requires Run(STARTED, actions) == s && |more| == 3
    ensures Run(STARTED, r) == Step(Step(Step(s, more[0]), more[1]), more[2])
  {
    RunJoins(STARTED, actions, more);
    RunThree(s, more);
    r := actions + more;
  }

  lemma {:induction false} SessionIsOpened() returns (actions: seq<Action>)
    ensures Run(STARTED, actions) == WATCHED
  {
    InitDetaches();
    actions := Then(STARTED, [], [OfCommand(Begin(Init)), OfCommand(Drain), OfCommand(Change.Detach)]);
    InitPublishes();
    actions := Then(DETACHED, actions, [OfCommand(ClearCache), OfCommand(Publish(5)), OfCommand(Watch(0))]);
  }

  /** A run that stores a map in an open session and authorizes a connection to `ip`. */
  lemma {:induction false} AttemptIsReached(rules: Rules, prefs: Prefs, ip: Address) returns (actions: seq<Action>)
    requires (prefs, ip) in rules.permitted
    ensures Run(STARTED, actions) == Authorized1(rules, prefs, ip)
  {
    actions := SessionIsOpened();
    MapIsStored(rules);
    actions := Then(WATCHED, actions, [OfWatcher(Fetch(0, rules)), OfWatcher(Watching.Store(0, false)), OfDial(Snap(0))]);
    AddressIsAuthorized(rules, prefs, ip);
    actions := Then(Snapped1(rules), actions, [OfDial(ReadMap(0, prefs)), OfDial(Check(0, [ip])), OfDial(Authorize(0, ip, 0))]);
  }

  /** The session lock does not exclude watchers: for every address there is a run in
      which a watcher replaces the map while an authorized attempt waits to connect. */
  lemma {:induction false} WatcherMayInterpose(ip: Address) returns (actions: seq<Action>)
    ensures var t := Run(STARTED, actions);
            && 0 in t.attempts && t.attempts[0].ip == ip && t.attempts[0].dial.Checked?
            && t.cache.netMap != Some(t.attempts[0].dial.chart)
  {
    var rules := Rules({(0, ip)});
    actions := AttemptIsReached(rules, 0, ip);
    actions := Interposed(rules, 0, ip, actions);
  }

  lemma {:induction false} Interposed(rules: Rules, prefs: Prefs, ip: Address, actions: seq<Action>) returns (more: seq<Action>)
    requires Run(STARTED, actions) == Authorized1(rules, prefs, ip)
    ensures var t := Run(STARTED, more);
            && 0 in t.attempts && t.attempts[0].ip == ip && t.attempts[0].dial.Checked?
            && t.cache.netMap != Some(t.attempts[0].dial.chart)
  {
    RunAppends(actions, OfWatcher(Watching.Store(0, true)));
    more := actions + [OfWatcher(Watching.Store(0, true))];
  }

  lemma {:induction false} GenerationsGrow(actions: seq<Action>, i: nat)
    requires i <= |actions|
    ensures Run(STARTED, actions[..i]).session.generation <= Run(STARTED, actions).session.generation
  {
    if i == |actions| {
      assert actions[..i] == actions;
    } else {
      var front := actions[..|actions| - 1];
      GenerationsGrow(front, i);
      assert front[..i] == actions[..i];
      StepExtends(Run(STARTED, front), actions[|actions| - 1]);
    }
  }

  /** From the session snapshot to the connection a dial sees one session. */
  lemma {:induction false} DialSeesOneSession(actions: seq<Action>, i: nat, d: nat, a: nat)
    requires i <= |actions| && d in Run(STARTED, actions[..i]).dials && a in Run(STARTED, actions).attempts
    requires var x := Run(STARTED, actions[..i]).dials[d]; var y := Run(STARTED, actions).attempts[a].dial;
             x.lc == y.lc && x.generation == y.generation
    ensures Run(STARTED, actions[..i]).session == Run(STARTED, actions).session
  {
    RunKeeps(actions[..i]);
    RunKeeps(actions);
    GenerationsGrow(actions, i);
  }

  // ---------- web admission ----------

  /** In every run, no admitted request exists between a transition's drain and its
      reopening of admission, and none is admitted from its start to its reopening. */
  lemma {:induction false} NoRequestDuringTransition(actions: seq<Action>, r: nat)
    requires Run(STARTED, actions).command.Some?
    ensures var s := Run(STARTED, actions);
            && (Exclusive(s.command.value) ==> s.web.counted == map[] && s.web.active == {})
            && (!s.command.value.phase.Reopened? ==> Step(s, OfWeb(Admit(r))) == s)
  {
    RunKeeps(actions);
  }

  lemma {:induction false} IdentityChangesAlone(s: State, a: Action)
    requires WebInv(s) && Step(s, a).session != s.session
    ensures s.web.counted == map[] && s.command.Some? && Exclusive(s.command.value)
  {
  }

  /** The identity is constant over each admitted request's whole lifetime. */
  lemma {:induction false} RequestKeepsIdentity(actions: seq<Action>, i: nat, r: nat)
    requires i <= |actions|
    requires forall k | i <= k <= |actions| :: r in Run(STARTED, actions[..k]).web.counted
    ensures Run(STARTED, actions).session == Run(STARTED, actions[..i]).session
    ensures r in Run(STARTED, actions).web.counted
    ensures Run(STARTED, actions).web.counted[r] == Run(STARTED, actions[..i]).session
  {
    assert actions[..|actions|] == actions;
    RunKeeps(actions);
    if i < |actions| {
      var front := actions[..|actions| - 1];
      forall k | i <= k <= |front| ensures r in Run(STARTED, front[..k]).web.counted {
        assert front[..k] == actions[..k];
      }
      RequestKeepsIdentity(front, i, r);
      assert front[..i] == actions[..i];
      RunKeeps(front);
      if Run(STARTED, actions).session != Run(STARTED, front).session {
        IdentityChangesAlone(Run(STARTED, front), actions[|actions| - 1]);
      }
    }
  }

  // ---------- the critical sections ----------

  /** The fields the mutexes guard. The ghost fields are where the goroutines are. */
  class Host {
    var lc: Option<nat>
    var generation: nat
    var netMap: Option<nat>
    var webChanging: bool
    var webActive: set<nat>
    var webRequests: int
    ghost var author: nat
    ghost var stores: nat
    ghost var stored: set<nat>
    ghost var made: seq<Rules>
    ghost var counted: map<nat, Session>
    ghost var command: Option<Command>
    ghost var watchers: map<nat, Watcher>
    ghost var dials: map<nat, Dial>
    ghost var attempts: map<nat, Attempt>

    ghost function View(): State
      reads this
    {
      State(Session(lc, generation), Cache(netMap, author, stores, stored), made, Web(webChanging, webActive, counted),
            command, watchers, dials, attempts)
    }

    /** The WaitGroup's counter is the number of admitted requests. */
    ghost predicate Valid()
      reads this
    {
      webRequests == |counted|
    }

    constructor ()
      ensures Valid() && View() == STARTED
    {
      lc, generation, netMap, webChanging, webActive, webRequests := None, 0, None, false, {}, 0;
      author, stores, stored, made, counted, command := 0, 0, {}, [], map[], None;
      watchers, dials, attempts := map[], map[], map[];
    }

    method BeginWebRequest(r: nat) returns (admitted: bool)
      requires Valid() && r !in counted
      modifies this
      ensures Valid() && View() == Step(old(View()), OfWeb(Admit(r)))
      ensures Inv(old(View())) ==> Inv(View())
      ensures admitted == !old(webChanging)
    {
      StepKeeps(View(), OfWeb(Admit(r)));
      if webChanging {
        return false;
      }
      webActive := webActive + {r};
      assert counted.Keys + {r} == counted[r := Session(lc, generation)].Keys;
      counted := counted[r := Session(lc, generation)];
      webRequests := webRequests + 1;
      return true;
    }

    method LeaveWebRequest(r: nat)
      requires Valid()
      modifies this
      ensures Valid() && View() == Step(old(View()), OfWeb(Leave(r)))
      ensures Inv(old(View())) ==> Inv(View())
    {
      StepKeeps(View(), OfWeb(Leave(r)));
      webActive := webActive - {r};
    }

    method DoneWebRequest(r: nat)
      requires Valid() && r in counted && r !in webActive
      modifies this
      ensures Valid() && View() == Step(old(View()), OfWeb(Done(r)))
      ensures Inv(old(View())) ==> Inv(View())
    {
      StepKeeps(View(), OfWeb(Done(r)));
      webRequests := webRequests - 1;
      assert counted.Keys == (counted - {r}).Keys + {r};
      counted := counted - {r};
    }

    method StopAdmission(ghost kind: Kind)
      requires Valid() && command.None?
      modifies this
      ensures Valid() && View() == Step(old(View()), OfCommand(Begin(kind)))
      ensures Inv(old(View())) ==> Inv(View())
    {
      StepKeeps(View(), OfCommand(Begin(kind)));
      webChanging := true;
      command := Some(Command(kind, Closing));
    }

    /** The WaitGroup lets the transition go on exactly when no request is left. */
    method WaitReturns() returns (drained: bool)
      requires Valid() && In(View(), Closing)
      modifies this
      ensures Valid() && View() == Step(old(View()), OfCommand(Drain))
      ensures Inv(old(View())) ==> Inv(View())
      ensures drained == (counted == map[])
    {
      StepKeeps(View(), OfCommand(Drain));
      drained := webRequests == 0;
      if drained {
        command := Some(command.value.(phase := Drained));
      }
    }

    method ReopenWeb()
      requires Valid() && In(View(), Finished)
      modifies this
      ensures Valid() && View() == Step(old(View()), OfCommand(Reopen))
      ensures Inv(old(View())) ==> Inv(View())
    {
      StepKeeps(View(), OfCommand(Reopen));
      webChanging := false;
      command := Some(command.value.(phase := Reopened));
    }

    method DetachForInit()
      requires Valid() && In(View(), Drained) && (command.value.kind.Init? || command.value.kind.Shutdown?) && attempts == map[]
      modifies this
      ensures Valid() && View() == Step(old(View()), OfCommand(Change.Detach))
      ensures Inv(old(View())) ==> Inv(View())
    {
      StepKeeps(View(), OfCommand(Change.Detach));
      lc := None;
      generation := generation + 1;
      command := Some(command.value.(phase := if command.value.kind.Init? then Detached else Finished));
    }

    method ClearCachedStatus()
      requires Valid() && In(View(), Detached)
      modifies this
      ensures Valid() && View() == Step(old(View()), OfCommand(ClearCache))
      ensures Inv(old(View())) ==> Inv(View())
    {
      StepKeeps(View(), OfCommand(ClearCache));
      netMap := None;
      command := Some(command.value.(phase := Cleared(generation)));
    }

    method PublishClient(client: nat, expected: nat) returns (published: bool)
      requires Valid() && In(View(), Cleared(expected)) && attempts == map[]
      modifies this
      ensures Valid() && View() == Step(old(View()), OfCommand(Publish(client)))
      ensures Inv(old(View())) ==> Inv(View())
      ensures published == (generation == expected)
    {
      StepKeeps(View(), OfCommand(Publish(client)));
      if generation != expected {
        command := Some(command.value.(phase := Finished));
        return false;
      }
      lc := Some(client);
      command := Some(command.value.(phase := Published(client, generation)));
      return true;
    }

    /** Generation and map change in one critical section. */
    method BeginProfileChange(client: nat) returns (begun: bool)
      requires Valid() && In(View(), Drained) && Invalidates(command.value.kind) && command.value.kind.lc == client && attempts == map[]
      modifies this
      ensures Valid() && View() == Step(old(View()), OfCommand(Change.Invalidate))
      ensures Inv(old(View())) ==> Inv(View())
      ensures begun == (old(lc) == Some(client))
    {
      StepKeeps(View(), OfCommand(Change.Invalidate));
      if lc != Some(client) {
        webChanging := false;
        command := Some(command.value.(phase := Reopened));
        return false;
      }
      generation := generation + 1;
      netMap := None;
      command := Some(command.value.(phase := Invalidated(generation)));
      return true;
    }

    /** A watcher's cache update: refused, and the watcher stops, unless it is current. */
    method StoreNetMap(w: nat, client: nat, gen: nat, fetched: Option<nat>, reset: bool) returns (kept: bool)
      requires Valid() && w in watchers && watchers[w] == Watcher(client, gen, fetched)
      modifies this
      ensures Valid() && View() == Step(old(View()), OfWatcher(Watching.Store(w, reset)))
      ensures Inv(old(View())) ==> Inv(View())
      ensures kept == (old(lc) == Some(client) && old(generation) == gen)
    {
      StepKeeps(View(), OfWatcher(Watching.Store(w, reset)));
      if lc != Some(client) || generation != gen {
        watchers := watchers - {w};
        return false;
      }
      watchers := watchers[w := Watcher(client, gen, None)];
      Overwrite(if reset then None else fetched, gen);
      return true;
    }

    method Overwrite(latest: Option<nat>, ghost gen: nat)
      modifies this`netMap, this`author, this`stores, this`stored
      ensures View().cache == Stored(old(View()).cache, latest, gen)
    {
      netMap := latest;
      author, stores := gen, stores + 1;
      stored := stored + (if latest.Some? then {latest.value} else {});
    }

    method SessionSnapshot(d: nat) returns (r: Option<(nat, nat)>)
      requires Valid() && d !in dials
      modifies this
      ensures Valid() && View() == Step(old(View()), OfDial(Snap(d)))
      ensures Inv(old(View())) ==> Inv(View())
      ensures r == if lc.Some? then Some((lc.value, generation)) else None
    {
      StepKeeps(View(), OfDial(Snap(d)));
      if lc.None? {
        return None;
      }
      dials := dials[d := Snapped(lc.value, generation)];
      return Some((lc.value, generation));
    }

    /** The last check before a connection. */
    method CheckSession(d: nat, a: nat, client: nat, gen: nat, prefs: Prefs, chart: nat, ips: seq<Address>, ip: Address) returns (ok: bool)
      requires Valid() && d in dials && dials[d] == Checked(client, gen, prefs, chart, ips) && ip in ips && a !in attempts
      modifies this
      ensures Valid() && View() == Step(old(View()), OfDial(Authorize(d, ip, a)))
      ensures Inv(old(View())) ==> Inv(View())
      ensures ok == (a in attempts)
    {
      StepKeeps(View(), OfDial(Authorize(d, ip, a)));
      ok := netMap == Some(chart) && lc == Some(client) && generation == gen;
      if ok {
        attempts := attempts[a := Attempt(dials[d], ip, stores)];
      }
    }
  }
}
