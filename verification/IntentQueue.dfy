/** The connection intent: an in-memory mirror, a chain of storage writes, a startup
    guess that late lifecycle events may revise, and one corrective `down` for each
    connection. Each step runs from one `await` to the next. */
module IntentQueue {
  import opened Text

  // ---------- the write chain ----------

  datatype Task = Write(persist: bool) | ClearBoth | ClearPersisted

  /** The task of the chain that has begun, and the storage call it waits for. */
  datatype Busy = Idle | WritingSession(value: bool, persist: bool) | WritingPersisted(value: bool) | ClearingSession | ClearingPersisted

  /** Storage and the chain of writes to it. The last three fields record history: whether
      a value was queued, the newest decision the user made (a recorded value, or a
      clear), and whether a clear has since been overtaken by something else. */
  datatype Chain = Chain(
    session: Option<bool>, persisted: Option<bool>, queue: seq<Task>, busy: Busy,
    wrote: bool, decision: Option<Option<bool>>, overtaken: bool)

  /** `enqueueIntentWrite` for a startup guess: the mirror is read when the task begins. */
  function Enqueue(c: Chain, persist: bool): Chain {
    c.(queue := c.queue + [Write(persist)], wrote := true, overtaken := c.overtaken || c.decision == Some(None))
  }

  function EnqueueRecord(c: Chain, value: bool): Chain {
    c.(queue := c.queue + [Write(true)], wrote := true, decision := Some(Some(value)), overtaken := false)
  }

  function EnqueueClear(c: Chain): Chain {
    c.(queue := c.queue + [ClearBoth], decision := Some(None), overtaken := false)
  }

  function EnqueueStartup(c: Chain): Chain { c.(queue := c.queue + [ClearPersisted]) }

  function Begun(c: Chain, mirror: Option<bool>, t: Task): Chain {
    match t
    case Write(persist) => if mirror.Some? then c.(busy := WritingSession(mirror.value, persist)) else c
    case ClearBoth => if mirror.Some? then c else c.(busy := ClearingSession)
    case ClearPersisted => c.(busy := ClearingPersisted)
  }

  /** The chain goes on by one storage call. */
  function Advanced(c: Chain, mirror: Option<bool>): Chain {
    match c.busy
    case Idle => if c.queue == [] then c else Begun(c.(queue := c.queue[1..]), mirror, c.queue[0])
    case WritingSession(v, persist) => c.(session := Some(v), busy := if persist then WritingPersisted(v) else Idle)
    case WritingPersisted(v) => c.(persisted := Some(v), busy := Idle)
    case ClearingSession => c.(session := None, busy := ClearingPersisted)
    case ClearingPersisted => c.(persisted := None, busy := Idle)
  }

  /** The session intent left by the storage call under way. */
  function BusyEffect(c: Chain): Option<bool> {
    match c.busy
    case WritingSession(v, _) => Some(v)
    case ClearingSession => None
    case _ => c.session
  }

  predicate HasWrite(queue: seq<Task>) { exists i :: 0 <= i < |queue| && queue[i].Write? }

  /** Setting the mirror now would leave a session intent behind a clear: a write is
      waiting, or there is or will be a stored value that waiting clears would skip. */
  predicate LosesClear(c: Chain) { c.decision == Some(None) && (HasWrite(c.queue) || BusyEffect(c).Some?) }

  predicate Drained(c: Chain) { c.queue == [] && c.busy == Idle }

  // ---------- the background's state ----------

  /** What the startup resolution decided without a recorded session intent, and the
      lifecycle events seen. */
  datatype Resolution = Resolution(pref: bool, persisted: Option<bool>, usedRecovery: bool)
  datatype Life = Life(resolution: Option<Resolution>, sawStartup: bool, sawUpdate: bool)

  datatype Resolver = AwaitSession | HasSession(intent: bool) | NeedsPrefs | HasPrefs(pref: bool, persisted: Option<bool>)

  /** The fallback's read of the session intent. */
  datatype Lookup = Reading | HasRead(intent: Option<bool>)

  /** `downs` counts the corrective commands of this connection; `guess` tells whether
      the mirror holds the startup guess. */
  datatype State = State(
    mirror: Option<bool>, explicit: bool, latch: bool, backendUp: bool, downs: nat, guess: bool,
    life: Life, chain: Chain, resolvers: map<nat, Resolver>, lookups: map<nat, Lookup>)

  function Loaded(session: Option<bool>, persisted: Option<bool>): State {
    State(None, false, false, false, 0, false, Life(None, false, false),
          Chain(session, persisted, [], Idle, false, None, false), map[], map[])
  }

  datatype Event =
    | Record(value: bool)
    | Clear
    | Startup(sent: bool)
    | Updated
    | BeginResolve(resolver: nat)
    | ReadSession(resolver: nat)
    | ReadPrefs(resolver: nat, pref: bool)
    | FinishResolve(resolver: nat)
    | Advance
    | Status(up: bool, sent: bool, read: nat)
    | FallbackRead(read: nat)
    | FallbackApply(read: nat, sent: bool)
    | Disconnect

  // ---------- decisions ----------

  function RecordIntent(s: State, value: bool): State {
    s.(mirror := Some(value), explicit := true, guess := false, chain := EnqueueRecord(s.chain, value))
  }

  function ClearIntent(s: State): State {
    s.(mirror := None, explicit := true, latch := true, guess := false, chain := EnqueueClear(s.chain))
  }

  // ---------- the corrective down ----------

  /** `sent`: whether the port accepted the command. */
  function SendDown(s: State, sent: bool): State {
    if sent then s.(latch := true, downs := s.downs + 1) else s.(latch := false)
  }

  function MaybeDown(s: State, sent: bool, read: nat): State {
    if !s.backendUp || s.latch then s
    else if s.mirror.Some? then (if s.mirror.value then s else SendDown(s, sent))
    else if read in s.lookups then s
    else s.(lookups := s.lookups[read := Reading])
  }

  /** The fallback acts on what it read. */
  predicate Acts(s: State, read: nat) {
    read in s.lookups && s.lookups[read] == HasRead(Some(false)) && !s.latch && s.mirror != Some(true)
  }

  /** The callback of the fallback's read. */
  function ApplyFallback(s: State, read: nat, sent: bool): State {
    if read !in s.lookups || s.lookups[read].Reading? then s
    else if !Acts(s, read) then s.(lookups := s.lookups - {read})
    else
      SendDown(s.(lookups := s.lookups - {read}, mirror := Some(false), guess := s.guess && s.mirror.Some?,
                  chain := s.chain.(overtaken := s.chain.overtaken || (s.mirror.None? && LosesClear(s.chain)))), sent)
  }

  // ---------- lifecycle events ----------

  /** A late browser startup revises the guess. */
  predicate StartupRevises(s: State) {
    && s.life.resolution.Some? && s.life.resolution.value.usedRecovery && !s.explicit
    && s.mirror != Some(s.life.resolution.value.pref)
  }

  function BrowserStartup(s: State, sent: bool): State {
    var t := s.(life := s.life.(sawStartup := true), chain := EnqueueStartup(s.chain));
    if !StartupRevises(t) then t
    else
      var pref := Some(t.life.resolution.value.pref);
      // The mirror is set, so no read starts here.
      MaybeDown(t.(mirror := pref, chain := Enqueue(t.chain, false)), sent, 0)
  }

  /** A late update restores a persisted run intent. */
  predicate UpdateRestores(s: State) {
    && s.life.resolution.Some? && !s.life.resolution.value.usedRecovery && s.life.resolution.value.persisted == Some(true)
    && !s.life.sawStartup && !s.explicit
  }

  function ExtensionUpdated(s: State): State {
    var t := s.(life := s.life.(sawUpdate := true));
    if !UpdateRestores(t) then t
    else
      t.(life := t.life.(resolution := Some(t.life.resolution.value.(usedRecovery := true))), mirror := Some(true),
         chain := Enqueue(t.chain, true))
  }

  // ---------- the startup resolution ----------

  /** What the run hint is, from the preference and the intent kept across updates. */
  function Decide(pref: bool, persisted: Option<bool>, life: Life): bool {
    if persisted.Some? && life.sawUpdate && !life.sawStartup then persisted.value else pref
  }

  function StartResolve(s: State, r: nat): State {
    if s.mirror.Some? || r in s.resolvers then s else s.(resolvers := s.resolvers[r := AwaitSession])
  }

  function ResolveSession(s: State, r: nat): State {
    if r !in s.resolvers || !s.resolvers[r].AwaitSession? then s
    else s.(resolvers := s.resolvers[r := if s.chain.session.Some? then HasSession(s.chain.session.value) else NeedsPrefs])
  }

  function ResolvePrefs(s: State, r: nat, pref: bool): State {
    if r !in s.resolvers || !s.resolvers[r].NeedsPrefs? then s
    else s.(resolvers := s.resolvers[r := HasPrefs(pref, s.chain.persisted)])
  }

  /** `mirror ??= resolved`. */
  function Kept(mirror: Option<bool>, resolved: bool): Option<bool> { if mirror.Some? then mirror else Some(resolved) }

  function CompleteResolve(s: State, r: nat): State {
    if r !in s.resolvers then s
    else
      match s.resolvers[r]
      case HasSession(intent) =>
        s.(resolvers := s.resolvers - {r}, mirror := Kept(s.mirror, intent), guess := s.guess && s.mirror.Some?,
           chain := Enqueue(s.chain, false))
      case HasPrefs(pref, persisted) =>
        var resolved := Decide(pref, persisted, s.life);
        var recovery := persisted.Some? && s.life.sawUpdate && !s.life.sawStartup;
        s.(resolvers := s.resolvers - {r}, mirror := Kept(s.mirror, resolved), guess := s.mirror.None? || (s.guess && s.life.resolution == Some(Resolution(pref, persisted, recovery))),
           life := s.life.(resolution := Some(Resolution(pref, persisted, recovery))),
           chain := Enqueue(s.chain, false))
      case _ => s
  }

  function Step(s: State, e: Event): State {
    match e
    case Record(value) => RecordIntent(s, value)
    case Clear => ClearIntent(s)
    case Startup(sent) => BrowserStartup(s, sent)
    case Updated => ExtensionUpdated(s)
    case BeginResolve(r) => StartResolve(s, r)
    case ReadSession(r) => ResolveSession(s, r)
    case ReadPrefs(r, pref) => ResolvePrefs(s, r, pref)
    case FinishResolve(r) => CompleteResolve(s, r)
    case Advance => s.(chain := Advanced(s.chain, s.mirror))
    case Status(up, sent, read) => MaybeDown(s.(backendUp := up), sent, read)
    case FallbackRead(read) => if read in s.lookups then s.(lookups := s.lookups[read := HasRead(s.chain.session)]) else s
    case FallbackApply(read, sent) => ApplyFallback(s, read, sent)
    case Disconnect => s.(latch := false, downs := 0)
  }

  function Run(s: State, events: seq<Event>): State {
    if events == [] then s else Step(Run(s, events[..|events| - 1]), events[|events| - 1])
  }

  // ---------- what is stored once the chain has drained ----------

  function Effect(mirror: Option<bool>, session: Option<bool>, t: Task): Option<bool> {
    match t
    case Write(_) => if mirror.Some? then mirror else session
    case ClearBoth => if mirror.Some? then session else None
    case ClearPersisted => session
  }

  function Effects(mirror: Option<bool>, session: Option<bool>, queue: seq<Task>): Option<bool> {
    if queue == [] then session else Effect(mirror, Effects(mirror, session, queue[..|queue| - 1]), queue[|queue| - 1])
  }

  /** The session intent that will be stored if nothing more is decided. */
  function Future(c: Chain, mirror: Option<bool>): Option<bool> { Effects(mirror, BusyEffect(c), c.queue) }

  lemma {:induction false} EffectsHead(mirror: Option<bool>, session: Option<bool>, queue: seq<Task>)
    requires queue != []
    ensures Effects(mirror, session, queue) == Effects(mirror, Effect(mirror, session, queue[0]), queue[1..])
  {
    var n := |queue| - 1;
    if n > 0 {
      EffectsHead(mirror, session, queue[..n]);
      assert queue[..n][1..] == queue[1..][..n - 1];
    }
  }

  lemma {:induction false} EffectsLast(mirror: Option<bool>, session: Option<bool>, queue: seq<Task>, t: Task)
    ensures Effects(mirror, session, queue + [t]) == Effect(mirror, Effects(mirror, session, queue), t)
  {
    assert (queue + [t])[..|queue|] == queue;
  }

  /** With the mirror set, waiting clears skip and waiting writes store the mirror. */
  lemma {:induction false} EffectsSet(value: bool, session: Option<bool>, queue: seq<Task>)
    ensures Effects(Some(value), session, queue) == if HasWrite(queue) then Some(value) else session
  {
    if queue != [] {
      var n := |queue| - 1;
      EffectsSet(value, session, queue[..n]);
      assert HasWrite(queue) <==> HasWrite(queue[..n]) || queue[n].Write? by {
        assert forall i | 0 <= i < n :: queue[..n][i] == queue[i];
      }
    }
  }

  /** What will be stored is the mirror, once it was queued, unless the newest decision is
      a clear; a recorded decision is still in the mirror; after a clear nothing will be
      stored exactly when it was not overtaken. */
  predicate QueueInv(c: Chain, mirror: Option<bool>) {
    && (c.wrote && c.decision != Some(None) ==> mirror.Some? && Future(c, mirror) == mirror)
    && (c.decision.Some? && c.decision.value.Some? ==> c.wrote && mirror == c.decision.value)
    && (c.decision == Some(None) ==> (Future(c, mirror).None? <==> !c.overtaken) && (c.overtaken ==> mirror.Some?))
  }

  lemma {:induction false} AdvanceInv(c: Chain, mirror: Option<bool>)
    requires QueueInv(c, mirror)
    ensures QueueInv(Advanced(c, mirror), mirror)
  {
    if c.busy == Idle && c.queue != [] {
      EffectsHead(mirror, c.session, c.queue);
      assert BusyEffect(Advanced(c, mirror)) == Effect(mirror, c.session, c.queue[0]);
    }
    AdvanceKeepsHistory(c, mirror);
    assert Future(Advanced(c, mirror), mirror) == Future(c, mirror);
  }

  lemma {:induction false} AdvanceKeepsHistory(c: Chain, mirror: Option<bool>)
    ensures var d := Advanced(c, mirror); d.wrote == c.wrote && d.decision == c.decision && d.overtaken == c.overtaken
  {
  }

  lemma {:induction false} WrittenFuture(c: Chain, d: Chain, value: bool, persist: bool)
    requires d.queue == c.queue + [Write(persist)] && d.busy == c.busy && d.session == c.session
    ensures Future(d, Some(value)) == Some(value)
  {
    EffectsLast(Some(value), BusyEffect(c), c.queue, Write(persist));
  }

  lemma {:induction false} EnqueueInv(c: Chain, value: bool, persist: bool)
    requires c.decision.Some? && c.decision.value.Some? ==> c.decision.value == Some(value)
    ensures QueueInv(Enqueue(c, persist), Some(value))
  {
    WrittenFuture(c, Enqueue(c, persist), value, persist);
  }

  lemma {:induction false} EnqueueRecordInv(c: Chain, value: bool)
    ensures QueueInv(EnqueueRecord(c, value), Some(value))
  {
    WrittenFuture(c, EnqueueRecord(c, value), value, true);
  }

  lemma {:induction false} EnqueueClearInv(c: Chain)
    ensures QueueInv(EnqueueClear(c), None)
  {
    EffectsLast(None, BusyEffect(c), c.queue, ClearBoth);
    assert BusyEffect(EnqueueClear(c)) == BusyEffect(c);
    assert Future(EnqueueClear(c), None) == None;
  }

  lemma {:induction false} EnqueueStartupInv(c: Chain, mirror: Option<bool>)
    requires QueueInv(c, mirror)
    ensures QueueInv(EnqueueStartup(c), mirror)
  {
    EffectsLast(mirror, BusyEffect(c), c.queue, ClearPersisted);
    assert BusyEffect(EnqueueStartup(c)) == BusyEffect(c);
    assert Future(EnqueueStartup(c), mirror) == Future(c, mirror);
  }

  /** The fallback may set a mirror that holds no decision. */
  lemma {:induction false} FallbackInv(c: Chain, mirror: Option<bool>)
    requires QueueInv(c, mirror) && mirror != Some(true)
    ensures QueueInv(c.(overtaken := c.overtaken || (mirror.None? && LosesClear(c))), Some(false))
  {
    if mirror.Some? {
      assert mirror == Some(mirror.value) && !mirror.value;
    } else {
      EffectsSet(false, BusyEffect(c), c.queue);
    }
  }

  /** Recorded and cleared intents are deliberate. */
  predicate ExplicitInv(s: State) { s.chain.decision.Some? ==> s.explicit }

  lemma {:induction false} StepKeepsExplicit(s: State, e: Event)
    requires ExplicitInv(s)
    ensures ExplicitInv(Step(s, e))
  {
    match e {
      case Startup(sent) => StartupKeepsDecision(s, sent);
      case Advance => AdvanceKeepsHistory(s.chain, s.mirror);
      case _ =>
    }
  }

  lemma {:induction false} StartupKeepsDecision(s: State, sent: bool)
    ensures var t := BrowserStartup(s, sent); t.chain.decision == s.chain.decision && t.explicit == s.explicit
  {
  }

  lemma {:induction false} StepKeepsQueue(s: State, e: Event)
    requires QueueInv(s.chain, s.mirror) && ExplicitInv(s)
    ensures QueueInv(Step(s, e).chain, Step(s, e).mirror)
  {
    match e {
      case Record(value) => EnqueueRecordInv(s.chain, value);
      case Clear => EnqueueClearInv(s.chain);
      case Startup(sent) => StartupKeepsQueue(s, sent);
      case Updated =>
        if !s.explicit {
          EnqueueInv(s.chain, true, true);
        }
      case FinishResolve(r) => ResolveKeepsQueue(s, r);
      case Advance => AdvanceInv(s.chain, s.mirror);
      case FallbackApply(read, sent) =>
        if Acts(s, read) {
          FallbackInv(s.chain, s.mirror);
        }
      case _ => assert Step(s, e).chain == s.chain && Step(s, e).mirror == s.mirror;
    }
  }

  lemma {:induction false} StartupKeepsQueue(s: State, sent: bool)
    requires QueueInv(s.chain, s.mirror) && ExplicitInv(s)
    ensures QueueInv(BrowserStartup(s, sent).chain, BrowserStartup(s, sent).mirror)
  {
    EnqueueStartupInv(s.chain, s.mirror);
    if s.life.resolution.Some? && !s.explicit {
      EnqueueInv(EnqueueStartup(s.chain), s.life.resolution.value.pref, false);
    }
  }

  lemma {:induction false} ResolveKeepsQueue(s: State, r: nat)
    requires QueueInv(s.chain, s.mirror)
    ensures QueueInv(CompleteResolve(s, r).chain, CompleteResolve(s, r).mirror)
  {
    if r in s.resolvers {
      match s.resolvers[r] {
        case HasSession(intent) => EnqueueInv(s.chain, Kept(s.mirror, intent).value, false);
        case HasPrefs(pref, persisted) => EnqueueInv(s.chain, Kept(s.mirror, Decide(pref, persisted, s.life)).value, false);
        case _ =>
      }
    }
  }

  lemma {:induction false} RunKeepsQueue(session: Option<bool>, persisted: Option<bool>, events: seq<Event>)
    ensures var s := Run(Loaded(session, persisted), events); QueueInv(s.chain, s.mirror) && ExplicitInv(s)
  {
    if events != [] {
      RunKeepsQueue(session, persisted, events[..|events| - 1]);
      StepKeepsQueue(Run(Loaded(session, persisted), events[..|events| - 1]), events[|events| - 1]);
      StepKeepsExplicit(Run(Loaded(session, persisted), events[..|events| - 1]), events[|events| - 1]);
    }
  }

  /** In every interleaving, once the chain has drained, session storage holds the decision
      recorded last; after a clear it holds nothing if and only if that clear was not
      overtaken; and before any decision it holds the guess that was queued. */
  lemma {:induction false} DrainedStoresDecision(session: Option<bool>, persisted: Option<bool>, events: seq<Event>)
    requires Drained(Run(Loaded(session, persisted), events).chain)
    ensures var s := Run(Loaded(session, persisted), events);
            && (s.chain.decision.Some? && s.chain.decision.value.Some? ==> s.chain.session == s.chain.decision.value == s.mirror)
            && (s.chain.decision == Some(None) ==> (s.chain.session.None? <==> !s.chain.overtaken))
            && (s.chain.decision.None? && s.chain.wrote ==> s.mirror.Some? && s.chain.session == s.mirror)
  {
    RunKeepsQueue(session, persisted, events);
  }

  // ---------- when a clear is overtaken ----------

  /** A resolver that ends: it adopts what it read if the mirror is unset, and queues. */
  predicate Completes(s: State, r: nat) { r in s.resolvers && (s.resolvers[r].HasSession? || s.resolvers[r].HasPrefs?) }

  /** What overtakes a clear: a resolver that ends after it, and the fallback if a value is
      stored, being stored or waiting to be. */
  predicate Overtakes(s: State, e: Event) {
    || (e.FinishResolve? && Completes(s, e.resolver))
    || (e.FallbackApply? && Acts(s, e.read) && s.mirror.None? && LosesClear(s.chain))
  }

  /** What sets the mirror again after a clear. */
  predicate SetsMirror(s: State, e: Event) {
    s.mirror.None? && ((e.FinishResolve? && Completes(s, e.resolver)) || (e.FallbackApply? && Acts(s, e.read)))
  }

  /** What an event does to a clear, by the state before it. */
  predicate AfterClear(s: State, e: Event, t: State) {
    && t.chain.decision == s.chain.decision
    && (s.latch && !e.Disconnect? ==> t.latch)
    && (t.mirror.Some? <==> s.mirror.Some? || SetsMirror(s, e))
    && (t.chain.overtaken <==> s.chain.overtaken || Overtakes(s, e))
  }

  lemma {:induction false} ResolveAfterClear(s: State, r: nat)
    requires s.chain.decision == Some(None)
    ensures AfterClear(s, FinishResolve(r), CompleteResolve(s, r))
  {
  }

  lemma {:induction false} FallbackAfterClear(s: State, read: nat, sent: bool)
    requires s.chain.decision == Some(None)
    ensures AfterClear(s, FallbackApply(read, sent), ApplyFallback(s, read, sent))
  {
  }

  lemma {:induction false} LifeAfterClear(s: State, sent: bool)
    requires s.chain.decision == Some(None) && s.explicit
    ensures AfterClear(s, Startup(sent), BrowserStartup(s, sent)) && AfterClear(s, Updated, ExtensionUpdated(s))
  {
  }

  /** Only a record or a clear changes the newest decision. */
  lemma {:induction false} StepKeepsDecision(s: State, e: Event)
    requires !e.Clear? && !e.Record?
    ensures Step(s, e).chain.decision == s.chain.decision
  {
    match e {
      case Startup(sent) => StartupKeepsDecision(s, sent);
      case Advance => AdvanceKeepsHistory(s.chain, s.mirror);
      case _ =>
    }
  }

  lemma {:induction false} StepAfterClear(s: State, e: Event)
    requires ExplicitInv(s) && !e.Clear? && Step(s, e).chain.decision == Some(None)
    ensures s.chain.decision == Some(None) && !e.Record? && AfterClear(s, e, Step(s, e))
  {
    if !e.Record? {
      StepKeepsDecision(s, e);
    }
    match e {
      case Startup(sent) => LifeAfterClear(s, sent);
      case Updated => LifeAfterClear(s, false);
      case FinishResolve(r) => ResolveAfterClear(s, r);
      case FallbackApply(read, sent) => FallbackAfterClear(s, read, sent);
      case Advance => AdvanceKeepsHistory(s.chain, s.mirror);
      case _ =>
    }
  }

  /** The last decision of the run is the clear at `j`. */
  predicate LastClear(events: seq<Event>, j: int) {
    0 <= j < |events| && events[j].Clear? && forall m | j < m < |events| :: !events[m].Clear? && !events[m].Record?
  }

  predicate DisconnectAfter(events: seq<Event>, j: int) { exists k :: 0 <= k < |events| && j < k && events[k].Disconnect? }

  function At(s: State, events: seq<Event>, i: nat): State
    requires i <= |events|
  {
    Run(s, events[..i])
  }

  predicate OvertakenAt(s: State, events: seq<Event>, i: nat)
    requires i < |events|
  {
    Overtakes(At(s, events, i), events[i])
  }

  predicate SetAt(s: State, events: seq<Event>, i: nat)
    requires i < |events|
  {
    SetsMirror(At(s, events, i), events[i])
  }

  predicate OvertakenAfter(s: State, events: seq<Event>, j: int) { exists i :: 0 <= i < |events| && j < i && OvertakenAt(s, events, i) }

  predicate SetAfter(s: State, events: seq<Event>, j: int) { exists i :: 0 <= i < |events| && j < i && SetAt(s, events, i) }

  lemma {:induction false} LastClearStays(events: seq<Event>, e: Event, j: int)
    requires LastClear(events, j) && !e.Clear? && !e.Record?
    ensures LastClear(events + [e], j)
    ensures DisconnectAfter(events + [e], j) <==> DisconnectAfter(events, j) || e.Disconnect?
  {
    var more := events + [e];
    if e.Disconnect? {
      assert more[|events|].Disconnect?;
    } else if DisconnectAfter(events, j) {
      var k :| 0 <= k < |events| && j < k && events[k].Disconnect?;
      assert more[k].Disconnect?;
    }
  }

  lemma {:induction false} AfterStays(s: State, events: seq<Event>, e: Event, j: int)
    requires j < |events|
    ensures OvertakenAfter(s, events + [e], j) <==> OvertakenAfter(s, events, j) || Overtakes(Run(s, events), e)
    ensures SetAfter(s, events + [e], j) <==> SetAfter(s, events, j) || SetsMirror(Run(s, events), e)
  {
    var more, n := events + [e], |events|;
    assert more[..n] == events;
    forall i | 0 <= i < n ensures OvertakenAt(s, more, i) == OvertakenAt(s, events, i) && SetAt(s, more, i) == SetAt(s, events, i) {
      assert more[..i] == events[..i];
    }
    assert OvertakenAt(s, more, n) == Overtakes(Run(s, events), e) && SetAt(s, more, n) == SetsMirror(Run(s, events), e);
  }

  /** While a clear is the newest decision: the latch it set holds unless the helper has
      disconnected since, and the mirror is set, or the clear overtaken, exactly if one of
      the events since then did that. */
  lemma {:induction false} SinceClear(session: Option<bool>, persisted: Option<bool>, events: seq<Event>) returns (j: int)
    requires Run(Loaded(session, persisted), events).chain.decision == Some(None)
    ensures LastClear(events, j)
    ensures var s0 := Loaded(session, persisted); var s := Run(s0, events);
            && (s.latch || DisconnectAfter(events, j))
            && (s.mirror.Some? <==> SetAfter(s0, events, j))
            && (s.chain.overtaken <==> OvertakenAfter(s0, events, j))
  {
    var n := |events| - 1;
    if n < 0 {
      assert false;
    } else if events[n].Clear? {
      j := n;
    } else {
      var s0, front := Loaded(session, persisted), events[..n];
      RunKeepsQueue(session, persisted, front);
      StepAfterClear(Run(s0, front), events[n]);
      j := SinceClear(session, persisted, front);
      assert events == front + [events[n]];
      LastClearStays(front, events[n], j);
      AfterStays(s0, front, events[n], j);
    }
  }

  /** Exactly when a drained chain has kept a clear: no resolver has ended since, and no
      fallback has acted while a value was stored, being stored or waiting to be. */
  lemma {:induction false} ClearStandsIff(session: Option<bool>, persisted: Option<bool>, events: seq<Event>, j: int)
    requires var s := Run(Loaded(session, persisted), events); Drained(s.chain) && s.chain.decision == Some(None)
    requires LastClear(events, j)
    ensures var s0 := Loaded(session, persisted); Run(s0, events).chain.session.None? <==> !OvertakenAfter(s0, events, j)
  {
    RunKeepsQueue(session, persisted, events);
    var k := SinceClear(session, persisted, events);
    assert k == j;
  }

  /** As long as no resolver has ended and the helper has not disconnected since the last
      clear, what is stored is the newest decision. */
  lemma {:induction false} UndisturbedStoresDecision(session: Option<bool>, persisted: Option<bool>, events: seq<Event>)
    requires forall j | LastClear(events, j) ::
               !DisconnectAfter(events, j) && forall k | j < k < |events| :: !events[k].FinishResolve?
    requires var s := Run(Loaded(session, persisted), events); Drained(s.chain) && s.chain.decision.Some?
    ensures var s := Run(Loaded(session, persisted), events); s.chain.session == s.chain.decision.value
  {
    RunKeepsQueue(session, persisted, events);
    var s0 := Loaded(session, persisted);
    if Run(s0, events).chain.decision == Some(None) && Run(s0, events).chain.overtaken {
      var j := SinceClear(session, persisted, events);
      var i :| 0 <= i < |events| && j < i && OvertakenAt(s0, events, i);
      FallbackNeedsDisconnect(session, persisted, events, i, j);
      assert false;
    }
  }

  lemma {:induction false} FallbackNeedsDisconnect(session: Option<bool>, persisted: Option<bool>, events: seq<Event>, i: nat, j: int)
    requires i < |events| && LastClear(events, j) && j < i && events[i].FallbackApply?
    requires OvertakenAt(Loaded(session, persisted), events, i)
    ensures DisconnectAfter(events, j)
  {
    var front := events[..i];
    var k := SinceClear(session, persisted, front);
    assert events[k] == front[k] && LastClear(front, j) && k == j;
    var m :| 0 <= m < |front| && k < m && front[m].Disconnect?;
    assert events[m].Disconnect?;
  }

  lemma {:induction false} RunThree(s: State, events: seq<Event>)
    requires |events| == 3
    ensures Run(s, events) == Step(Step(Step(s, events[0]), events[1]), events[2])
  {
    assert events[..2][..1] == events[..1] && events[..1][..0] == [];
    assert Run(s, events[..1]) == Step(s, events[0]);
    assert Run(s, events[..2]) == Step(Step(s, events[0]), events[1]);
  }

  lemma {:induction false} RunTwo(s: State, events: seq<Event>)
    requires |events| == 2
    ensures Run(s, events) == Step(Step(s, events[0]), events[1])
  {
    assert events[..1][..0] == [];
    assert Run(s, events[..1]) == Step(s, events[0]);
  }

  lemma {:induction false} RunAppends(s: State, first: seq<Event>, second: seq<Event>)
    ensures Run(s, first + second) == Run(Run(s, first), second)
  {
    if second == [] {
      assert first + second == first;
    } else {
      RunAppends(s, first, second[..|second| - 1]);
      assert (first + second)[..|first + second| - 1] == first + second[..|second| - 1];
    }
  }

  lemma {:induction false} OvertakeFirst(persisted: Option<bool>)
    ensures Step(Step(Step(Loaded(Some(false), persisted), Status(true, true, 0)), FallbackRead(0)), Clear)
            == ClearIntent(Loaded(Some(false), persisted).(backendUp := true, lookups := map[0 := HasRead(Some(false))]))
  {
  }

  lemma {:induction false} OvertakeSecond(s: State)
    requires s.chain.queue == [ClearBoth] && s.chain.busy == Idle && s.chain.decision == Some(None)
    requires s.mirror.None? && 0 in s.lookups && s.lookups[0] == HasRead(Some(false))
    ensures var t := Step(Step(Step(s, Disconnect), FallbackApply(0, true)), Advance);
            Drained(t.chain) && t.chain.decision == Some(None) && t.chain.session == s.chain.session && t.mirror == Some(false)
  {
    var u := Step(s, Disconnect);
    assert Acts(u, 0);
    var v := Step(u, FallbackApply(0, true));
    assert v.mirror == Some(false) && v.chain.queue == [ClearBoth] && v.chain.busy == Idle;
  }

  /** A resolver that read the session intent before a clear restores it after the clear. */
  lemma {:induction false} ResolverRestores(persisted: Option<bool>)
    ensures var t := Step(Step(Loaded(Some(false), persisted), BeginResolve(0)), ReadSession(0));
            t == Loaded(Some(false), persisted).(resolvers := map[0 := HasSession(false)])
  {
    assert map[0 := AwaitSession][0 := HasSession(false)] == map[0 := HasSession(false)];
  }

  lemma {:induction false} RestoredAfterClear(s: State)
    requires s.chain.queue == [] && s.chain.busy == Idle && s.chain.session == Some(false) && s.resolvers == map[0 := HasSession(false)]
    ensures var t := Step(Step(s, Clear), FinishResolve(0));
            && t.mirror == Some(false) && t.chain.queue == [ClearBoth, Write(false)] && t.chain.busy == Idle
            && t.chain.decision == Some(None) && t.chain.session == Some(false) && t.chain.persisted == s.chain.persisted
  {
    assert [ClearBoth] + [Write(false)] == [ClearBoth, Write(false)];
  }

  lemma {:induction false} RestoredIsWritten(s: State)
    requires s.mirror == Some(false) && s.chain.queue == [ClearBoth, Write(false)] && s.chain.busy == Idle && s.chain.decision == Some(None)
    ensures var t := Step(Step(Step(s, Advance), Advance), Advance);
            && Drained(t.chain) && t.chain.session == Some(false) && t.mirror == Some(false) && t.chain.decision == Some(None)
            && t.chain.persisted == s.chain.persisted
  {
    var a := Step(s, Advance);
    assert a.chain.queue == [Write(false)] && a.chain.busy == Idle;
    var b := Step(a, Advance);
    assert b.chain.queue == [] && b.chain.busy == WritingSession(false, false);
  }

  /** Such a run, without any fallback or disconnect: the old stay-down intent is stored
      again and in the mirror, and the persisted intent has not been cleared. */
  lemma {:induction false} ResolverCanOvertake(persisted: Option<bool>, first: seq<Event>, second: seq<Event>, third: seq<Event>)
    requires first == [BeginResolve(0), ReadSession(0)] && second == [Clear, FinishResolve(0)] && third == [Advance, Advance, Advance]
    ensures var s := Run(Loaded(Some(false), persisted), first + second + third);
            && Drained(s.chain) && s.chain.decision == Some(None) && s.chain.session == Some(false) && s.mirror == Some(false)
            && s.chain.persisted == persisted
  {
    var s0 := Loaded(Some(false), persisted);
    RunTwo(s0, first);
    ResolverRestores(persisted);
    RunAppends(s0, first, second);
    RunTwo(Run(s0, first), second);
    RestoredAfterClear(Run(s0, first));
    RunAppends(s0, first + second, third);
    RunThree(Run(s0, first + second), third);
    RestoredIsWritten(Run(s0, first + second));
  }

  /** After a disconnect the next status then sends a `down` against the clear. */
  lemma {:induction false} DownCanFollowResolver(session: Option<bool>, persisted: Option<bool>, events: seq<Event>)
    requires var s := Run(Loaded(session, persisted), events); s.chain.decision == Some(None) && s.mirror == Some(false)
    ensures var s := Run(Loaded(session, persisted), events + [Disconnect]);
            DownAgainstClear(s, Status(true, true, 1)) && Step(s, Status(true, true, 1)).downs > s.downs
  {
    assert (events + [Disconnect])[..|events|] == events;
    DownSentIff(Run(Loaded(session, persisted), events + [Disconnect]), Status(true, true, 1));
  }

  /** A read of the fallback that is in flight across a clear and a disconnect sets the
      mirror again, and the waiting clear then skips: the old stay-down intent survives. */
  lemma {:induction false} ClearCanBeOvertaken(persisted: Option<bool>, first: seq<Event>, second: seq<Event>)
    requires first == [Status(true, true, 0), FallbackRead(0), Clear]
    requires second == [Disconnect, FallbackApply(0, true), Advance]
    ensures var s := Run(Loaded(Some(false), persisted), first + second);
            Drained(s.chain) && s.chain.decision == Some(None) && s.chain.session == Some(false) && s.mirror == Some(false)
  {
    RunAppends(Loaded(Some(false), persisted), first, second);
    RunThree(Loaded(Some(false), persisted), first);
    OvertakeFirst(persisted);
    RunThree(Run(Loaded(Some(false), persisted), first), second);
    OvertakeSecond(Run(Loaded(Some(false), persisted), first));
  }

  lemma {:induction false} DownAfterClear(s: State)
    requires s.downs == 0 && 0 in s.lookups && s.lookups[0] == HasRead(Some(false))
    ensures var t := Step(Step(s, Clear), Disconnect); t.downs == 0 && DownAgainstClear(t, FallbackApply(0, true))
  {
  }

  lemma {:induction false} StatusThenRead(persisted: Option<bool>)
    ensures var t := Step(Step(Loaded(Some(false), persisted), Status(true, true, 0)), FallbackRead(0));
            t.downs == 0 && 0 in t.lookups && t.lookups[0] == HasRead(Some(false))
  {
  }

  /** In such a run the fallback sends a `down` against the clear. */
  lemma {:induction false} DownCanFollowClear(persisted: Option<bool>, first: seq<Event>, second: seq<Event>)
    requires first == [Status(true, true, 0), FallbackRead(0)] && second == [Clear, Disconnect]
    ensures var s := Run(Loaded(Some(false), persisted), first + second);
            DownAgainstClear(s, FallbackApply(0, true)) && s.downs == 0 && Step(s, FallbackApply(0, true)).downs > 0
  {
    var s0 := Loaded(Some(false), persisted);
    RunAppends(s0, first, second);
    RunTwo(s0, first);
    StatusThenRead(persisted);
    RunTwo(Run(s0, first), second);
    DownAfterClear(Run(s0, first));
    DownSentIff(Run(s0, first + second), FallbackApply(0, true));
  }

  // ---------- recorded decisions ----------

  lemma {:induction false} StepKeepsRecorded(s: State, e: Event)
    requires s.explicit && s.mirror.Some? && !e.Record? && !e.Clear?
    ensures Step(s, e).explicit && Step(s, e).mirror == s.mirror
  {
    match e {
      case FallbackApply(read, sent) =>
        if Acts(s, read) {
          assert s.mirror == Some(s.mirror.value) && !s.mirror.value;
        }
      case _ =>
    }
  }

  /** Whatever happens, a recorded decision changes only through a later record or clear. */
  lemma {:induction false} RecordedStands(s: State, value: bool, events: seq<Event>)
    requires forall i | 0 <= i < |events| :: !events[i].Record? && !events[i].Clear?
    ensures Run(Step(s, Record(value)), events).mirror == Some(value) && Run(Step(s, Record(value)), events).explicit
  {
    if events != [] {
      RecordedStands(s, value, events[..|events| - 1]);
      StepKeepsRecorded(Run(Step(s, Record(value)), events[..|events| - 1]), events[|events| - 1]);
    }
  }

  // ---------- the corrective down ----------

  predicate DownInv(s: State) { s.downs <= 1 && (s.downs == 1 ==> s.latch) }

  /** A status is answered while the mirror says stay down. */
  predicate StatusDown(s: State, e: Event) { e.Status? && e.up && e.sent && s.mirror == Some(false) }

  /** A late browser startup takes back a recovered intent for a preference to stay down;
      nothing deliberate has been decided. */
  predicate StartupDown(s: State, e: Event) {
    && e.Startup? && e.sent && s.backendUp && !s.explicit && s.life.resolution.Some?
    && s.life.resolution.value.usedRecovery && !s.life.resolution.value.pref && s.mirror != Some(false)
  }

  /** The fallback has read a stored stay-down intent, and no decision in memory is to
      connect. */
  predicate FallbackDown(s: State, e: Event) {
    e.FallbackApply? && e.sent && e.read in s.lookups && s.lookups[e.read] == HasRead(Some(false)) && s.mirror != Some(true)
  }

  lemma {:induction false} MaybeDownOnce(s: State, sent: bool, read: nat)
    ensures var t := MaybeDown(s, sent, read);
            && t.mirror == s.mirror
            && (t.downs > s.downs <==> s.backendUp && !s.latch && sent && s.mirror == Some(false))
            && (t.downs == s.downs || (t.downs == s.downs + 1 && t.latch))
            && (s.latch ==> t.latch)
  {
    if s.mirror.Some? {
      assert s.mirror == Some(s.mirror.value);
    }
  }

  lemma {:induction false} StartupDownOnce(s: State, sent: bool)
    ensures var t := BrowserStartup(s, sent);
            && (t.downs > s.downs <==> !s.latch && StartupDown(s, Startup(sent)))
            && (t.downs == s.downs || (t.downs == s.downs + 1 && t.latch))
            && (s.latch ==> t.latch)
  {
    var t := s.(life := s.life.(sawStartup := true), chain := EnqueueStartup(s.chain));
    if StartupRevises(t) {
      var pref := Some(t.life.resolution.value.pref);
      MaybeDownOnce(t.(mirror := pref, chain := Enqueue(t.chain, false)), sent, 0);
    }
  }

  /** Exactly when a corrective `down` is sent, by what was decided before the event. */
  lemma {:induction false} DownSentIff(s: State, e: Event)
    ensures Step(s, e).downs > s.downs <==> !s.latch && (StatusDown(s, e) || StartupDown(s, e) || FallbackDown(s, e))
    ensures DownInv(s) ==> DownInv(Step(s, e))
  {
    match e {
      case Status(up, sent, read) => MaybeDownOnce(s.(backendUp := up), sent, read);
      case Startup(sent) => StartupDownOnce(s, sent);
      case _ =>
    }
  }

  /** A corrective `down` that the port refuses does not use up the window: with a mirror
      that says to stay down, the next status sends it. */
  lemma {:induction false} RefusedDownIsRetried(s: State, first: nat, second: nat)
    requires !s.latch && s.mirror == Some(false)
    ensures var t := Step(s, Status(true, false, first)); var u := Step(t, Status(true, true, second));
            && t.downs == s.downs && !t.latch && t.mirror == s.mirror
            && u.downs == s.downs + 1 && u.latch
            && forall e: Event | e.Status? :: Step(u, e).downs == u.downs
  {
  }

  /** A `down` is sent although the newest decision is a clear: by the fallback, or because
      the fallback or a resolver has set the mirror since. */
  predicate DownAgainstClear(s: State, e: Event) {
    s.chain.decision == Some(None) && !s.latch && (StatusDown(s, e) || FallbackDown(s, e))
  }

  /** The newest decision is to stay down; or nothing has been decided, and the guess or the
      stored intent is to stay down. */
  predicate StayDown(s: State, e: Event) {
    || s.chain.decision == Some(Some(false))
    || (s.chain.decision.None? && (s.mirror == Some(false) || (s.mirror.None? && e.FallbackApply?) || StartupDown(s, e)))
  }

  /** In every interleaving a corrective `down` is sent at most once per connection. What it
      enforces is to stay down, if and only if the newest decision is not a clear. */
  lemma {:induction false} OneCorrectiveDown(session: Option<bool>, persisted: Option<bool>, events: seq<Event>, e: Event)
    ensures var s := Run(Loaded(session, persisted), events);
            && s.downs <= 1
            && (Step(s, e).downs > s.downs ==> s.downs == 0 && (StayDown(s, e) <==> !DownAgainstClear(s, e)))
            && (DownAgainstClear(s, e) <==> Step(s, e).downs > s.downs && s.chain.decision == Some(None))
  {
    var s := Run(Loaded(session, persisted), events);
    RunKeepsDowns(session, persisted, events);
    RunKeepsQueue(session, persisted, events);
    DownSentIff(s, e);
    BoolIntent(s.mirror);
    if s.chain.decision.Some? {
      BoolIntent(s.chain.decision.value);
    }
  }

  lemma {:induction false} BoolIntent(x: Option<bool>)
    ensures x == None || x == Some(true) || x == Some(false)
  {
    if x.Some? {
      assert x == Some(x.value) && (x.value || !x.value);
    }
  }

  /** A `down` against a clear needs a disconnect since that clear and, unless it is the
      fallback's own, a resolver or a fallback that has set the mirror since. */
  lemma {:induction false} DownAgainstClearNeeds(session: Option<bool>, persisted: Option<bool>, events: seq<Event>, e: Event) returns (j: int)
    requires DownAgainstClear(Run(Loaded(session, persisted), events), e)
    ensures LastClear(events, j) && DisconnectAfter(events, j)
    ensures e.FallbackApply? || SetAfter(Loaded(session, persisted), events, j)
  {
    j := SinceClear(session, persisted, events);
  }

  /** After a recorded decision to connect, nothing sends a corrective `down` until the
      next record or clear. */
  lemma {:induction false} RecordedConnectIsLeftUp(s: State, events: seq<Event>, e: Event)
    requires (forall i | 0 <= i < |events| :: !events[i].Record? && !events[i].Clear?)
    ensures var t := Run(Step(s, Record(true)), events); Step(t, e).downs <= t.downs
  {
    RecordedStands(s, true, events);
    DownSentIff(Run(Step(s, Record(true)), events), e);
  }

  lemma {:induction false} RunKeepsDowns(session: Option<bool>, persisted: Option<bool>, events: seq<Event>)
    ensures DownInv(Run(Loaded(session, persisted), events))
  {
    if events != [] {
      RunKeepsDowns(session, persisted, events[..|events| - 1]);
      DownSentIff(Run(Loaded(session, persisted), events[..|events| - 1]), events[|events| - 1]);
    }
  }

  // ---------- late lifecycle events ----------

  /** What a guess holds: the recovered intent, or the preference. */
  predicate GuessHolds(mirror: Option<bool>, life: Life) {
    && life.resolution.Some?
    && var r := life.resolution.value;
    && (r.usedRecovery ==> r.persisted.Some? && life.sawUpdate)
    && (!r.usedRecovery && life.sawUpdate && !life.sawStartup ==> r.persisted != Some(true))
    && mirror == (if r.usedRecovery && !life.sawStartup then r.persisted else Some(r.pref))
  }

  predicate GuessInv(s: State) { s.guess && !s.explicit ==> GuessHolds(s.mirror, s.life) }

  lemma {:induction false} StepKeepsGuess(s: State, e: Event)
    requires GuessInv(s)
    ensures GuessInv(Step(s, e))
  {
    match e {
      case Startup(sent) => StartupKeepsGuess(s, sent);
      case FinishResolve(r) => ResolveKeepsGuess(s, r);
      case FallbackApply(read, sent) =>
        if Acts(s, read) && s.mirror.Some? {
          assert s.mirror == Some(s.mirror.value) && !s.mirror.value;
        }
      case _ =>
    }
  }

  lemma {:induction false} StartupKeepsGuess(s: State, sent: bool)
    requires GuessInv(s)
    ensures GuessInv(BrowserStartup(s, sent))
  {
  }

  lemma {:induction false} ResolveKeepsGuess(s: State, r: nat)
    requires GuessInv(s)
    ensures GuessInv(CompleteResolve(s, r))
  {
  }

  lemma {:induction false} RunKeepsGuess(session: Option<bool>, persisted: Option<bool>, events: seq<Event>)
    ensures GuessInv(Run(Loaded(session, persisted), events))
  {
    if events != [] {
      RunKeepsGuess(session, persisted, events[..|events| - 1]);
      StepKeepsGuess(Run(Loaded(session, persisted), events[..|events| - 1]), events[|events| - 1]);
    }
  }

  /** However late the lifecycle events arrive, the guess ends as if they had all been
      seen before it was made; except, and only, when an update arrives late on a
      persisted stay-down intent against a preference to connect. */
  lemma {:induction false} LateEventsAgree(session: Option<bool>, persisted: Option<bool>, events: seq<Event>)
    requires var s := Run(Loaded(session, persisted), events); s.guess && !s.explicit
    ensures var s := Run(Loaded(session, persisted), events);
            && s.life.resolution.Some?
            && var r := s.life.resolution.value;
            s.mirror == Some(Decide(r.pref, r.persisted, s.life)) <==>
            !(r.pref && r.persisted == Some(false) && s.life.sawUpdate && !s.life.sawStartup && !r.usedRecovery)
  {
    RunKeepsGuess(session, persisted, events);
    var r := Run(Loaded(session, persisted), events).life.resolution.value;
    if r.persisted.Some? {
      assert r.persisted == Some(r.persisted.value);
    }
  }

  lemma {:induction false} GuessIsMade(s: State)
    requires s.resolvers == map[0 := HasPrefs(true, Some(false))] && s.mirror.None? && !s.explicit && s.life == Life(None, false, false)
    ensures var t := Step(Step(s, FinishResolve(0)), Updated);
            && t.guess && !t.explicit && t.mirror == Some(true)
            && t.life == Life(Some(Resolution(true, Some(false), false)), false, true)
  {
    var t := CompleteResolve(s, 0);
    assert t.mirror == Some(true) && t.life.resolution == Some(Resolution(true, Some(false), false));
    assert !UpdateRestores(t.(life := t.life.(sawUpdate := true)));
  }

  /** The exceptional case happens: the update comes after the guess. */
  lemma {:induction false} LateUpdateKeepsPreference(first: seq<Event>, second: seq<Event>)
    requires first == [BeginResolve(0), ReadSession(0), ReadPrefs(0, true)] && second == [FinishResolve(0), Updated]
    ensures var s := Run(Loaded(None, Some(false)), first + second);
            && s.guess && !s.explicit && s.life.resolution == Some(Resolution(true, Some(false), false))
            && s.mirror == Some(true) && !Decide(true, Some(false), s.life)
  {
    var s0 := Loaded(None, Some(false));
    RunAppends(s0, first, second);
    RunThree(s0, first);
    var s3 := Run(s0, first);
    assert s3 == s0.(resolvers := map[0 := HasPrefs(true, Some(false))]);
    RunTwo(s3, second);
    GuessIsMade(s3);
  }

  // ---------- everything together ----------

  predicate Inv(s: State) { QueueInv(s.chain, s.mirror) && ExplicitInv(s) && DownInv(s) && GuessInv(s) }

  lemma {:induction false} StepKeeps(s: State, e: Event)
    ensures Inv(s) ==> Inv(Step(s, e))
  {
    if Inv(s) {
      StepKeepsQueue(s, e);
      StepKeepsExplicit(s, e);
      DownSentIff(s, e);
      StepKeepsGuess(s, e);
    }
  }

  // ---------- the closure variables ----------

  class IntentKeeper {
    var mirror: Option<bool>
    var explicit: bool
    var latch: bool
    var backendUp: bool
    var life: Life
    var chain: Chain
    ghost var downs: nat
    ghost var guess: bool
    ghost var resolvers: map<nat, Resolver>
    ghost var lookups: map<nat, Lookup>

    ghost function View(): State
      reads this
    {
      State(mirror, explicit, latch, backendUp, downs, guess, life, chain, resolvers, lookups)
    }

    constructor (session: Option<bool>, persisted: Option<bool>)
      ensures View() == Loaded(session, persisted) && Inv(View())
    {
      mirror, explicit, latch, backendUp, life := None, false, false, false, Life(None, false, false);
      chain := Chain(session, persisted, [], Idle, false, None, false);
      downs, guess, resolvers, lookups := 0, false, map[], map[];
    }

    method EnqueueWrite(persist: bool)
      modifies this`chain
      ensures chain == Enqueue(old(chain), persist)
    {
      chain := chain.(queue := chain.queue + [Write(persist)], wrote := true,
                      overtaken := chain.overtaken || chain.decision == Some(None));
    }

    method RecordDecision(value: bool)
      modifies this
      ensures View() == Step(old(View()), Record(value))
      ensures Inv(old(View())) ==> Inv(View())
    {
      StepKeeps(View(), Record(value));
      mirror := Some(value);
      explicit := true;
      guess := false;
      EnqueueWrite(true);
      chain := chain.(decision := Some(mirror), overtaken := false);
    }

    method ClearDecision()
      modifies this
      ensures View() == Step(old(View()), Event.Clear)
      ensures Inv(old(View())) ==> Inv(View())
    {
      StepKeeps(View(), Event.Clear);
      mirror := None;
      explicit := true;
      latch := true;
      guess := false;
      chain := chain.(queue := chain.queue + [ClearBoth], decision := Some(None), overtaken := false);
    }

    method SendCorrectiveDown(sent: bool)
      modifies this
      ensures View() == SendDown(old(View()), sent)
    {
      latch := true;
      if sent {
        downs := downs + 1;
      } else {
        latch := false;
      }
    }

    /** A status, or a revised guess, while the backend may be up. */
    method MaybeAutoDisconnect(sent: bool, ghost read: nat)
      modifies this
      ensures View() == MaybeDown(old(View()), sent, read)
    {
      if !backendUp || latch {
        return;
      }
      if mirror.Some? {
        if !mirror.value {
          SendCorrectiveDown(sent);
        }
        return;
      }
      if read !in lookups {
        lookups := lookups[read := Reading];
      }
    }

    method HandleStatus(up: bool, sent: bool, ghost read: nat)
      modifies this
      ensures View() == Step(old(View()), Status(up, sent, read))
      ensures Inv(old(View())) ==> Inv(View())
    {
      StepKeeps(View(), Status(up, sent, read));
      backendUp := up;
      MaybeAutoDisconnect(sent, read);
    }

    method AdoptStayDown(ghost read: nat)
      requires Acts(View(), read)
      modifies this
      ensures View() == old(View()).(lookups := old(lookups) - {read}, mirror := Some(false), guess := old(guess) && old(mirror).Some?,
                chain := old(chain).(overtaken := old(chain).overtaken || (old(mirror).None? && LosesClear(old(chain)))))
    {
      lookups := lookups - {read};
      guess := guess && mirror.Some?;
      chain := chain.(overtaken := chain.overtaken || (mirror.None? && LosesClear(chain)));
      mirror := Some(false);
    }

    method ActOnRead(ghost read: nat, intent: Option<bool>, sent: bool)
      requires read in lookups && lookups[read] == HasRead(intent)
      modifies this
      ensures View() == ApplyFallback(old(View()), read, sent)
    {
      if intent != Some(false) || latch || mirror == Some(true) {
        lookups := lookups - {read};
        return;
      }
      AdoptStayDown(read);
      SendCorrectiveDown(sent);
    }

    method FallbackCallback(ghost read: nat, intent: Option<bool>, sent: bool)
      requires read in lookups && lookups[read] == HasRead(intent)
      modifies this
      ensures View() == Step(old(View()), FallbackApply(read, sent))
      ensures Inv(old(View())) ==> Inv(View())
    {
      StepKeeps(View(), FallbackApply(read, sent));
      ActOnRead(read, intent, sent);
    }

    method HandleBrowserStartup(sent: bool)
      modifies this
      ensures View() == Step(old(View()), Startup(sent))
      ensures Inv(old(View())) ==> Inv(View())
    {
      StepKeeps(View(), Startup(sent));
      life := life.(sawStartup := true);
      chain := chain.(queue := chain.queue + [ClearPersisted]);
      if life.resolution.Some? && life.resolution.value.usedRecovery && !explicit && mirror != Some(life.resolution.value.pref) {
        mirror := Some(life.resolution.value.pref);
        EnqueueWrite(false);
        MaybeAutoDisconnect(sent, 0);
      }
    }

    method HandleUpdate()
      modifies this
      ensures View() == Step(old(View()), Updated)
      ensures Inv(old(View())) ==> Inv(View())
    {
      StepKeeps(View(), Updated);
      life := life.(sawUpdate := true);
      if && life.resolution.Some? && !life.resolution.value.usedRecovery && life.resolution.value.persisted == Some(true)
         && !life.sawStartup && !explicit {
        life := life.(resolution := Some(life.resolution.value.(usedRecovery := true)));
        mirror := Some(true);
        EnqueueWrite(true);
      }
    }

    method Resolve(ghost r: nat, pref: bool, persisted: Option<bool>)
      requires r in resolvers && resolvers[r] == HasPrefs(pref, persisted)
      modifies this
      ensures View() == CompleteResolve(old(View()), r)
    {
      var recovery := persisted.Some? && life.sawUpdate && !life.sawStartup;
      var resolved := if recovery then persisted.value else pref;
      life := life.(resolution := Some(Resolution(pref, persisted, recovery)));
      resolvers := resolvers - {r};
      guess := mirror.None? || (guess && old(life).resolution == life.resolution);
      if mirror.None? {
        mirror := Some(resolved);
      }
      EnqueueWrite(false);
    }

    method FinishFromPrefs(ghost r: nat, pref: bool, persisted: Option<bool>)
      requires r in resolvers && resolvers[r] == HasPrefs(pref, persisted)
      modifies this
      ensures View() == Step(old(View()), FinishResolve(r))
      ensures Inv(old(View())) ==> Inv(View())
    {
      StepKeeps(View(), FinishResolve(r));
      Resolve(r, pref, persisted);
    }

    method BeginTask(task: Task)
      modifies this`chain
      ensures chain == Begun(old(chain), mirror, task)
    {
      match task {
        case Write(persist) =>
          if mirror.Some? {
            chain := chain.(busy := WritingSession(mirror.value, persist));
          }
        case ClearBoth =>
          if mirror.None? {
            chain := chain.(busy := ClearingSession);
          }
        case ClearPersisted => chain := chain.(busy := ClearingPersisted);
      }
    }

    method AdvanceChain()
      modifies this`chain
      ensures chain == Advanced(old(chain), mirror)
    {
      match chain.busy {
        case Idle =>
          if chain.queue != [] {
            var task := chain.queue[0];
            chain := chain.(queue := chain.queue[1..]);
            BeginTask(task);
          }
        case WritingSession(v, persist) =>
          chain := chain.(session := Some(v), busy := if persist then WritingPersisted(v) else Idle);
        case WritingPersisted(v) => chain := chain.(persisted := Some(v), busy := Idle);
        case ClearingSession => chain := chain.(session := None, busy := ClearingPersisted);
        case ClearingPersisted => chain := chain.(persisted := None, busy := Idle);
      }
    }

    method AdvanceTask()
      modifies this`chain
      ensures View() == Step(old(View()), Advance)
      ensures Inv(old(View())) ==> Inv(View())
    {
      StepKeeps(View(), Advance);
      AdvanceChain();
    }

    method HandleDisconnect()
      modifies this
      ensures View() == Step(old(View()), Disconnect)
      ensures Inv(old(View())) ==> Inv(View())
    {
      StepKeeps(View(), Disconnect);
      latch := false;
      downs := 0;
    }
  }
}
