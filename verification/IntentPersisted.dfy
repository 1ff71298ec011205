/** The copy of the connection intent that survives an extension update. */
module IntentPersisted {
  import opened Text
  import opened IntentQueue

  // ---------- what the chain will leave ----------

  /** The persisted intent left by the storage calls of the task under way. */
  function BusyPersists(c: Chain): Option<bool> {
    match c.busy
    case Idle => c.persisted
    case WritingSession(v, persist) => if persist then Some(v) else c.persisted
    case WritingPersisted(v) => Some(v)
    case _ => None
  }

  function PersistEffect(mirror: Option<bool>, p: Option<bool>, t: Task): Option<bool> {
    match t
    case Write(persist) => if persist && mirror.Some? then mirror else p
    case ClearBoth => if mirror.Some? then p else None
    case ClearPersisted => None
  }

  function PersistEffects(mirror: Option<bool>, p: Option<bool>, queue: seq<Task>): Option<bool> {
    if queue == [] then p else PersistEffect(mirror, PersistEffects(mirror, p, queue[..|queue| - 1]), queue[|queue| - 1])
  }

  /** The persisted intent that will be stored if nothing more happens. */
  function PersistFuture(c: Chain, mirror: Option<bool>): Option<bool> { PersistEffects(mirror, BusyPersists(c), c.queue) }

  lemma {:induction false} PersistHead(mirror: Option<bool>, p: Option<bool>, queue: seq<Task>)
    requires queue != []
    ensures PersistEffects(mirror, p, queue) == PersistEffects(mirror, PersistEffect(mirror, p, queue[0]), queue[1..])
  {
    var n := |queue| - 1;
    if n > 0 {
      PersistHead(mirror, p, queue[..n]);
      assert queue[..n][1..] == queue[1..][..n - 1];
    }
  }

  lemma {:induction false} PersistLast(mirror: Option<bool>, p: Option<bool>, queue: seq<Task>, t: Task)
    ensures PersistEffects(mirror, p, queue + [t]) == PersistEffect(mirror, PersistEffects(mirror, p, queue), t)
  {
    assert (queue + [t])[..|queue|] == queue;
  }

  lemma {:induction false} AdvancePersists(c: Chain, mirror: Option<bool>)
    ensures PersistFuture(Advanced(c, mirror), mirror) == PersistFuture(c, mirror)
  {
    if c.busy == Idle && c.queue != [] {
      PersistHead(mirror, c.persisted, c.queue);
      assert BusyPersists(Advanced(c, mirror)) == PersistEffect(mirror, c.persisted, c.queue[0]);
    }
  }

  // ---------- queues that the mirror does not matter to ----------

  /** Neither a persisting write nor a clear of both copies is waiting. */
  predicate Quiet(queue: seq<Task>) { forall i | 0 <= i < |queue| :: queue[i] == Write(false) || queue[i] == ClearPersisted }

  predicate SealedAt(queue: seq<Task>, k: nat) { k < |queue| && queue[k] == ClearPersisted && Quiet(queue[k + 1..]) }

  /** The persisted copy will be cleared, and only quiet tasks wait after that. */
  predicate Sealed(queue: seq<Task>) { exists k :: 0 <= k < |queue| && SealedAt(queue, k) }

  lemma {:induction false} QuietEffects(m: Option<bool>, n: Option<bool>, p: Option<bool>, queue: seq<Task>)
    requires Quiet(queue)
    ensures PersistEffects(m, p, queue) == PersistEffects(n, p, queue)
    ensures p.None? ==> PersistEffects(m, p, queue).None?
  {
    if queue != [] {
      QuietEffects(m, n, p, queue[..|queue| - 1]);
    }
  }

  lemma {:induction false} SealedEffects(m: Option<bool>, p: Option<bool>, queue: seq<Task>)
    requires Sealed(queue)
    ensures PersistEffects(m, p, queue).None?
  {
    var k :| 0 <= k < |queue| && SealedAt(queue, k);
    SealedFrom(m, p, queue, k);
  }

  lemma {:induction false} SealedFrom(m: Option<bool>, p: Option<bool>, queue: seq<Task>, k: nat)
    requires SealedAt(queue, k)
    ensures PersistEffects(m, p, queue).None?
    decreases k
  {
    PersistHead(m, p, queue);
    if k == 0 {
      QuietEffects(m, m, None, queue[1..]);
    } else {
      assert queue[1..][k - 1] == queue[k] && queue[1..][k..] == queue[k + 1..];
      SealedFrom(m, PersistEffect(m, p, queue[0]), queue[1..], k - 1);
    }
  }

  lemma {:induction false} QuietMore(queue: seq<Task>)
    ensures Quiet(queue) ==> Quiet(queue + [Write(false)])
    ensures Sealed(queue) ==> Sealed(queue + [Write(false)])
    ensures Sealed(queue + [ClearPersisted])
  {
    if k :| 0 <= k < |queue| && SealedAt(queue, k) {
      assert (queue + [Write(false)])[k + 1..] == queue[k + 1..] + [Write(false)];
      assert SealedAt(queue + [Write(false)], k);
    }
    assert SealedAt(queue + [ClearPersisted], |queue|);
  }

  /** The first task of a sealed queue begins. */
  lemma {:induction false} SealedNext(queue: seq<Task>)
    requires Sealed(queue)
    ensures Sealed(queue[1..]) || (queue[0] == ClearPersisted && Quiet(queue[1..]))
  {
    var k :| 0 <= k < |queue| && SealedAt(queue, k);
    if k > 0 {
      assert queue[1..][k..] == queue[k + 1..];
      assert SealedAt(queue[1..], k - 1);
    }
  }

  // ---------- what is meant to survive an update ----------

  /** What an event decides about the persisted intent: a recorded value, nothing after a
      clear or a browser startup, and the run intent that a late update restores. */
  function Decides(s: State, e: Event): Option<Option<bool>> {
    match e
    case Record(value) => Some(Some(value))
    case Clear => Some(None)
    case Startup(_) => Some(None)
    case Updated => if UpdateRestores(s) then Some(Some(true)) else None
    case _ => None
  }

  /** The persisted intent after a run, by its last event that decides about it. */
  function Meant(s: State, events: seq<Event>): Option<bool> {
    if events == [] then s.chain.persisted
    else
      var front, e := events[..|events| - 1], events[|events| - 1];
      var d := Decides(Run(s, front), e);
      if d.Some? then d.value else Meant(s, front)
  }

  /** The last event that decides about it is a clear. */
  predicate ClearDecides(s: State, events: seq<Event>) {
    events != []
    && var front, e := events[..|events| - 1], events[|events| - 1];
       if Decides(Run(s, front), e).Some? then e.Clear? else ClearDecides(s, front)
  }

  /** What the waiting tasks will leave is what is meant, whatever becomes of the mirror, or
      because the mirror holds a value; a clear that was not overtaken leaves nothing. */
  predicate PersistInv(s: State, meant: Option<bool>, cleared: bool) {
    if cleared then
      && meant.None? && s.chain.decision == Some(None)
      && (s.mirror.None? || !s.chain.overtaken ==> PersistFuture(s.chain, s.mirror).None?)
    else
      || (Quiet(s.chain.queue) && PersistFuture(s.chain, None) == meant)
      || (Sealed(s.chain.queue) && meant.None?)
      || (s.mirror.Some? && PersistFuture(s.chain, s.mirror) == meant)
  }

  /** Once a session intent was seen, there is no persisted intent without one. */
  predicate NoneLeft(c: Chain) { BusyEffect(c).None? ==> BusyPersists(c).None? }

  predicate WroteBoth(c: Chain) { c.busy.WritingPersisted? ==> c.session.Some? }

  predicate ReadInv(s: State) {
    WroteBoth(s.chain) && forall r | r in s.lookups && s.lookups[r].HasRead? && s.lookups[r].intent.Some? :: NoneLeft(s.chain)
  }

  lemma {:induction false} AdvanceRead(c: Chain, mirror: Option<bool>)
    requires WroteBoth(c)
    ensures WroteBoth(Advanced(c, mirror)) && (NoneLeft(c) ==> NoneLeft(Advanced(c, mirror)))
  {
  }

  lemma {:induction false} EnqueueStays(s: State, e: Event)
    requires e.Record? || e.Clear? || e.Startup? || e.Updated? || e.FinishResolve?
    ensures var c, d := s.chain, Step(s, e).chain; d.session == c.session && d.persisted == c.persisted && d.busy == c.busy
  {
  }

  /** No other event than an advance touches storage or the task under way. */
  lemma {:induction false} StorageStays(s: State, e: Event)
    requires !e.Advance?
    ensures var c, d := s.chain, Step(s, e).chain; d.session == c.session && d.persisted == c.persisted && d.busy == c.busy
  {
    if e.Record? || e.Clear? || e.Startup? || e.Updated? || e.FinishResolve? {
      EnqueueStays(s, e);
    } else {
      OthersStay(s, e);
    }
  }

  lemma {:induction false} OthersStay(s: State, e: Event)
    requires !e.Advance? && !(e.Record? || e.Clear? || e.Startup? || e.Updated? || e.FinishResolve?)
    ensures var c, d := s.chain, Step(s, e).chain; d.session == c.session && d.persisted == c.persisted && d.busy == c.busy
  {
  }

  /** A read that returns has read what is stored. */
  lemma {:induction false} ReadsAre(s: State, e: Event, r: nat)
    requires r in Step(s, e).lookups && Step(s, e).lookups[r].HasRead?
    ensures (e == FallbackRead(r) && Step(s, e).lookups[r] == HasRead(s.chain.session))
            || (r in s.lookups && s.lookups[r] == Step(s, e).lookups[r])
  {
  }

  lemma {:induction false} StepRead(s: State, e: Event)
    requires ReadInv(s)
    ensures ReadInv(Step(s, e))
  {
    var t := Step(s, e);
    if e.Advance? {
      AdvanceRead(s.chain, s.mirror);
    } else {
      StorageStays(s, e);
    }
    forall r | r in t.lookups && t.lookups[r].HasRead? && t.lookups[r].intent.Some? ensures NoneLeft(t.chain) {
      ReadsAre(s, e, r);
    }
  }

  /** Only deciding events change a mirror that holds a value. */
  lemma {:induction false} MirrorHeld(s: State, e: Event)
    requires s.mirror.Some? && Decides(s, e).None?
    ensures Step(s, e).mirror == s.mirror
  {
    if e.FallbackApply? && Acts(s, e.read) {
      assert s.mirror == Some(s.mirror.value) && !s.mirror.value;
    }
  }

  /** An event that decides nothing leaves the waiting tasks, advances them by one call, or
      queues a write of the session intent only. */
  predicate QueueMoves(s: State, t: State) {
    || (t.chain.queue == s.chain.queue && t.chain.busy == s.chain.busy && t.chain.persisted == s.chain.persisted)
    || (t.chain.queue == s.chain.queue + [Write(false)] && t.chain.busy == s.chain.busy && t.chain.persisted == s.chain.persisted)
  }

  lemma {:induction false} OtherMoves(s: State, e: Event)
    requires Decides(s, e).None? && !e.Advance?
    ensures QueueMoves(s, Step(s, e)) && Step(s, e).chain.decision == s.chain.decision
  {
    if e.Updated? {
      assert !UpdateRestores(s.(life := s.life.(sawUpdate := true)));
    }
  }

  lemma {:induction false} MovesFuture(s: State, t: State, m: Option<bool>)
    requires QueueMoves(s, t)
    ensures PersistFuture(t.chain, m) == PersistFuture(s.chain, m)
    ensures (Quiet(s.chain.queue) ==> Quiet(t.chain.queue)) && (Sealed(s.chain.queue) ==> Sealed(t.chain.queue))
  {
    PersistLast(m, BusyPersists(s.chain), s.chain.queue, Write(false));
    QuietMore(s.chain.queue);
  }

  lemma {:induction false} UnclearedMoves(s: State, e: Event, meant: Option<bool>)
    requires PersistInv(s, meant, false) && Decides(s, e).None? && !e.Advance?
    ensures PersistInv(Step(s, e), meant, false)
  {
    var t := Step(s, e);
    OtherMoves(s, e);
    MovesFuture(s, t, None);
    if s.mirror.Some? {
      MirrorHeld(s, e);
      MovesFuture(s, t, s.mirror);
    }
  }

  lemma {:induction false} QuietAdvance(c: Chain, mirror: Option<bool>, meant: Option<bool>)
    requires Quiet(c.queue) && PersistFuture(c, None) == meant
    ensures var d := Advanced(c, mirror); Quiet(d.queue) && PersistFuture(d, None) == meant
  {
    AdvancePersists(c, mirror);
    QuietEffects(mirror, None, BusyPersists(c), c.queue);
    QuietEffects(mirror, None, BusyPersists(Advanced(c, mirror)), Advanced(c, mirror).queue);
  }

  lemma {:induction false} AdvanceKeepsPersist(s: State, meant: Option<bool>, cleared: bool)
    requires PersistInv(s, meant, cleared)
    ensures PersistInv(Step(s, Advance), meant, cleared)
  {
    var c := s.chain;
    AdvanceKeepsHistory(c, s.mirror);
    AdvancePersists(c, s.mirror);
    if cleared {
    } else if Quiet(c.queue) && PersistFuture(c, None) == meant {
      QuietAdvance(c, s.mirror, meant);
    } else if Sealed(c.queue) && meant.None? {
      SealedAdvance(c, s.mirror);
    }
  }

  lemma {:induction false} SealedAdvance(c: Chain, mirror: Option<bool>)
    requires Sealed(c.queue)
    ensures var d := Advanced(c, mirror); Sealed(d.queue) || (Quiet(d.queue) && PersistFuture(d, None).None?)
  {
    if c.busy == Idle {
      SealedNext(c.queue);
      if !Sealed(c.queue[1..]) {
        QuietEffects(None, None, None, c.queue[1..]);
      }
    }
  }

  /** What a fallback leaves of a clear that it does not overtake. */
  lemma {:induction false} FallbackLeavesNone(c: Chain)
    requires !HasWrite(c.queue) && BusyEffect(c).None? && NoneLeft(c)
    ensures PersistFuture(c, Some(false)).None?
  {
    NoWriteEffects(c.queue);
  }

  lemma {:induction false} NoWriteEffects(queue: seq<Task>)
    requires !HasWrite(queue)
    ensures PersistEffects(Some(false), None, queue).None?
  {
    if queue != [] {
      var n := |queue| - 1;
      assert forall i | 0 <= i < n :: queue[..n][i] == queue[i];
      NoWriteEffects(queue[..n]);
    }
  }

  lemma {:induction false} ClearedFallback(s: State, e: Event)
    requires s.chain.decision == Some(None) && ReadInv(s) && s.mirror.None? && e.FallbackApply? && Acts(s, e.read)
    requires !Overtakes(s, e)
    ensures Step(s, e).mirror == Some(false) && PersistFuture(Step(s, e).chain, Some(false)).None?
  {
    FallbackLeavesNone(s.chain);
    OtherMoves(s, e);
    MovesFuture(s, Step(s, e), Some(false));
  }

  lemma {:induction false} ClearedMoves(s: State, e: Event)
    requires PersistInv(s, None, true) && ReadInv(s) && ExplicitInv(s) && Decides(s, e).None? && !e.Advance?
    ensures PersistInv(Step(s, e), None, true)
  {
    var t := Step(s, e);
    OtherMoves(s, e);
    StepAfterClear(s, e);
    if s.mirror.Some? {
      MirrorHeld(s, e);
      MovesFuture(s, t, s.mirror);
    } else if t.mirror.None? {
      MovesFuture(s, t, None);
    } else if e.FallbackApply? && !Overtakes(s, e) {
      ClearedFallback(s, e);
    }
  }

  lemma {:induction false} DecidedPersists(s: State, e: Event)
    requires Decides(s, e).Some? && ExplicitInv(s)
    ensures PersistInv(Step(s, e), Decides(s, e).value, e.Clear?)
  {
    match e {
      case Record(value) => RecordPersists(s, e);
      case Clear => RecordPersists(s, e);
      case Startup(sent) => StartupPersists(s, e);
      case Updated => UpdatedPersists(s, e);
    }
  }

  lemma {:induction false} RecordPersists(s: State, e: Event)
    requires (e.Record? || e.Clear?) && ExplicitInv(s)
    ensures PersistInv(Step(s, e), Decides(s, e).value, e.Clear?)
  {
    if e.Record? {
      PersistLast(Some(e.value), BusyPersists(s.chain), s.chain.queue, Write(true));
    } else {
      PersistLast(None, BusyPersists(s.chain), s.chain.queue, ClearBoth);
    }
  }

  lemma {:induction false} StartupPersists(s: State, e: Event)
    requires e.Startup? && ExplicitInv(s)
    ensures PersistInv(Step(s, e), Decides(s, e).value, false)
  {
    QuietMore(s.chain.queue);
    QuietMore(s.chain.queue + [ClearPersisted]);
  }

  lemma {:induction false} UpdatedPersists(s: State, e: Event)
    requires e.Updated? && Decides(s, e).Some? && ExplicitInv(s)
    ensures PersistInv(Step(s, e), Decides(s, e).value, false)
  {
    assert UpdateRestores(s.(life := s.life.(sawUpdate := true)));
    PersistLast(Some(true), BusyPersists(s.chain), s.chain.queue, Write(true));
  }

  lemma {:induction false} RunPersists(session: Option<bool>, persisted: Option<bool>, events: seq<Event>)
    ensures var s0 := Loaded(session, persisted); var s := Run(s0, events);
            PersistInv(s, Meant(s0, events), ClearDecides(s0, events)) && ReadInv(s)
  {
    var s0 := Loaded(session, persisted);
    if events != [] {
      var front, e := events[..|events| - 1], events[|events| - 1];
      var s := Run(s0, front);
      RunPersists(session, persisted, front);
      RunKeepsQueue(session, persisted, front);
      StepRead(s, e);
      if Decides(s, e).Some? {
        DecidedPersists(s, e);
      } else if e.Advance? {
        AdvanceKeepsPersist(s, Meant(s0, front), ClearDecides(s0, front));
      } else if ClearDecides(s0, front) {
        ClearedMoves(s, e);
      } else {
        UnclearedMoves(s, e, Meant(s0, front));
      }
    }
  }

  /** In every interleaving, once the chain has drained, the persisted intent is what the last
      event that decides about it means: a recorded value, nothing after a clear or a browser
      startup, true after a late update that restores the run intent, and before any such
      event what was stored; except that a clear that was overtaken may not have cleared. */
  lemma {:induction false} DrainedPersists(session: Option<bool>, persisted: Option<bool>, events: seq<Event>)
    requires Drained(Run(Loaded(session, persisted), events).chain)
    ensures var s0 := Loaded(session, persisted); var s := Run(s0, events);
            (ClearDecides(s0, events) && s.chain.overtaken) || s.chain.persisted == Meant(s0, events)
  {
    RunPersists(session, persisted, events);
    var s := Run(Loaded(session, persisted), events);
    if Sealed(s.chain.queue) {
      SealedEffects(None, BusyPersists(s.chain), s.chain.queue);
    }
  }

  lemma {:induction false} MeantFrom(s: State, events: seq<Event>, j: nat)
    requires j < |events| && Decides(At(s, events, j), events[j]).Some?
    requires forall k | j < k < |events| :: Decides(At(s, events, k), events[k]).None?
    ensures Meant(s, events) == Decides(At(s, events, j), events[j]).value
    ensures ClearDecides(s, events) <==> events[j].Clear?
  {
    var n := |events| - 1;
    if j < n {
      var front := events[..n];
      forall k | j <= k < n ensures At(s, front, k) == At(s, events, k) {
        assert front[..k] == events[..k];
      }
      MeantFrom(s, front, j);
    }
  }

  lemma {:induction false} RunExplicit(s: State, events: seq<Event>, j: nat)
    requires j < |events| && (events[j].Record? || events[j].Clear?)
    requires forall k | j < k < |events| :: !events[k].Record? && !events[k].Clear?
    ensures Run(s, events).explicit
  {
    var n := |events| - 1;
    if j < n {
      assert forall k | j <= k < n :: events[..n][k] == events[k];
      RunExplicit(s, events[..n], j);
      ExplicitStays(Run(s, events[..n]), events[n]);
    }
  }

  lemma {:induction false} ExplicitStays(s: State, e: Event)
    requires s.explicit
    ensures Step(s, e).explicit
  {
  }

  /** So a recorded decision survives an extension update: the persisted copy is that value
      once the chain has drained, unless a browser startup has come since. */
  lemma {:induction false} RecordedPersists(session: Option<bool>, persisted: Option<bool>, events: seq<Event>, j: nat)
    requires j < |events| && events[j].Record?
    requires forall k | j < k < |events| :: !events[k].Record? && !events[k].Clear? && !events[k].Startup?
    requires Drained(Run(Loaded(session, persisted), events).chain)
    ensures Run(Loaded(session, persisted), events).chain.persisted == Some(events[j].value)
  {
    var s0 := Loaded(session, persisted);
    forall k | j < k < |events| ensures Decides(At(s0, events, k), events[k]).None? {
      assert events[..k][j] == events[j] && forall i | j < i < k :: events[..k][i] == events[i];
      RunExplicit(s0, events[..k], j);
    }
    MeantFrom(s0, events, j);
    DrainedPersists(session, persisted, events);
  }

  /** After a clear that nothing has overtaken no copy is left to be restored by an update. */
  lemma {:induction false} ClearPersists(session: Option<bool>, persisted: Option<bool>, events: seq<Event>, j: nat)
    requires LastClear(events, j) && Drained(Run(Loaded(session, persisted), events).chain)
    requires !OvertakenAfter(Loaded(session, persisted), events, j)
    ensures Run(Loaded(session, persisted), events).chain.persisted.None?
  {
    var s0 := Loaded(session, persisted);
    ClearIsNewest(s0, events, j);
    var k := SinceClear(session, persisted, events);
    assert k == j;
    NoneMeant(s0, events, j);
    DrainedPersists(session, persisted, events);
  }

  lemma {:induction false} ClearIsNewest(s: State, events: seq<Event>, j: nat)
    requires LastClear(events, j)
    ensures Run(s, events).chain.decision == Some(None)
  {
    var n := |events| - 1;
    if j < n {
      assert LastClear(events[..n], j);
      ClearIsNewest(s, events[..n], j);
      StepKeepsDecision(Run(s, events[..n]), events[n]);
    }
  }

  lemma {:induction false} NoneMeant(s: State, events: seq<Event>, j: nat)
    requires LastClear(events, j)
    ensures Meant(s, events).None?
  {
    var n := |events| - 1;
    if j < n {
      assert LastClear(events[..n], j);
      assert forall k | j <= k < n :: events[..n][k] == events[k];
      NoneMeant(s, events[..n], j);
      RunExplicit(s, events[..n], j);
    }
  }
}
