/** Chunked file transfers: slicing in the popup, reassembly in the helper. */
module Taildrop {
  import opened Text

  type Bytes = seq<nat>

  const MAX_PARTS := 1024
  const MAX_BYTES := 52428800
  const CHUNK := 700000

  /** `data` is None when the base64 text does not decode. */
  datatype Request = Request(id: string, node: string, name: string, index: int, count: int, data: Option<Bytes>)

  datatype Pending = Pending(node: string, name: string, count: nat, parts: seq<Option<Bytes>>, total: nat)

  datatype Reply = Rejected | Progress(filled: nat) | Pushed(node: string, name: string, data: Bytes)

  type Transfers = map<string, Pending>

  // ---------- parts ----------

  function Filled(parts: seq<Option<Bytes>>): nat {
    if parts == [] then 0 else Filled(parts[..|parts| - 1]) + if parts[|parts| - 1].Some? then 1 else 0
  }

  function Size(parts: seq<Option<Bytes>>): nat {
    if parts == [] then 0
    else Size(parts[..|parts| - 1]) + if parts[|parts| - 1].Some? then |parts[|parts| - 1].value| else 0
  }

  /** `bytes.Join(parts, nil)`. */
  function Joined(parts: seq<Option<Bytes>>): Bytes {
    if parts == [] then []
    else Joined(parts[..|parts| - 1]) + if parts[|parts| - 1].Some? then parts[|parts| - 1].value else []
  }

  function Concat(chunks: seq<Bytes>): Bytes {
    if chunks == [] then [] else Concat(chunks[..|chunks| - 1]) + chunks[|chunks| - 1]
  }

  function NoParts(count: nat): (r: seq<Option<Bytes>>)
    ensures |r| == count && forall i | 0 <= i < count :: r[i] == None
  {
    seq(count, _ => None)
  }

  lemma {:induction false} NothingFilled(parts: seq<Option<Bytes>>)
    requires forall i | 0 <= i < |parts| :: parts[i] == None
    ensures Filled(parts) == 0 && Size(parts) == 0
  {
    if parts != [] {
      NothingFilled(parts[..|parts| - 1]);
    }
  }

  lemma {:induction false} FilledIsAll(parts: seq<Option<Bytes>>)
    ensures Filled(parts) <= |parts|
    ensures Filled(parts) == |parts| <==> forall i | 0 <= i < |parts| :: parts[i].Some?
  {
    if parts != [] {
      FilledIsAll(parts[..|parts| - 1]);
    }
  }

  /** Storing a missing part adds its size. */
  lemma {:induction false} SizeOfStored(parts: seq<Option<Bytes>>, i: nat, data: Bytes)
    requires i < |parts| && parts[i] == None
    ensures Size(parts[i := Some(data)]) == Size(parts) + |data|
    ensures Filled(parts[i := Some(data)]) == Filled(parts) + 1
  {
    var n := |parts| - 1;
    var stored := parts[i := Some(data)];
    if i == n {
      assert stored[..n] == parts[..n];
    } else {
      SizeOfStored(parts[..n], i, data);
      assert stored[..n] == parts[..n][i := Some(data)];
    }
  }

  // ---------- one request ----------

  function Current(pending: Transfers, r: Request): Pending
    requires r.count >= 0
  {
    if r.id in pending then pending[r.id] else Pending(r.node, r.name, r.count, NoParts(r.count), 0)
  }

  predicate InRange(r: Request) { 2 <= r.count <= MAX_PARTS && 0 <= r.index < r.count }

  predicate SameTransfer(acc: Pending, r: Request) { acc.count == r.count && acc.node == r.node && acc.name == r.name }

  predicate Fits(acc: Pending, r: Request)
    requires r.data.Some?
  {
    && SameTransfer(acc, r) && 0 <= r.index < |acc.parts|
    && acc.parts[r.index] == None && acc.total + |r.data.value| <= MAX_BYTES
  }

  /** `handleSendFileChunked`, on the transfers that pruning left. */
  function Handle(pending: Transfers, r: Request): (Transfers, Reply) {
    if !InRange(r) || r.data.None? then (pending, Rejected)
    else
      var acc := Current(pending, r);
      if !Fits(acc, r) then (pending - {r.id}, Rejected)
      else
        var parts := acc.parts[r.index := r.data];
        if Filled(parts) == acc.count then (pending - {r.id}, Pushed(r.node, r.name, Joined(parts)))
        else (pending[r.id := acc.(parts := parts, total := acc.total + |r.data.value|)], Progress(Filled(parts)))
  }

  /** A chunk, the expiry of one transfer, or the cancellation of all. */
  datatype Event = Chunk(request: Request) | Expire(id: string) | CancelAll

  function Step(pending: Transfers, e: Event): Transfers {
    match e
    case Chunk(r) => Handle(pending, r).0
    case Expire(id) => pending - {id}
    case CancelAll => map[]
  }

  function Run(events: seq<Event>): Transfers {
    if events == [] then map[] else Step(Run(events[..|events| - 1]), events[|events| - 1])
  }

  /** The reply to event `n` of a run. */
  function ReplyAt(events: seq<Event>, n: nat): Reply
    requires n < |events| && events[n].Chunk?
  {
    Handle(Run(events[..n]), events[n].request).1
  }

  // ---------- what is always true of pending transfers ----------

  predicate PendingOk(acc: Pending) {
    && 2 <= acc.count <= MAX_PARTS && |acc.parts| == acc.count
    && acc.total == Size(acc.parts) && acc.total <= MAX_BYTES && Filled(acc.parts) < acc.count
  }

  predicate Inv(pending: Transfers) { forall id | id in pending :: PendingOk(pending[id]) }

  lemma {:induction false} HandleKeeps(pending: Transfers, r: Request)
    requires Inv(pending)
    ensures Inv(Handle(pending, r).0)
  {
    if InRange(r) && r.data.Some? {
      var acc := Current(pending, r);
      if r.id !in pending {
        NothingFilled(acc.parts);
      }
      if Fits(acc, r) {
        SizeOfStored(acc.parts, r.index, r.data.value);
        FilledIsAll(acc.parts[r.index := r.data]);
      }
    }
  }

  /** In every run, byte totals are the sums of the stored parts and stay in the cap. */
  lemma {:induction false} TotalsAreSums(events: seq<Event>)
    ensures Inv(Run(events))
  {
    if events != [] {
      TotalsAreSums(events[..|events| - 1]);
      if events[|events| - 1].Chunk? {
        HandleKeeps(Run(events[..|events| - 1]), events[|events| - 1].request);
      }
    }
  }

  /** What makes the handler refuse a chunk, by numbers: parts and index out of range, data
      that does not decode, or a pending transfer of that identifier which is for another
      peer, name or number of parts, has this part already, or would exceed 50 MiB. */
  predicate Refused(pending: Transfers, r: Request) {
    || r.count < 2 || r.count > 1024 || r.index < 0 || r.index >= r.count || r.data.None?
    || |r.data.value| > 52428800
    || (r.id in pending
        && var acc := pending[r.id];
        || acc.count != r.count || acc.node != r.node || acc.name != r.name
        || (r.index < |acc.parts| && acc.parts[r.index].Some?) || Size(acc.parts) + |r.data.value| > 52428800)
  }

  /** In every run a chunk is refused exactly for those reasons. A refusal drops the
      transfer, unless the chunk was malformed, and touches no other. */
  lemma {:induction false} RefusedIff(events: seq<Event>, r: Request)
    ensures var pending := Run(events); var h := Handle(pending, r);
            && (h.1.Rejected? <==> Refused(pending, r))
            && (h.1.Rejected? ==> h.0 == if InRange(r) && r.data.Some? then pending - {r.id} else pending)
            && forall id | id != r.id :: (id in h.0 <==> id in pending) && (id in pending ==> h.0[id] == pending[id])
  {
    TotalsAreSums(events);
  }

  /** In every run an accepted chunk is stored in its place, with the parts before it, and
      the reply counts them; the last one is answered with all the parts in order. */
  lemma {:induction false} AcceptedIs(events: seq<Event>, r: Request)
    requires !Refused(Run(events), r)
    ensures var pending := Run(events); var h := Handle(pending, r);
            var before := if r.id in pending then pending[r.id].parts else NoParts(r.count);
            r.index < |before| && before[r.index].None? &&
            var parts := before[r.index := r.data];
            if forall i | 0 <= i < |parts| :: parts[i].Some? then
              h.1 == Pushed(r.node, r.name, Joined(parts)) && r.id !in h.0
            else
              h.1 == Progress(Filled(before) + 1) && r.id in h.0 && h.0[r.id].parts == parts
              && h.0[r.id].node == r.node && h.0[r.id].name == r.name && h.0[r.id].count == r.count
  {
    TotalsAreSums(events);
    var pending := Run(events);
    var before := if r.id in pending then pending[r.id].parts else NoParts(r.count);
    SizeOfStored(before, r.index, r.data.value);
    FilledIsAll(before[r.index := r.data]);
  }

  // ---------- delivery ----------

  /** What a sender means to send under one transfer identifier. */
  datatype Plan = Plan(id: string, node: string, name: string, chunks: seq<Bytes>)

  function ChunkOf(plan: Plan, i: nat): Request
    requires i < |plan.chunks|
  {
    Request(plan.id, plan.node, plan.name, i, |plan.chunks|, Some(plan.chunks[i]))
  }

  predicate PlanOk(plan: Plan) { 2 <= |plan.chunks| <= MAX_PARTS && |Concat(plan.chunks)| <= MAX_BYTES }

  predicate Touches(e: Event, id: string) {
    match e
    case Chunk(r) => r.id == id
    case Expire(x) => x == id
    case CancelAll => true
  }

  /** The events that touch the plan's transfer are its chunks, each at most once. */
  predicate Follows(events: seq<Event>, plan: Plan) {
    && (forall n | 0 <= n < |events| && Touches(events[n], plan.id) ::
          && events[n].Chunk? && 0 <= events[n].request.index < |plan.chunks|
          && events[n].request == ChunkOf(plan, events[n].request.index))
    && (forall m, n | 0 <= m < n < |events| && Touches(events[m], plan.id) && Touches(events[n], plan.id) ::
          events[m].request.index != events[n].request.index)
  }

  /** Chunk `i` is among the events. */
  predicate Sent(events: seq<Event>, plan: Plan, i: int) {
    exists n :: 0 <= n < |events| && events[n].Chunk? && events[n].request.id == plan.id && events[n].request.index == i
  }

  function Flags(events: seq<Event>, plan: Plan): (r: seq<bool>)
    ensures |r| == |plan.chunks| && forall i | 0 <= i < |r| :: r[i] == Sent(events, plan, i)
  {
    seq(|plan.chunks|, i => Sent(events, plan, i))
  }

  predicate All(flags: seq<bool>) { forall i | 0 <= i < |flags| :: flags[i] }

  predicate NoneOf(flags: seq<bool>) { forall i | 0 <= i < |flags| :: !flags[i] }

  /** The parts are exactly the flagged chunks. */
  predicate Partial(parts: seq<Option<Bytes>>, chunks: seq<Bytes>, flags: seq<bool>) {
    |parts| == |chunks| == |flags| && forall i | 0 <= i < |parts| :: parts[i] == if flags[i] then Some(chunks[i]) else None
  }

  /** What the transfers hold of the plan: exactly the flagged chunks, and nothing once
      all were flagged. */
  predicate Holds(pending: Transfers, plan: Plan, flags: seq<bool>) {
    if plan.id in pending then
      var acc := pending[plan.id];
      && acc.node == plan.node && acc.name == plan.name && acc.count == |plan.chunks| && Partial(acc.parts, plan.chunks, flags)
      && !All(flags)
    else
      |flags| == |plan.chunks| && (All(flags) || NoneOf(flags))
  }

  lemma {:induction false} PartsWithin(parts: seq<Option<Bytes>>, chunks: seq<Bytes>, flags: seq<bool>)
    requires Partial(parts, chunks, flags)
    ensures Size(parts) <= |Concat(chunks)|
    ensures All(flags) ==> Joined(parts) == Concat(chunks)
  {
    var n := |parts| - 1;
    if parts != [] {
      PartsWithin(parts[..n], chunks[..n], flags[..n]);
      assert All(flags) ==> All(flags[..n]);
    }
  }

  /** A chunk of the plan that was not sent before is accepted, and completes the file
      if and only if it is the last missing one. */
  lemma {:induction false} AcceptChunk(pending: Transfers, plan: Plan, flags: seq<bool>, i: nat)
    requires Inv(pending) && PlanOk(plan) && Holds(pending, plan, flags) && i < |flags| == |plan.chunks| && !flags[i]
    ensures var r := Handle(pending, ChunkOf(plan, i));
            && Holds(r.0, plan, flags[i := true])
            && (All(flags[i := true]) ==> r.1 == Pushed(plan.node, plan.name, Concat(plan.chunks)))
            && (!All(flags[i := true]) ==> r.1.Progress?)
  {
    var r := ChunkOf(plan, i);
    var acc := Current(pending, r);
    if plan.id !in pending {
      NothingFilled(acc.parts);
    }
    assert Partial(acc.parts, plan.chunks, flags) && acc.total == Size(acc.parts);
    var parts := acc.parts[i := r.data];
    StoredPart(acc.parts, plan.chunks, flags, i);
    assert Fits(acc, r);
    FilledIsAll(parts);
    assert Filled(parts) == acc.count <==> All(flags[i := true]);
  }

  lemma {:induction false} StoredPart(parts: seq<Option<Bytes>>, chunks: seq<Bytes>, flags: seq<bool>, i: nat)
    requires Partial(parts, chunks, flags) && i < |parts| && !flags[i]
    ensures Partial(parts[i := Some(chunks[i])], chunks, flags[i := true])
    ensures Size(parts) + |chunks[i]| <= |Concat(chunks)|
    ensures All(flags[i := true]) ==> Joined(parts[i := Some(chunks[i])]) == Concat(chunks)
  {
    SizeOfStored(parts, i, chunks[i]);
    PartsWithin(parts[i := Some(chunks[i])], chunks, flags[i := true]);
  }

  lemma {:induction false} FollowsFront(events: seq<Event>, plan: Plan)
    requires Follows(events, plan) && events != []
    ensures Follows(events[..|events| - 1], plan)
  {
  }

  /** The flags after one more event. */
  lemma {:induction false} FlagsLast(events: seq<Event>, plan: Plan)
    requires events != [] && Follows(events, plan)
    ensures var front, e := events[..|events| - 1], events[|events| - 1];
            if Touches(e, plan.id)
            then 0 <= e.request.index < |plan.chunks| && !Flags(front, plan)[e.request.index]
                 && Flags(events, plan) == Flags(front, plan)[e.request.index := true]
            else Flags(events, plan) == Flags(front, plan)
  {
  }

  /** Other transfers do not matter. */
  lemma {:induction false} Untouched(pending: Transfers, e: Event, plan: Plan, flags: seq<bool>)
    requires Holds(pending, plan, flags) && !Touches(e, plan.id)
    ensures Holds(Step(pending, e), plan, flags)
  {
  }

  lemma {:induction false} RunHolds(events: seq<Event>, plan: Plan)
    requires PlanOk(plan) && Follows(events, plan)
    ensures Holds(Run(events), plan, Flags(events, plan))
  {
    if events != [] {
      var front, e := events[..|events| - 1], events[|events| - 1];
      FollowsFront(events, plan);
      RunHolds(front, plan);
      TotalsAreSums(front);
      FlagsLast(events, plan);
      if Touches(e, plan.id) {
        AcceptChunk(Run(front), plan, Flags(front, plan), e.request.index);
      } else {
        Untouched(Run(front), e, plan, Flags(front, plan));
      }
    }
  }

  lemma {:induction false} FollowsPrefix(events: seq<Event>, plan: Plan, n: nat)
    requires Follows(events, plan) && n <= |events|
    ensures Follows(events[..n], plan)
  {
  }

  /** Whatever is interleaved with them, each chunk of a plan is answered with the whole
      file if it is the last missing chunk, and with progress otherwise. */
  lemma {:induction false} PushedOnLastChunk(events: seq<Event>, plan: Plan, n: nat)
    requires PlanOk(plan) && Follows(events, plan) && n < |events| && Touches(events[n], plan.id)
    ensures events[n].Chunk?
    ensures if All(Flags(events[..n + 1], plan)) then ReplyAt(events, n) == Pushed(plan.node, plan.name, Concat(plan.chunks))
            else ReplyAt(events, n).Progress?
  {
    var upto := events[..n + 1];
    FollowsPrefix(events, plan, n + 1);
    assert upto[..n] == events[..n];
    FollowsPrefix(events, plan, n);
    RunHolds(events[..n], plan);
    TotalsAreSums(events[..n]);
    FlagsLast(upto, plan);
    AcceptChunk(Run(events[..n]), plan, Flags(events[..n], plan), events[n].request.index);
  }

  lemma {:induction false} LastMissing(events: seq<Event>, plan: Plan) returns (n: nat)
    requires Follows(events, plan) && |plan.chunks| > 0 && All(Flags(events, plan))
    ensures n < |events| && Touches(events[n], plan.id)
    ensures All(Flags(events[..n + 1], plan)) && !All(Flags(events[..n], plan))
  {
    assert Flags(events, plan)[0];
    var front := events[..|events| - 1];
    if All(Flags(front, plan)) {
      FollowsFront(events, plan);
      n := LastMissing(front, plan);
      assert front[..n + 1] == events[..n + 1] && front[..n] == events[..n];
    } else {
      n := |events| - 1;
      FlagsLast(events, plan);
      assert events[..n + 1] == events;
    }
  }

  lemma {:induction false} FlagsStay(events: seq<Event>, plan: Plan, m: nat, n: nat)
    requires m <= n <= |events| && All(Flags(events[..m], plan))
    ensures All(Flags(events[..n], plan))
  {
    forall i | 0 <= i < |plan.chunks| ensures Flags(events[..n], plan)[i] {
      assert Flags(events[..m], plan)[i];
      var k :| 0 <= k < |events[..m]| && events[..m][k].Chunk? && events[..m][k].request.id == plan.id && events[..m][k].request.index == i;
      assert events[..n][k] == events[..m][k];
    }
  }

  /** Once all chunks of a plan were sent, the file has been pushed exactly once, as the
      concatenation of its chunks in order. */
  lemma {:induction false} PushedExactlyOnce(events: seq<Event>, plan: Plan) returns (n: nat)
    requires PlanOk(plan) && Follows(events, plan) && All(Flags(events, plan))
    ensures n < |events| && events[n].Chunk? && ReplyAt(events, n) == Pushed(plan.node, plan.name, Concat(plan.chunks))
    ensures forall m | 0 <= m < |events| && Touches(events[m], plan.id) && m != n :: events[m].Chunk? && ReplyAt(events, m).Progress?
    ensures plan.id !in Run(events)
  {
    n := LastMissing(events, plan);
    PushedOnLastChunk(events, plan, n);
    forall m | 0 <= m < |events| && Touches(events[m], plan.id) && m != n
      ensures events[m].Chunk? && ReplyAt(events, m).Progress?
    {
      PushedOnLastChunk(events, plan, m);
      if m < n {
        if All(Flags(events[..m + 1], plan)) {
          FlagsStay(events, plan, m + 1, n);
        }
      } else {
        NoneAfterAll(events, plan, n + 1, m);
      }
    }
    RunHolds(events, plan);
  }

  /** After all chunks were sent, no event touches the transfer. */
  lemma {:induction false} NoneAfterAll(events: seq<Event>, plan: Plan, n: nat, m: nat)
    requires Follows(events, plan) && n <= m < |events| && All(Flags(events[..n], plan))
    ensures !Touches(events[m], plan.id)
  {
    if Touches(events[m], plan.id) {
      FollowsPrefix(events, plan, m + 1);
      FlagsLast(events[..m + 1], plan);
      assert events[..m + 1][..m] == events[..m];
      FlagsStay(events, plan, n, m);
    }
  }

  // ---------- the sender ----------

  function Min(a: nat, b: nat): nat { if a < b then a else b }

  function ChunkCount(size: nat): nat { (size + CHUNK - 1) / CHUNK }

  lemma {:induction false} ChunkCountBounds(size: nat)
    ensures ChunkCount(size) * CHUNK >= size && (size > 0 ==> (ChunkCount(size) - 1) * CHUNK < size)
    ensures CHUNK < size <= MAX_BYTES ==> 2 <= ChunkCount(size) <= MAX_PARTS
  {
  }

  /** `sendFileChunked`: the slices reassemble to the file, and a file over one chunk and
      up to 50 MiB stays within the helper's limits. */
  method SendFileChunked(file: Bytes) returns (chunks: seq<Bytes>)
    ensures |chunks| == ChunkCount(|file|) && Concat(chunks) == file
    ensures forall i | 0 <= i < |chunks| :: 0 < |chunks[i]| <= 700000
    ensures 700000 < |file| <= 52428800 ==> 2 <= |chunks| <= 1024
  {
    var count := ChunkCount(|file|);
    ChunkCountBounds(|file|);
    chunks := [];
    var i := 0;
    while i < count
      invariant 0 <= i <= count && |chunks| == i && Concat(chunks) == file[..Min(i * CHUNK, |file|)]
      invariant forall k | 0 <= k < i :: 0 < |chunks[k]| <= CHUNK
    {
      var slice := file[i * CHUNK..Min((i + 1) * CHUNK, |file|)];
      assert (chunks + [slice])[..i] == chunks;
      assert file[..i * CHUNK] + slice == file[..Min((i + 1) * CHUNK, |file|)];
      chunks := chunks + [slice];
      i := i + 1;
    }
  }

  /** From popup to peer: the slices of a file over one chunk and up to 50 MiB, arriving
      in any order and interleaved with anything else, push exactly that file, once. */
  lemma {:induction false} FileArrives(file: Bytes, plan: Plan, events: seq<Event>) returns (n: nat)
    requires 700000 < |file| <= 52428800 && |plan.chunks| == ChunkCount(|file|) && Concat(plan.chunks) == file
    requires Follows(events, plan) && All(Flags(events, plan))
    ensures n < |events| && events[n].Chunk? && ReplyAt(events, n) == Pushed(plan.node, plan.name, file)
    ensures forall m | 0 <= m < |events| && Touches(events[m], plan.id) && m != n :: events[m].Chunk? && ReplyAt(events, m).Progress?
  {
    ChunkCountBounds(|file|);
    n := PushedExactlyOnce(events, plan);
  }

  // ---------- the helper's object ----------

  class Reassembler {
    var pending: Transfers

    constructor ()
      ensures pending == map[]
    {
      pending := map[];
    }

    method CountFilled(parts: seq<Option<Bytes>>) returns (filled: nat)
      ensures filled == Filled(parts)
    {
      filled := 0;
      var i := 0;
      while i < |parts|
        invariant 0 <= i <= |parts| && filled == Filled(parts[..i])
      {
        assert parts[..i + 1][..i] == parts[..i];
        if parts[i].Some? {
          filled := filled + 1;
        }
        i := i + 1;
      }
      assert parts[..i] == parts;
    }

    method HandleSendFileChunked(r: Request) returns (reply: Reply)
      requires Inv(pending)
      modifies this
      ensures (pending, reply) == Handle(old(pending), r) && Inv(pending)
    {
      HandleKeeps(pending, r);
      if r.count < 2 || r.count > MAX_PARTS || r.index < 0 || r.index >= r.count || r.data.None? {
        return Rejected;
      }
      var data := r.data.value;
      var acc;
      if r.id !in pending {
        acc := Pending(r.node, r.name, r.count, NoParts(r.count), 0);
      } else {
        acc := pending[r.id];
        if acc.count != r.count || acc.node != r.node || acc.name != r.name {
          pending := pending - {r.id};
          return Rejected;
        }
      }
      if acc.parts[r.index].Some? || acc.total + |data| > MAX_BYTES {
        pending := pending - {r.id};
        return Rejected;
      }
      acc := acc.(parts := acc.parts[r.index := Some(data)], total := acc.total + |data|);
      var filled := CountFilled(acc.parts);
      if filled == acc.count {
        pending := pending - {r.id};
        return Pushed(r.node, r.name, Joined(acc.parts));
      }
      pending := pending[r.id := acc];
      return Progress(filled);
    }

    method ExpireTransfer(id: string)
      modifies this
      ensures pending == Step(old(pending), Event.Expire(id))
    {
      pending := pending - {id};
    }

    method CancelTransfers()
      modifies this
      ensures pending == Step(old(pending), Event.CancelAll)
    {
      pending := map[];
    }
  }
}
